/** The 5-character short id that users share to be added as a friend or group member. */
module ShortIds {
  import opened Wrappers
  import opened Text
  import opened WriteSets

  /** Length every accepted short id has. */
  const ShortIdLength: nat := 5

  /** `uid.take(5).uppercase()`: the first five characters of the uid (fewer if the uid is shorter),
      upper-cased, each one derived from the uid character at the same position. */
  function ShortIdOf(uid: string): (r: string)
    ensures |r| == if |uid| < ShortIdLength then |uid| else ShortIdLength
    ensures forall i :: 0 <= i < |r| ==> r[i] == UpperChar(uid[i])
  {
    Upper(Take(uid, ShortIdLength))
  }

  /** The typed-in id of the add-friend and add-member fields, `text.trim().uppercase()`, accepted only
      when its Kotlin length, counted in UTF-16 code units, is exactly five. */
  function ParseShortIdInput(raw: string): (r: Option<string>)
    ensures r.Some? <==> Utf16Length(Trim(raw)) == ShortIdLength
    ensures r.Some? ==> r.value == Upper(Trim(raw)) && |r.value| <= ShortIdLength
    ensures r.Some? ==> forall i :: 0 <= i < |r.value| ==> !IsLowerAscii(r.value[i])
  {
    var shortId := Upper(Trim(raw));
    Utf16LengthOfUpper(Trim(raw));
    if Utf16Length(shortId) == ShortIdLength then Some(shortId) else None
  }

  /** Typing back the short id the app derived from a uid is accepted and yields that same id,
      provided the uid starts with five characters none above U+FFFF, the first and fifth not
      whitespace. */
  lemma ShortIdIsAccepted(uid: string)
    requires |uid| >= ShortIdLength
    requires !IsWhitespace(uid[0]) && !IsWhitespace(uid[ShortIdLength - 1])
    requires forall i :: 0 <= i < ShortIdLength ==> uid[i] as int <= 0xFFFF
    ensures ParseShortIdInput(ShortIdOf(uid)) == Some(ShortIdOf(uid))
  {
    var sid := ShortIdOf(uid);
    ShortIdIsNormal(uid);
    NormalIdIsAccepted(sid);
  }

  /** Such a short id is its own trim and its own upper case, five UTF-16 code units long. */
  lemma ShortIdIsNormal(uid: string)
    requires |uid| >= ShortIdLength
    requires !IsWhitespace(uid[0]) && !IsWhitespace(uid[ShortIdLength - 1])
    requires forall i :: 0 <= i < ShortIdLength ==> uid[i] as int <= 0xFFFF
    ensures Trim(ShortIdOf(uid)) == ShortIdOf(uid) && Upper(ShortIdOf(uid)) == ShortIdOf(uid)
    ensures Utf16Length(ShortIdOf(uid)) == ShortIdLength
  {
    ShortIdIsBmp(uid);
    ShortIdIsUpper(uid);
    ShortIdHasNoPadding(uid);
  }

  /** An id that is its own trim and its own upper case, five UTF-16 code units long, is accepted
      as itself. */
  lemma NormalIdIsAccepted(sid: string)
    requires Trim(sid) == sid && Upper(sid) == sid && Utf16Length(sid) == ShortIdLength
    ensures ParseShortIdInput(sid) == Some(sid)
  {
  }

  /** A short id is its own upper case. */
  lemma ShortIdIsUpper(uid: string)
    ensures Upper(ShortIdOf(uid)) == ShortIdOf(uid)
  {
    UpperIdempotent(Take(uid, ShortIdLength));
  }

  /** Such a short id is its own trim. */
  lemma ShortIdHasNoPadding(uid: string)
    requires |uid| >= ShortIdLength
    requires !IsWhitespace(uid[0]) && !IsWhitespace(uid[ShortIdLength - 1])
    ensures Trim(ShortIdOf(uid)) == ShortIdOf(uid)
  {
    var sid := ShortIdOf(uid);
    UpperCharKeepsWhitespace(uid[0]);
    UpperCharKeepsWhitespace(uid[ShortIdLength - 1]);
    TrimOfTrimmed(sid);
  }

  /** Such a short id is five UTF-16 code units long. */
  lemma ShortIdIsBmp(uid: string)
    requires |uid| >= ShortIdLength
    requires forall i :: 0 <= i < ShortIdLength ==> uid[i] as int <= 0xFFFF
    ensures Utf16Length(ShortIdOf(uid)) == ShortIdLength
  {
    var sid := ShortIdOf(uid);
    assert forall i :: 0 <= i < |sid| ==> sid[i] as int <= 0xFFFF;
    Utf16LengthOfBmp(sid);
  }

  /** Whitespace typed around the id does not matter. */
  lemma PaddingIgnored(w1: string, raw: string, w2: string)
    requires AllWhitespace(w1) && AllWhitespace(w2)
    ensures ParseShortIdInput(w1 + raw + w2) == ParseShortIdInput(raw)
  {
    TrimIgnoresPadding(w1, raw, w2);
  }

  /** The case the id is typed in does not matter. */
  lemma CaseIgnored(raw: string)
    ensures ParseShortIdInput(Upper(raw)) == ParseShortIdInput(raw)
  {
    TrimOfUpper(raw);
    UpperIdempotent(Trim(raw));
  }

  /** Upper-casing brings in no character the database refuses in a path, so a uid that is valid
      path text gives a short id that is valid path text too. */
  lemma ShortIdKeepsValidPath(uid: string)
    requires IsValidPathText(uid)
    ensures IsValidPathText(ShortIdOf(uid))
  {
    var sid := ShortIdOf(uid);
    forall i | 0 <= i < |sid|
      ensures sid[i] !in ForbiddenPathChars
    {
      assert uid[i] !in ForbiddenPathChars;
    }
  }

  /** The length check alone lets through a typed id that the database will refuse as a path:
      five characters such as "ab.cd", with a refused character inside, are accepted, and the
      refused character survives upper-casing. */
  lemma RefusedPathPassesLengthCheck(raw: string)
    requires |raw| == ShortIdLength
    requires !IsWhitespace(raw[0]) && !IsWhitespace(raw[ShortIdLength - 1])
    requires forall i :: 0 <= i < |raw| ==> raw[i] as int <= 0xFFFF
    requires !IsValidPathText(raw)
    ensures ParseShortIdInput(raw) == Some(Upper(raw))
    ensures !IsValidPathText(Upper(raw))
  {
    TrimOfTrimmed(raw);
    Utf16LengthOfBmp(raw);
    var k :| 0 <= k < |raw| && raw[k] in ForbiddenPathChars;
    assert Upper(raw)[k] == raw[k];
  }
}

/** RegisterActivity: the checks on the sign-up form and the records written for a new account. */
module Register {
  import opened Wrappers
  import opened Records
  import opened Text
  import opened ShortIds
  import opened WriteSets

  datatype RegisterError = EmptyField | PasswordMismatch

  /** The trimmed fields handed to account creation. */
  datatype Registration = Registration(fullName: string, email: string, password: string)

  /** The register button: every field is trimmed; a blank field is reported first, then a
      password and confirmation that differ. */
  function ValidateRegistration(fullName: string, email: string, password: string, confirmPassword: string)
    : (r: Result<Registration, RegisterError>)
    ensures r == Failure(EmptyField) <==>
      Blank(fullName) || Blank(email) || Blank(password) || Blank(confirmPassword)
    ensures r == Failure(PasswordMismatch) <==>
      !Blank(fullName) && !Blank(email) && !Blank(password) && !Blank(confirmPassword)
      && Trim(password) != Trim(confirmPassword)
    ensures r.Success? ==>
      && r.value == Registration(Trim(fullName), Trim(email), Trim(password))
      && r.value.fullName != [] && r.value.email != [] && r.value.password != []
      && Trim(password) == Trim(confirmPassword)
  {
    var name, mail, pass, confirm := Trim(fullName), Trim(email), Trim(password), Trim(confirmPassword);
    if name == [] || mail == [] || pass == [] || confirm == [] then Failure(EmptyField)
    else if pass != confirm then Failure(PasswordMismatch)
    else Success(Registration(name, mail, pass))
  }

  /** The update written once the account exists (`auth.currentUser?.uid ?: ""`): the user record
      under /Users/uid, with an empty picture and the default colour, and the short id pointing back
      at the uid, so that looking the short id up yields the new uid. */
  function RegisterWrites(authUid: Option<string>, fullName: string, email: string): (w: WriteSet)
    ensures var uid := authUid.GetOr("");
      && w.Keys == {UserNode(uid), ShortIdNode(ShortIdOf(uid))}
      && w[UserNode(uid)].Some? && w[UserNode(uid)].value.UserValue?
      && var u := w[UserNode(uid)].value.user;
         u.uid == uid && u.fullName == fullName && u.email == email && u.shortId == ShortIdOf(uid)
         && u.profileImageUrl == "" && u.chatColor == DefaultChatColor
    ensures LookupShortId(w, ShortIdOf(authUid.GetOr(""))) == Some(authUid.GetOr(""))
    ensures PrefixFree(w)
  {
    var uid := authUid.GetOr("");
    var shortId := ShortIdOf(uid);
    map[UserNode(uid) := Some(UserValue(NewUser(uid, fullName, email, shortId))),
        ShortIdNode(shortId) := Some(Str(uid))]
  }
}

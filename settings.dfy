/** SettingsActivity: editing the signed-in user's name, chat colour and picture. */
module Settings {
  import opened Wrappers
  import opened Records
  import opened Text
  import opened WriteSets

  /** The profile update of the save button: name and colour, and the picture when one was picked. */
  function ProfileUpdate(uid: string, name: string, color: string, image: Option<string>): (w: WriteSet)
    ensures w.Keys == {UserField(uid, "fullName"), UserField(uid, "chatColor")}
                      + (if image.Some? then {UserField(uid, "profileImageUrl")} else {})
    ensures w[UserField(uid, "fullName")] == Some(Str(name))
    ensures w[UserField(uid, "chatColor")] == Some(Str(color))
    ensures image.Some? ==> w[UserField(uid, "profileImageUrl")] == Some(Str(image.value))
  {
    var w := map[UserField(uid, "fullName") := Some(Str(name)), UserField(uid, "chatColor") := Some(Str(color))];
    if image.Some? then w[UserField(uid, "profileImageUrl") := Some(Str(image.value))] else w
  }

  /** The update's two or three paths are none nested in another. */
  lemma ProfileUpdateShape(uid: string, name: string, color: string, image: Option<string>)
    ensures PrefixFree(ProfileUpdate(uid, name, color, image))
  {
  }

  /** Applied to any stored record, the update sets name and colour, and the picture when one was
      picked, and leaves every other field alone. */
  lemma ProfileUpdateEffect(uid: string, name: string, color: string, image: Option<string>)
    ensures forall u ::
      UserAfterUpdate(uid, u, ProfileUpdate(uid, name, color, image))
        == Some(u.(fullName := name, chatColor := color, profileImageUrl := image.GetOr(u.profileImageUrl)))
  {
    var w := ProfileUpdate(uid, name, color, image);
    assert UserNode(uid) !in w;
    assert UserField(uid, "email") !in w && UserField(uid, "shortId") !in w;
    forall u: User
      ensures UserAfterUpdate(uid, u, w)
        == Some(u.(fullName := name, chatColor := color, profileImageUrl := image.GetOr(u.profileImageUrl)))
    {
      assert StrAt(w, UserField(uid, "fullName"), u.fullName) == name;
      assert StrAt(w, UserField(uid, "chatColor"), u.chatColor) == color;
      assert StrAt(w, UserField(uid, "profileImageUrl"), u.profileImageUrl) == image.GetOr(u.profileImageUrl);
    }
  }

  class SettingsScreen {
    /** The text of the name field. */
    var nameField: string
    /** The newly picked picture, encoded; `null` until one is picked. */
    var base64Image: Option<string>
    var selectedChatColor: string

    constructor()
      ensures nameField == "" && base64Image == None && selectedChatColor == DefaultChatColor
    {
      nameField := "";
      base64Image := None;
      selectedChatColor := DefaultChatColor;
    }

    /** A colour button. */
    method UpdateColorSelection(color: string)
      modifies this`selectedChatColor
      ensures selectedChatColor == color
    {
      selectedChatColor := color;
    }

    /** The image picker: a picture that could be encoded becomes the one to save. */
    method OnImageEncoded(encoded: Option<string>)
      modifies this`base64Image
      ensures base64Image == if encoded.Some? then encoded else old(base64Image)
    {
      if encoded.Some? {
        base64Image := encoded;
      }
    }

    /** The user typing into `etFullName`: not a function of the activity, but the input that
        saveProfile reads back from the field. */
    method EditName(text: string)
      modifies this`nameField
      ensures nameField == text
    {
      nameField := text;
    }

    /** loadUserData: the stored name fills the field, and the stored colour is selected when it
        is one of the five offered; any other colour leaves the selection as it was. */
    method OnUserLoaded(user: Option<User>)
      modifies this`nameField, this`selectedChatColor
      ensures user.None? ==> nameField == old(nameField) && selectedChatColor == old(selectedChatColor)
      ensures user.Some? ==> nameField == user.value.fullName
      ensures user.Some? && user.value.chatColor in Palette ==> selectedChatColor == user.value.chatColor
      ensures user.Some? && user.value.chatColor !in Palette ==> selectedChatColor == old(selectedChatColor)
    {
      if user.Some? {
        nameField := user.value.fullName;
        // The `when` has one arm per palette colour, each selecting that colour, and no else arm.
        if user.value.chatColor in Palette {
          UpdateColorSelection(user.value.chatColor);
        }
      }
    }

    /** saveProfile: nothing for a blank name or a signed-out user; otherwise the trimmed name and
        the selected colour, and the picture only when one was picked, under /Users/uid. */
    method SaveProfile(authUid: Option<string>) returns (w: Option<WriteSet>)
      ensures w.None? <==> Blank(nameField) || authUid.None?
      ensures w.Some? ==>
        var uid := authUid.value;
        && w.value.Keys == {UserField(uid, "fullName"), UserField(uid, "chatColor")}
             + (if base64Image.Some? then {UserField(uid, "profileImageUrl")} else {})
        && w.value[UserField(uid, "fullName")] == Some(Str(Trim(nameField)))
        && w.value[UserField(uid, "chatColor")] == Some(Str(selectedChatColor))
        && (base64Image.Some? ==> w.value[UserField(uid, "profileImageUrl")] == Some(Str(base64Image.value)))
        && PrefixFree(w.value)
      ensures w.Some? ==>
        forall u :: UserAfterUpdate(authUid.value, u, w.value) == Some(u.(
          fullName := Trim(nameField),
          chatColor := selectedChatColor,
          profileImageUrl := base64Image.GetOr(u.profileImageUrl)))
    {
      var newName := Trim(nameField);
      if newName == [] || authUid.None? {
        return None;
      }
      var uid := authUid.value;
      var updates := map[UserField(uid, "fullName") := Some(Str(newName)),
                         UserField(uid, "chatColor") := Some(Str(selectedChatColor))];
      if base64Image.Some? {
        updates := updates[UserField(uid, "profileImageUrl") := Some(Str(base64Image.value))];
      }
      assert updates == ProfileUpdate(uid, newName, selectedChatColor, base64Image);
      ProfileUpdateShape(uid, newName, selectedChatColor, base64Image);
      ProfileUpdateEffect(uid, newName, selectedChatColor, base64Image);
      w := Some(updates);
    }
  }

  /** Opening the settings and saving straight away rewrites the stored record with its name
      trimmed, and with its colour reset to white when the stored colour is not one of the five. */
  method SaveUnchangedProfile(uid: string, u: User) returns (after: Option<User>)
    ensures !Blank(u.fullName) ==>
      after == Some(u.(fullName := Trim(u.fullName),
                       chatColor := if u.chatColor in Palette then u.chatColor else DefaultChatColor))
    ensures Blank(u.fullName) ==> after == Some(u)
  {
    var screen := new SettingsScreen();
    screen.OnUserLoaded(Some(u));
    var w := screen.SaveProfile(Some(uid));
    after := if w.Some? then UserAfterUpdate(uid, u, w.value) else Some(u);
  }
}

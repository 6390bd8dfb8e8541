/** The records the app stores under /Users, /Groups and the message lists (User.kt, Group.kt, Message.kt). */
module Records {
  /** Chat colour every new user and group starts with. */
  const DefaultChatColor: string := "#FFFFFF"

  /** The five colours offered by the settings and create-group screens, in screen order. */
  const Palette: seq<string> := ["#FFFFFF", "#BBDEFB", "#C8E6C9", "#F8BBD0", "#FFF9C4"]

  datatype User = User(
    uid: string,
    fullName: string,
    email: string,
    shortId: string,
    profileImageUrl: string,
    chatColor: string)

  /** `members` is the uid -> true map stored under /Groups/gid/members. */
  datatype Group = Group(
    groupId: string,
    groupName: string,
    members: map<string, bool>,
    adminId: string,
    groupImageUrl: string,
    chatColor: string)

  datatype Message = Message(message: string, senderId: string, timestamp: int)

  /** `User(uid, fullName, email, shortId)`: the other fields take their declared defaults. */
  function NewUser(uid: string, fullName: string, email: string, shortId: string): User {
    User(uid, fullName, email, shortId, "", DefaultChatColor)
  }

  /** The group invariant the app relies on: the admin is one of the members. */
  predicate AdminIsMember(g: Group) {
    g.adminId in g.members
  }
}

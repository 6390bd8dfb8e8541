/** MemberAdapter: the member rows of the group-members sheet. */
module Members {
  import opened Records

  /** The admin badge marks the admin's row. */
  predicate ShowsAdminBadge(rowUid: string, adminId: string) {
    rowUid == adminId
  }

  /** The remove button: only the admin sees it, and never on the admin's own row. */
  predicate ShowsRemoveButton(viewerUid: string, adminId: string, rowUid: string) {
    viewerUid == adminId && rowUid != adminId
  }

  /** What one bound row shows. */
  datatype MemberRow = MemberRow(name: string, adminBadge: bool, removeButton: bool)

  /** The adapter over the member list, the admin id and the viewer's uid it was created with. */
  datatype MemberAdapter = MemberAdapter(memberList: seq<User>, adminId: string, currentUserId: string)
  {
    function ItemCount(): (n: nat)
      ensures n == |memberList|
    {
      |memberList|
    }

    /** onBindViewHolder */
    function Row(position: nat): (r: MemberRow)
      requires position < |memberList|
      ensures r.name == memberList[position].fullName
      ensures r.adminBadge <==> memberList[position].uid == adminId
      ensures r.removeButton <==> currentUserId == adminId && memberList[position].uid != adminId
    {
      var user := memberList[position];
      MemberRow(user.fullName, ShowsAdminBadge(user.uid, adminId), ShowsRemoveButton(currentUserId, adminId, user.uid))
    }
  }

  /** The admin never gets a button to remove themselves, and no row carries both the badge and
      the button. */
  lemma AdminCannotRemoveSelf(a: MemberAdapter, position: nat)
    requires position < |a.memberList|
    ensures a.Row(position).removeButton ==> a.memberList[position].uid != a.currentUserId
    ensures !(a.Row(position).removeButton && a.Row(position).adminBadge)
  {
  }

  /** A viewer who is not the admin sees no remove button on any row. */
  lemma NonAdminSeesNoRemoveButton(a: MemberAdapter)
    requires a.currentUserId != a.adminId
    ensures forall position :: 0 <= position < |a.memberList| ==> !a.Row(position).removeButton
  {
  }

  /** The admin sees a remove button on every row but the admin's. */
  lemma AdminSeesEveryOtherButton(a: MemberAdapter)
    requires a.currentUserId == a.adminId
    ensures forall position :: 0 <= position < |a.memberList| ==>
      (a.Row(position).removeButton <==> !a.Row(position).adminBadge)
  {
  }
}

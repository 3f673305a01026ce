/** Display-name lookup over the group's member list. */
module Names {
  import opened Wrappers
  import opened Ledger

  /** Shown for a user id with no member, or whose member has an empty name. */
  const UnknownName: string := "Unknown"

  /** `members.find(m => m.uid === userId)`, as the index of the first match. */
  function FindMember(userId: string, members: seq<Member>): (r: Option<nat>)
    ensures r.Some? ==> r.value < |members| && members[r.value].uid == userId
    ensures r.Some? ==> forall j :: 0 <= j < r.value ==> members[j].uid != userId
    ensures r.None? ==> forall j :: 0 <= j < |members| ==> members[j].uid != userId
  {
    if members == [] then None
    else if members[0].uid == userId then Some(0)
    else
      match FindMember(userId, members[1..])
      case None => None
      case Some(i) => Some(i + 1)
  }

  /** `getUserName`: the name of the first member with the id, falling back to "Unknown"
      when there is none or that name is empty; never the empty string. */
  function GetUserName(userId: string, members: seq<Member>): (name: string)
    ensures name != []
    ensures forall i :: 0 <= i < |members| && members[i].uid == userId
                        && (forall j :: 0 <= j < i ==> members[j].uid != userId) ==>
              name == (if members[i].name != [] then members[i].name else UnknownName)
    ensures (forall i :: 0 <= i < |members| ==> members[i].uid != userId) ==> name == UnknownName
  {
    match FindMember(userId, members)
    case None => UnknownName
    case Some(i) => if members[i].name != [] then members[i].name else UnknownName
  }
}

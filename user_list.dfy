/** The community-members card: profile addresses paired with domains by index. */
module UserList {
  import opened Wrappers

  /** One member row. */
  datatype Member = Member(address: string, domain: string)

  /** `allDomains[index] || "unknown"`: a missing or empty domain reads "unknown". */
  function DomainAt(domains: seq<string>, index: nat): (d: string)
    ensures d != []
    ensures index < |domains| && domains[index] != [] ==> d == domains[index]
    ensures !(index < |domains| && domains[index] != []) ==> d == "unknown"
  {
    if index < |domains| && domains[index] != [] then domains[index] else "unknown"
  }

  /** `users.map((address, index) => ...)`. */
  function Pair(users: seq<string>, domains: seq<string>): (r: seq<Member>)
    ensures |r| == |users|
    ensures forall i :: 0 <= i < |r| ==> r[i] == Member(users[i], DomainAt(domains, i))
  {
    seq(|users|, i requires 0 <= i < |users| => Member(users[i], DomainAt(domains, i)))
  }

  /** The effect: the list is rebuilt only when both the domains and the
      profiles have arrived (any array is truthy, the empty one included);
      otherwise it stays as it was. */
  function Rebuild(allDomains: Option<seq<string>>, profileUsers: Option<seq<string>>, current: seq<Member>): (r: seq<Member>)
    ensures allDomains.None? || profileUsers.None? ==> r == current
    ensures allDomains.Some? && profileUsers.Some? ==> r == Pair(profileUsers.value, allDomains.value)
  {
    if allDomains.Some? && profileUsers.Some? then Pair(profileUsers.value, allDomains.value) else current
  }

  /** Every member shows a domain, and with at least one non-empty domain per
      user the domains are paired with the users in order. */
  lemma PairDomains(users: seq<string>, domains: seq<string>)
    ensures forall i :: 0 <= i < |users| ==> Pair(users, domains)[i].domain != []
    ensures |domains| >= |users| && (forall i :: 0 <= i < |domains| ==> domains[i] != []) ==>
      forall i :: 0 <= i < |users| ==> Pair(users, domains)[i].domain == domains[i]
    ensures |domains| == 0 ==> forall i :: 0 <= i < |users| ==> Pair(users, domains)[i].domain == "unknown"
  {
  }

  /** The card: loading first, then the empty state, then the rows. */
  datatype MembersView = LoadingMembers | NoMembers | MemberRows(rows: seq<Member>)

  function Render(domainsLoading: bool, profilesLoading: bool, userList: seq<Member>): (v: MembersView)
    ensures v == LoadingMembers <==> domainsLoading || profilesLoading
    ensures v == NoMembers <==> !domainsLoading && !profilesLoading && |userList| == 0
    ensures v.MemberRows? ==> v.rows == userList && |userList| > 0
  {
    if domainsLoading || profilesLoading then LoadingMembers
    else if |userList| == 0 then NoMembers
    else MemberRows(userList)
  }
}

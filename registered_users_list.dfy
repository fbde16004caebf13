/** The registered-users card: one entry per user with its avatar source,
    "You" badge and shortened address, or an empty state. */
module RegisteredUsersList {
  import opened Wrappers
  import opened JsStrings
  import opened RegisteredUsers

  const Placeholder := "/placeholder.svg"
  const IpfsGateway := "https://gateway.pinata.cloud/ipfs/"

  /** The avatar `src`: the placeholder for no avatar, a data URL as it is, and
      anything else read as an IPFS hash behind the gateway. */
  function AvatarSrc(avatar: string): (r: string)
    ensures avatar == [] ==> r == Placeholder
    ensures avatar != [] && StartsWith(avatar, "data:") ==> r == avatar
    ensures avatar != [] && !StartsWith(avatar, "data:") ==> r == IpfsGateway + avatar
  {
    if avatar == [] then Placeholder
    else if StartsWith(avatar, "data:") then avatar
    else IpfsGateway + avatar
  }

  /** The source is never empty, and a gateway URL gives its hash back once the
      gateway prefix is cut off. */
  lemma AvatarSrcRecoverable(avatar: string)
    ensures AvatarSrc(avatar) != []
    ensures avatar != [] && !StartsWith(avatar, "data:") ==>
      StartsWith(AvatarSrc(avatar), IpfsGateway) && AvatarSrc(avatar)[|IpfsGateway|..] == avatar
  {
    if avatar != [] && !StartsWith(avatar, "data:") {
      var r := AvatarSrc(avatar);
      assert r[..|IpfsGateway|] == IpfsGateway;
    }
  }

  /** `address.slice(0, 6) + "..." + address.slice(-4)`. */
  function ShortAddress(address: string): string {
    SliceHead(address, 6) + "..." + SliceTail(address, 4)
  }

  /** For an address of ten characters or more the short form is 13 characters:
      the first six, three dots, the last four. */
  lemma ShortAddressShape(address: string)
    requires |address| >= 10
    ensures var r := ShortAddress(address);
      |r| == 13 && r[..6] == address[..6] && r[6..9] == "..." && r[9..] == address[|address| - 4..]
  {
    var r := ShortAddress(address);
    assert r == address[..6] + "..." + address[|address| - 4..];
    assert r[..6] == address[..6];
  }

  /** The demo user's address as shown. */
  lemma ShortDemoAddress()
    ensures ShortAddress(DemoUser.address) == "0x1234...7890"
  {
    var head, middle, tail := "0x1234", "56789012345678901234567890123456", "7890";
    var a := head + middle + tail;
    assert |a| == 42;
    assert a[..6] == head;
    assert a[38..] == tail;
  }

  /** The "You" badge: the user's address equals the connected one (a missing
      address equals none). */
  predicate ShowsYou(user: RegisteredUser, currentUserAddress: Option<string>) {
    currentUserAddress == Some(user.address)
  }

  /** One rendered row. */
  datatype Entry = Entry(name: string, avatarSrc: string, you: bool, shortAddress: string)

  function EntryOf(user: RegisteredUser, currentUserAddress: Option<string>): Entry {
    Entry(user.name, AvatarSrc(user.avatar), ShowsYou(user, currentUserAddress), ShortAddress(user.address))
  }

  /** The card: an empty state or a header count with one entry per user. */
  datatype ListView = NoUsersYet | UserRows(count: nat, entries: seq<Entry>)

  function Render(users: seq<RegisteredUser>, currentUserAddress: Option<string>): (v: ListView)
    ensures v.NoUsersYet? <==> |users| == 0
    ensures v.UserRows? ==> v.count == |users| && |v.entries| == |users|
    ensures v.UserRows? ==> forall i :: 0 <= i < |users| ==> v.entries[i] == EntryOf(users[i], currentUserAddress)
  {
    if |users| == 0 then NoUsersYet
    else UserRows(|users|, seq(|users|, i requires 0 <= i < |users| => EntryOf(users[i], currentUserAddress)))
  }

  /** With an address connected, the badge marks exactly the rows of that address. */
  lemma YouBadgeMarksOwnRows(users: seq<RegisteredUser>, address: string)
    requires |users| > 0
    ensures var v := Render(users, Some(address));
      forall i :: 0 <= i < |users| ==> (v.entries[i].you <==> users[i].address == address)
  {
  }
}

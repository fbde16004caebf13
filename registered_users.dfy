/** The registered-user records both pages keep in the "registeredUsers"
    local-storage slot, the demo user the pages seed, and the lookup of the
    connected wallet's record. */
module RegisteredUsers {
  import opened Wrappers

  datatype RegisteredUser = RegisteredUser(name: string, avatar: string, address: string)

  /** What `JSON.parse(localStorage.getItem("registeredUsers") || "[]")` makes of
      the slot: nothing stored (or the empty string, read as "[]"), something
      that is not a list (parsing throws, or the list operations on it do), or
      the stored list. */
  datatype UsersSlot = NoUsers | Unparsable | Users(users: seq<RegisteredUser>)

  /** The list a readable slot holds (`"[]"` when nothing is stored). */
  function UsersOf(slot: UsersSlot): seq<RegisteredUser> {
    if slot.Users? then slot.users else []
  }

  /** The demo wallet address "0x1234567890123456789012345678901234567890",
      written as its first six, middle and last four characters. */
  const DemoAddress := "0x1234" + "56789012345678901234567890123456" + "7890"

  /** The fixed demo record both pages add when nobody is called "Alice". */
  const DemoUser := RegisteredUser("Alice", "/placeholder-user.jpg", DemoAddress)

  /** JavaScript truthiness of an optional string: present and not "". */
  predicate Truthy(s: Option<string>) {
    s.Some? && s.value != ""
  }

  /** `users.some((user) => user.name === name)`, case-sensitive. */
  predicate HasUserNamed(users: seq<RegisteredUser>, name: string) {
    exists i :: 0 <= i < |users| && users[i].name == name
  }

  /** The seeding step of both pages' load effect. */
  function SeedDemoUser(users: seq<RegisteredUser>): seq<RegisteredUser> {
    if HasUserNamed(users, "Alice") then users else users + [DemoUser]
  }

  /** Seeding keeps everyone in order and, when nobody is called "Alice",
      appends exactly the demo record; otherwise it changes nothing. */
  lemma SeedDemoUserSpec(users: seq<RegisteredUser>)
    ensures var r := SeedDemoUser(users);
      r[..|users|] == users &&
      HasUserNamed(r, "Alice") &&
      (HasUserNamed(users, "Alice") ==> r == users) &&
      (!HasUserNamed(users, "Alice") ==> |r| == |users| + 1 && r[|users|] == DemoUser)
  {
    var r := SeedDemoUser(users);
    if !HasUserNamed(users, "Alice") {
      assert r[|users|].name == "Alice";
    }
  }

  /** Seeding twice is seeding once. */
  lemma SeedDemoUserIdempotent(users: seq<RegisteredUser>)
    ensures SeedDemoUser(SeedDemoUser(users)) == SeedDemoUser(users)
  {
    SeedDemoUserSpec(users);
  }

  /** `users.find((user) => user.address === address)`: the first record of that
      address. A missing address (`null`) equals no stored string. */
  function FindByAddress(users: seq<RegisteredUser>, address: Option<string>): (r: Option<RegisteredUser>)
    ensures r.Some? ==> r.value in users && address == Some(r.value.address)
    ensures r.None? <==> forall i :: 0 <= i < |users| ==> address != Some(users[i].address)
  {
    if users == [] then None
    else if address == Some(users[0].address) then Some(users[0])
    else FindByAddress(users[1..], address)
  }

  /** The lookup returns the FIRST record of the address. */
  lemma {:induction false} FindByAddressFirst(users: seq<RegisteredUser>, address: Option<string>, k: nat)
    requires k < |users| && address == Some(users[k].address)
    requires forall j :: 0 <= j < k ==> address != Some(users[j].address)
    ensures FindByAddress(users, address) == Some(users[k])
  {
    if k > 0 {
      FindByAddressFirst(users[1..], address, k - 1);
    }
  }

  /** The "registeredUsers" slot, shared by the pages and the registration form. */
  class UserDirectory {
    var slot: UsersSlot

    constructor (initial: UsersSlot)
      ensures slot == initial
    {
      slot := initial;
    }

    /** The first half of both pages' load effect: parse the slot (throwing,
        reported as `None`, when it is not a list), seed the demo user and write
        the list back only when the demo user was added. */
    method LoadSeeded() returns (users: Option<seq<RegisteredUser>>)
      modifies this
      ensures old(slot).Unparsable? ==> users == None && slot == old(slot)
      ensures old(slot).NoUsers? ==> users == Some(SeedDemoUser([])) && slot == Users(users.value)
      ensures old(slot).Users? ==> users == Some(SeedDemoUser(old(slot).users))
      ensures old(slot).Users? && HasUserNamed(old(slot).users, "Alice") ==> slot == old(slot)
      ensures old(slot).Users? && !HasUserNamed(old(slot).users, "Alice") ==> slot == Users(users.value)
    {
      if slot.Unparsable? {
        return None;
      }
      var list := UsersOf(slot);
      if !HasUserNamed(list, "Alice") {
        list := list + [DemoUser];
        slot := Users(list);
      }
      users := Some(list);
    }
  }

  /** Running the load effect twice yields the same list as running it once,
      and the slot then holds exactly that list. */
  method LoadSeededTwice(directory: UserDirectory) returns (first: Option<seq<RegisteredUser>>, second: Option<seq<RegisteredUser>>)
    modifies directory
    ensures first == second
    ensures old(directory.slot).Unparsable? <==> first.None?
    ensures first.Some? ==> directory.slot == Users(first.value)
  {
    first := directory.LoadSeeded();
    second := directory.LoadSeeded();
    if first.Some? {
      SeedDemoUserSpec(UsersOf(old(directory.slot)));
      SeedDemoUserIdempotent(UsersOf(old(directory.slot)));
    }
  }

  /** The load effect both pages run when the address changes: load and seed
      the list, then, when an address is connected, make the first record of
      that address (or nobody) current; without an address the current user is
      left as it was. An unreadable slot makes the effect throw: `None`, and
      nothing else changes. */
  method LoadEffect(directory: UserDirectory, address: Option<string>, current: Option<RegisteredUser>)
    returns (users: Option<seq<RegisteredUser>>, newCurrent: Option<RegisteredUser>)
    modifies directory
    ensures old(directory.slot).Unparsable? <==> users.None?
    ensures users.Some? ==> users.value == SeedDemoUser(UsersOf(old(directory.slot)))
    ensures users.Some? ==> directory.slot == Users(users.value)
    ensures users.None? ==> directory.slot == old(directory.slot)
    ensures users.Some? && Truthy(address) ==> newCurrent == FindByAddress(users.value, address)
    ensures users.None? || !Truthy(address) ==> newCurrent == current
    ensures newCurrent != current ==> newCurrent.Some? ==> newCurrent.value.address == address.value
  {
    users := directory.LoadSeeded();
    newCurrent := current;
    if users.Some? && Truthy(address) {
      newCurrent := FindByAddress(users.value, address);
    }
  }
}

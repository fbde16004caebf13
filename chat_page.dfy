/** The chat page: the same user loading as the home page, the partner list,
    selecting and leaving a conversation, and which view is shown. */
module ChatPage {
  import opened Wrappers
  import opened RegisteredUsers

  /** `registeredUsers.filter((user) => user.address !== address)`; a missing
      address (`null`) equals no stored address, so then everyone is kept. */
  function Partners(users: seq<RegisteredUser>, address: Option<string>): (r: seq<RegisteredUser>)
    ensures |r| <= |users|
  {
    if users == [] then []
    else
      var rest := Partners(users[1..], address);
      if address != Some(users[0].address) then [users[0]] + rest else rest
  }

  /** The partners are exactly the users of another address, and there are
      none exactly when every user has the connected address. */
  lemma {:induction false} PartnersSpec(users: seq<RegisteredUser>, address: Option<string>)
    ensures forall u :: u in Partners(users, address) <==> u in users && address != Some(u.address)
    ensures Partners(users, address) == [] <==> forall i :: 0 <= i < |users| ==> address == Some(users[i].address)
  {
    if users != [] {
      PartnersSpec(users[1..], address);
      assert forall u :: u in users <==> u == users[0] || u in users[1..];
      if Partners(users, address) == [] {
        forall i | 0 <= i < |users| ensures address == Some(users[i].address) {
          if i > 0 {
            assert users[i] == users[1..][i - 1];
          }
        }
      }
    }
  }

  /** The filter keeps the list order: filtering a concatenation concatenates
      the filtered parts. */
  lemma {:induction false} PartnersAppend(a: seq<RegisteredUser>, b: seq<RegisteredUser>, address: Option<string>)
    ensures Partners(a + b, address) == Partners(a, address) + Partners(b, address)
  {
    if a == [] {
      assert a + b == b;
    } else {
      assert (a + b)[1..] == a[1..] + b;
      PartnersAppend(a[1..], b, address);
    }
  }

  /** The connected user never appears among their own partners. */
  lemma CurrentUserNotAPartner(users: seq<RegisteredUser>, address: Option<string>)
    requires FindByAddress(users, address).Some?
    ensures FindByAddress(users, address).value !in Partners(users, address)
  {
    PartnersSpec(users, address);
  }

  /** The views of the page. */
  datatype ChatView = ConnectPrompt | RegisterPrompt | UserPicker(partners: seq<RegisteredUser>, showNoPartners: bool)
                    | Conversation(currentUser: RegisteredUser, otherUser: RegisteredUser)

  /** The early returns for a missing wallet and a missing record, then the
      chat window when a partner is selected and the picker otherwise, with
      its "no other users" line exactly when there are no partners. */
  function View(isConnected: bool, address: Option<string>, users: seq<RegisteredUser>,
                currentUser: Option<RegisteredUser>, selectedUser: Option<RegisteredUser>): (v: ChatView)
    ensures v == ConnectPrompt <==> !isConnected
    ensures v == RegisterPrompt <==> isConnected && currentUser.None?
    ensures v.Conversation? <==> isConnected && currentUser.Some? && selectedUser.Some?
    ensures v.Conversation? ==> v == Conversation(currentUser.value, selectedUser.value)
    ensures v.UserPicker? ==> v.partners == Partners(users, address) && (v.showNoPartners <==> v.partners == [])
  {
    if !isConnected then ConnectPrompt
    else if currentUser.None? then RegisterPrompt
    else if selectedUser.Some? then Conversation(currentUser.value, selectedUser.value)
    else
      var partners := Partners(users, address);
      UserPicker(partners, |partners| == 0)
  }

  class ChatPage {
    const directory: UserDirectory
    var registeredUsers: seq<RegisteredUser>
    var currentUser: Option<RegisteredUser>
    var selectedUser: Option<RegisteredUser>

    constructor (directory: UserDirectory)
      ensures this.directory == directory
      ensures registeredUsers == [] && currentUser == None && selectedUser == None
    {
      this.directory := directory;
      registeredUsers := [];
      currentUser := None;
      selectedUser := None;
    }

    /** The load effect, the same as the home page's. */
    method Load(address: Option<string>) returns (loaded: bool)
      modifies this, directory
      ensures loaded <==> !old(directory.slot).Unparsable?
      ensures !loaded ==> (registeredUsers == old(registeredUsers) && currentUser == old(currentUser) &&
                           directory.slot == old(directory.slot))
      ensures loaded ==> (registeredUsers == SeedDemoUser(UsersOf(old(directory.slot))) &&
                          directory.slot == Users(registeredUsers))
      ensures loaded && Truthy(address) ==> currentUser == FindByAddress(registeredUsers, address)
      ensures !Truthy(address) ==> currentUser == old(currentUser)
      ensures selectedUser == old(selectedUser)
    {
      var users, current := LoadEffect(directory, address, currentUser);
      loaded := users.Some?;
      if loaded {
        registeredUsers := users.value;
        currentUser := current;
      }
    }

    /** handleUserSelect: a registered, connected user then sees the chat with `user`. */
    method UserSelect(user: RegisteredUser)
      modifies this
      ensures selectedUser == Some(user)
      ensures registeredUsers == old(registeredUsers) && currentUser == old(currentUser)
      ensures forall address :: currentUser.Some? ==>
        View(true, address, registeredUsers, currentUser, selectedUser) == Conversation(currentUser.value, user)
    {
      selectedUser := Some(user);
    }

    /** handleBackToList: the picker is shown again. */
    method BackToList()
      modifies this
      ensures selectedUser == None
      ensures registeredUsers == old(registeredUsers) && currentUser == old(currentUser)
      ensures forall address :: currentUser.Some? ==>
        View(true, address, registeredUsers, currentUser, selectedUser).UserPicker?
    {
      selectedUser := None;
    }
  }
}

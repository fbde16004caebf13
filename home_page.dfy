/** The home page: the registered users and the current one, loaded from the
    "registeredUsers" slot, and what registration changes. */
module HomePage {
  import opened Wrappers
  import opened RegisteredUsers

  /** The three views of the page body. */
  datatype HomeView = Landing | RegistrationForm | RegisteredHome(user: RegisteredUser)

  /** Not connected: the landing page; connected without a record: the
      registration form; otherwise the registered user's home. */
  function View(isConnected: bool, currentUser: Option<RegisteredUser>): (v: HomeView)
    ensures v == Landing <==> !isConnected
    ensures v == RegistrationForm <==> isConnected && currentUser.None?
    ensures v.RegisteredHome? <==> isConnected && currentUser.Some?
    ensures v.RegisteredHome? ==> v.user == currentUser.value
  {
    if !isConnected then Landing
    else if currentUser.None? then RegistrationForm
    else RegisteredHome(currentUser.value)
  }

  class HomePage {
    const directory: UserDirectory
    var registeredUsers: seq<RegisteredUser>
    var currentUser: Option<RegisteredUser>

    constructor (directory: UserDirectory)
      ensures this.directory == directory && registeredUsers == [] && currentUser == None
    {
      this.directory := directory;
      registeredUsers := [];
      currentUser := None;
    }

    /** The load effect, run with the connected address. */
    method Load(address: Option<string>) returns (loaded: bool)
      modifies this, directory
      ensures loaded <==> !old(directory.slot).Unparsable?
      ensures !loaded ==> (registeredUsers == old(registeredUsers) && currentUser == old(currentUser) &&
                           directory.slot == old(directory.slot))
      ensures loaded ==> (registeredUsers == SeedDemoUser(UsersOf(old(directory.slot))) &&
                          directory.slot == Users(registeredUsers))
      ensures loaded && Truthy(address) ==> currentUser == FindByAddress(registeredUsers, address)
      ensures !Truthy(address) ==> currentUser == old(currentUser)
    {
      var users, current := LoadEffect(directory, address, currentUser);
      loaded := users.Some?;
      if loaded {
        registeredUsers := users.value;
        currentUser := current;
      }
    }

    /** handleRegistrationComplete: the new record joins the list and becomes current. */
    method RegistrationComplete(user: RegisteredUser)
      modifies this
      ensures registeredUsers == old(registeredUsers) + [user]
      ensures currentUser == Some(user)
      ensures View(true, currentUser) == RegisteredHome(user)
    {
      registeredUsers := registeredUsers + [user];
      currentUser := Some(user);
    }
  }
}

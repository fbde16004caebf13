/** The registration form: the name rules (length, character set,
    case-insensitive uniqueness), the avatar choice, the guard cascade of a
    submit and the append to the "registeredUsers" slot. */
module UserRegistration {
  import opened Wrappers
  import opened JsStrings
  import opened AvatarFile
  import opened RegisteredUsers

  /** The character class `[a-zA-Z0-9_-]`. */
  predicate IsNameChar(c: char) {
    IsAsciiUpper(c) || IsAsciiLower(c) || IsAsciiDigit(c) || c == '_' || c == '-'
  }

  /** isValidName: 3 to 20 characters, all from the class above. */
  predicate IsValidName(s: string) {
    3 <= |s| <= 20 && forall i :: 0 <= i < |s| ==> IsNameChar(s[i])
  }

  /** The source bounds `length`, which counts UTF-16 code units; the class is
      ASCII, so bounding the characters instead decides the same names. */
  lemma ValidNameCodeUnits(s: string)
    ensures IsValidName(s) <==> 3 <= JsLength(s) <= 20 && forall i :: 0 <= i < |s| ==> IsNameChar(s[i])
  {
    JsLengthIsLength(s);
  }

  /** isNameTaken: some existing user's name equals `s` ignoring (ASCII) case. */
  predicate IsNameTaken(existing: seq<RegisteredUser>, s: string) {
    exists i :: 0 <= i < |existing| && ToLower(existing[i].name) == ToLower(s)
  }

  /** Where the length bounds and the character class cut. */
  lemma ValidNameExamples()
    ensures !IsValidName("ab") && IsValidName("abc")
    ensures IsValidName("Alice_01-x") && !IsValidName("a b") && !IsValidName("al.ce")
    ensures IsValidName("abcdefghijklmnopqrst") && !IsValidName("abcdefghijklmnopqrstu")
  {
    assert !IsNameChar("a b"[1]);
    assert !IsNameChar("al.ce"[2]);
  }

  /** A valid name has no whitespace, so trimming leaves it as typed and the
      stored name is the name the checks were made on. */
  lemma ValidNameIsTrimmed(s: string)
    ensures IsValidName(s) ==> Trim(s) == s && Trim(s) != []
  {
    if IsValidName(s) {
      assert NoWhitespace(s) by {
        forall i | 0 <= i < |s| ensures !IsJsWhitespace(s[i]) {
          assert IsNameChar(s[i]);
        }
      }
      TrimNoWhitespace(s);
    }
  }

  /** Whether a name is taken does not depend on the case it is typed in. */
  lemma NameTakenIgnoresCase(existing: seq<RegisteredUser>, s: string)
    ensures IsNameTaken(existing, s) <==> IsNameTaken(existing, ToLower(s))
  {
    ToLowerIdempotent(s);
  }

  /** Once a user is added, their name, in any case, is taken. */
  lemma AddedNameIsTaken(existing: seq<RegisteredUser>, user: RegisteredUser, s: string)
    requires ToLower(s) == ToLower(user.name)
    ensures IsNameTaken(existing + [user], s)
  {
    assert (existing + [user])[|existing|] == user;
  }

  /** The reasons a submit is refused, each with its own toast. */
  datatype Refusal = NotConnected | NameRequired | InvalidName | NameTaken | AvatarRequired

  /** The early returns of handleSubmit, tried in order: the first that applies. */
  function FirstRefusal(isConnected: bool, address: Option<string>, name: string,
                        existing: seq<RegisteredUser>, avatarChosen: bool): (r: Option<Refusal>)
    ensures r.None? <==> (isConnected && Truthy(address) && !AllWhitespace(name) &&
                          IsValidName(name) && !IsNameTaken(existing, name) && avatarChosen)
    ensures r == Some(NotConnected) <==> !isConnected || !Truthy(address)
    ensures r == Some(NameRequired) <==> isConnected && Truthy(address) && AllWhitespace(name)
    ensures r == Some(InvalidName) <==> (isConnected && Truthy(address) && !AllWhitespace(name) &&
                                         !IsValidName(name))
    ensures r == Some(NameTaken) <==> (isConnected && Truthy(address) && IsValidName(name) &&
                                       IsNameTaken(existing, name))
    ensures r == Some(AvatarRequired) <==> (isConnected && Truthy(address) && IsValidName(name) &&
                                            !IsNameTaken(existing, name) && !avatarChosen)
  {
    TrimEmptyIff(name);
    ValidNameIsTrimmed(name);
    if !isConnected || !Truthy(address) then Some(NotConnected)
    else if Trim(name) == [] then Some(NameRequired)
    else if !IsValidName(name) then Some(InvalidName)
    else if IsNameTaken(existing, name) then Some(NameTaken)
    else if !avatarChosen then Some(AvatarRequired)
    else None
  }

  /** The status line under the name field. */
  datatype NameStatus = NoStatus | InvalidFormat | Taken | Available

  /** getNameStatus: nothing below a `length` of three UTF-16 code units; then
      an invalid format wins over a taken name, which wins over availability. */
  function GetNameStatus(name: string, existing: seq<RegisteredUser>): (r: NameStatus)
    ensures r == NoStatus <==> JsLength(name) < 3
    ensures r == InvalidFormat <==> JsLength(name) >= 3 && !IsValidName(name)
    ensures r == Taken <==> IsValidName(name) && IsNameTaken(existing, name)
    ensures r == Available <==> IsValidName(name) && !IsNameTaken(existing, name)
  {
    if name == [] || JsLength(name) < 3 then NoStatus
    else if !IsValidName(name) then InvalidFormat
    else if IsNameTaken(existing, name) then Taken
    else Available
  }

  /** "Name available" means no name check of a submit will refuse it. */
  lemma AvailableMeansNameAccepted(name: string, existing: seq<RegisteredUser>, address: string)
    requires GetNameStatus(name, existing) == Available
    requires address != ""
    ensures FirstRefusal(true, Some(address), name, existing, true) == None
  {
    TrimEmptyIff(name);
    ValidNameIsTrimmed(name);
  }

  /** Two emoji are four code units: long enough to be judged, and refused. */
  lemma EmojiNameStatus(existing: seq<RegisteredUser>)
    ensures GetNameStatus("\U{1F600}\U{1F600}", existing) == InvalidFormat
  {
    JsLengthTwoEmoji();
    assert !IsNameChar("\U{1F600}\U{1F600}"[0]);
  }

  /** The outcome of a submit. */
  datatype SubmitOutcome = Refused(reason: Refusal) | StorageFailed | Registered(user: RegisteredUser)

  class Registration {
    /** The "registeredUsers" slot the form appends to. */
    const directory: UserDirectory
    /** The `existingUsers` prop. */
    const existing: seq<RegisteredUser>
    var name: string
    var avatar: AvatarChoice
    var isRegistering: bool

    constructor (directory: UserDirectory, existing: seq<RegisteredUser>)
      ensures this.directory == directory && this.existing == existing
      ensures name == [] && avatar == NoAvatar && !isRegistering
    {
      this.directory := directory;
      this.existing := existing;
      name := [];
      avatar := NoAvatar;
      isRegistering := false;
    }

    /** The submit button's `disabled` expression. */
    predicate SubmitDisabled(isConnected: bool)
      reads this
    {
      isRegistering || Trim(name) == [] || !IsValidName(name) || IsNameTaken(existing, name) ||
      avatar.file.None? || !isConnected
    }

    /** handleAvatarChange, with the file reader's data URL as `preview`. */
    method AvatarChange(file: Option<FileInfo>, preview: string)
      modifies this
      ensures avatar == ChooseAvatar(old(avatar), file, preview)
      ensures name == old(name) && isRegistering == old(isRegistering)
    {
      avatar := ChooseAvatar(avatar, file, preview);
    }

    /** handleSubmit, with the wallet's `isConnected` and `address` as inputs.
        A refused submit changes nothing. Otherwise the record of the trimmed
        name, the preview and the address is appended to the slot; an
        unreadable slot makes the write fail. Either way the form ends idle. */
    method Submit(isConnected: bool, address: Option<string>) returns (outcome: SubmitOutcome)
      modifies this, directory
      ensures var refusal := FirstRefusal(isConnected, address, old(name), existing, old(avatar).file.Some?);
        if refusal.Some? then
          outcome == Refused(refusal.value) && directory.slot == old(directory.slot) &&
          isRegistering == old(isRegistering)
        else if old(directory.slot).Unparsable? then
          outcome == StorageFailed && directory.slot == old(directory.slot) && !isRegistering
        else
          outcome == Registered(RegisteredUser(old(name), old(avatar).preview, address.value)) &&
          directory.slot == Users(old(UsersOf(directory.slot)) + [outcome.user]) && !isRegistering
      ensures name == old(name) && avatar == old(avatar)
      ensures outcome.Registered? ==> IsNameTaken(existing + [outcome.user], old(name))
    {
      var refusal := FirstRefusal(isConnected, address, name, existing, avatar.file.Some?);
      if refusal.Some? {
        return Refused(refusal.value);
      }
      isRegistering := true;
      if directory.slot.Unparsable? {
        outcome := StorageFailed;
      } else {
        ValidNameIsTrimmed(name);
        var userData := RegisteredUser(Trim(name), avatar.preview, address.value);
        var registeredUsers := UsersOf(directory.slot);
        registeredUsers := registeredUsers + [userData];
        directory.slot := Users(registeredUsers);
        outcome := Registered(userData);
        AddedNameIsTaken(existing, userData, name);
      }
      isRegistering := false;
    }
  }

  /** An enabled button with an address in hand passes every guard. */
  lemma EnabledButtonPassesGuards(isRegistering: bool, name: string, existing: seq<RegisteredUser>,
                                  avatarChosen: bool, isConnected: bool, address: string)
    requires !(isRegistering || Trim(name) == [] || !IsValidName(name) || IsNameTaken(existing, name) ||
               !avatarChosen || !isConnected)
    requires address != ""
    ensures FirstRefusal(isConnected, Some(address), name, existing, avatarChosen) == None
  {
    TrimEmptyIff(name);
  }
}

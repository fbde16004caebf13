# Labi Chat — a verified model of the chat core

Labi Chat is a small wallet-based chat demo. A user connects a browser wallet
and registers a name and an avatar. They then exchange messages with the other
registered users. Messages live in one local-storage slot as a list of
two-party rooms. Registered users live in a second slot.

This project models in Dafny:

- the message store (`lib/chat-storage.ts`);
- the chat window and the message input;
- the registration, domain and profile forms;
- the user loading and view gating of the home and chat pages;
- the two user-list components;
- the listener registry and wallet-state derivation of the wallet service
  (`lib/web3-simple.ts`).

It then proves properties of that model.

Each source file is one module:

| module | file | form |
|---|---|---|
| `ChatStorage` | `chat_storage.dfy` | the slot is a field of class `ChatStore`; `AddMessage` and `ClearAllChats` are methods; the reads are functions over the slot |
| `ChatWindow` | `chat_window.dfy` | class `ChatWindow` holds the message list; the send method writes through the store; the avatar-grouping rule is a set of functions and lemmas |
| `ChatInput` | `chat_input.dfy` | class `ChatInput` holds the draft |
| `UserRegistration` | `user_registration.dfy` | class `Registration` holds the form state and appends to the `UserDirectory` slot; the name rules are predicates |
| `DomainRegistration` | `domain_registration.dfy` | class `DomainForm` holds the typed and debounced names; the validator, sanitiser and guards are functions |
| `ProfileSetup` | `profile_setup.dfy` | class `ProfileForm`; the submit returns the list of outside calls it made |
| `RegisteredUsers` | `registered_users.dfy` | the user record and its slot (class `UserDirectory`), demo-user seeding and the load effect both pages share |
| `HomePage`, `ChatPage` | `home_page.dfy`, `chat_page.dfy` | classes holding the page state; partner filter and views as functions |
| `RegisteredUsersList`, `UserList` | `registered_users_list.dfy`, `user_list.dfy` | pure functions |
| `Web3Simple` | `web3_simple.dfy` | class `SimpleWeb3Service` with the listener list; `parseInt(s, 16)` and the state derivation as functions |

Shared pieces are in `common.dfy` (`Option`, and JavaScript's `trim`, ASCII
`toLowerCase`, `startsWith`, `endsWith`, `slice`, and `length` counted in UTF-16
code units) and in `avatar_file.dfy`
(the avatar rule both forms use).

Inputs that the source takes from the environment become parameters:

- `Date.now()` and the random message id;
- the file reader's data URL;
- the wallet's accounts and chain id;
- the upload hashes;
- the contract hooks' flags.

The local-storage text is abstracted to what the code can make of it: nothing
stored, text that does not parse, or the parsed list.

## Model

| member | source | states |
|---|---|---|
| ChatStorage.ChatRoomsOf | lib/chat-storage.ts:29 | the rooms returned are exactly the stored rooms whose participants include the user, and there are no more of them than stored rooms |
| ChatStorage.ChatRoomsOfAppend | lib/chat-storage.ts:29 | the filter keeps storage order: filtering a concatenation concatenates the filtered parts |
| ChatStorage.FindRoom | lib/chat-storage.ts:60-64 | the index found is the first room of the unordered pair; there is none exactly when no room matches either order |
| ChatStorage.FindRoomSymmetric | lib/chat-storage.ts:60-64 | swapping the two users finds the same room |
| ChatStorage.RoomForOfFiltered | lib/chat-storage.ts:36-43 | narrowing to the first user's rooms before the search finds the same room as searching all rooms |
| ChatStorage.GetMessagesIsPairMessages | lib/chat-storage.ts:36-44 | getMessages returns the messages of the first stored room of the pair, or none |
| ChatStorage.GetMessagesSymmetric | lib/chat-storage.ts:36-44 | getMessages(a, b) == getMessages(b, a) |
| ChatStorage.WithMessageLength | lib/chat-storage.ts:66-78 | the room list grows by exactly one room when the pair had none, and otherwise keeps its length |
| ChatStorage.WithMessageAppendOnly | lib/chat-storage.ts:66-78 | no room disappears or changes participants, and every room's old messages are a prefix of its new ones |
| ChatStorage.WithMessageAppends | lib/chat-storage.ts:47-81 | after addMessage(m) the pair's messages are the previous ones followed by m |
| ChatStorage.WithMessageOtherPairs | lib/chat-storage.ts:60-78 | the messages of every other unordered pair are unchanged |
| ChatStorage.WithMessageActivity | lib/chat-storage.ts:66-77 | some room of the pair has lastActivity equal to the new timestamp, and every other room is unchanged; a pair without a room gets, at the end, a new room holding just the message, stamped with its timestamp |
| ChatStorage.WithMessageWellFormed | lib/chat-storage.ts:60-78 | one room per unordered pair, and lastActivity equal to the last message's timestamp, are preserved |
| ChatStorage.Summary | lib/chat-storage.ts:91-101 | an entry has unreadCount 0, the room's final message as lastMessage (absent only for an empty room), and a participant other than the user as otherUser (absent only for a self-chat) |
| ChatStorage.Summaries | lib/chat-storage.ts:90-102 | one summary per room, in room order |
| ChatStorage.InsertByRecency | lib/chat-storage.ts:103 | inserting adds exactly that entry and nothing else |
| ChatStorage.InsertByRecencySorted | lib/chat-storage.ts:103 | inserting into a most-recent-first list keeps it most recent first |
| ChatStorage.SortByRecency | lib/chat-storage.ts:103 | the sort output is non-increasing by lastMessage.timestamp and a permutation of its input |
| ChatStorage.InsertByRecencyStable | lib/chat-storage.ts:103 | the inserted entry goes before every entry of equal timestamp |
| ChatStorage.SortByRecencyStable | lib/chat-storage.ts:103 | the sort is stable: entries with equal timestamps keep their order |
| ChatStorage.RecentChatsSpec | lib/chat-storage.ts:84-104 | on a well-formed store, getRecentChats has one entry per room of the user, most recent first; each entry has unreadCount 0 and carries that room's final message |
| ChatStorage.ChatStore.AddMessage | lib/chat-storage.ts:47-81 | the slot becomes the updated room list; the pair's messages gain m at the end; other pairs are unchanged; it only appends; at most one room is added; well-formedness is kept |
| ChatStorage.ChatStore.ClearAllChats | lib/chat-storage.ts:107-109 | the slot is removed, and afterwards every getChatRooms, getMessages and getRecentChats is empty |
| ChatStorage.UnreadableSlotReadsEmpty | lib/chat-storage.ts:24-57 | a missing or unparsable slot reads as empty for every query, and addMessage then starts from no rooms |
| ChatStorage.ConversationScenario | lib/chat-storage.ts:47-104 | a message from A to B and an answer from B give one room holding both; A's recent chats are B's answer |
| ChatWindow.ChatWindow.LoadMessages | components/chat-window.tsx:30-35 | with a current address the list becomes the stored conversation of the two users; without one it is unchanged |
| ChatWindow.ChatWindow.SendMessage | components/chat-window.tsx:47-66 | without a current address nothing is stored and the list is unchanged. Otherwise the store receives the message from the current user to the partner with the given content, the list gains it at the end, and a list that matched the store still matches it |
| ChatWindow.SenderRuns | components/chat-window.tsx:117-121 | grouping messages into runs by sender gives no runs exactly for no messages, and every run is non-empty |
| ChatWindow.SenderRunsFlatten | components/chat-window.tsx:117-121 | the runs put together give the message list back |
| ChatWindow.SenderRunsUniform | components/chat-window.tsx:119 | every run has a single sender |
| ChatWindow.SenderRunsAlternate | components/chat-window.tsx:119 | neighbouring runs have different senders, so runs are maximal |
| ChatWindow.AvatarCountIsRunCount | components/chat-window.tsx:119 | the showAvatar rule (index 0, or a sender different from the previous message's) fires exactly once per run |
| ChatInput.Outgoing | components/chat-input.tsx:21-22 | a submit sends nothing exactly when the box is disabled or the draft is blank; otherwise it sends the trimmed, non-empty draft |
| ChatInput.SendDisabledIffRefused | components/chat-input.tsx:45 | the send button is disabled exactly when a submit would send nothing |
| ChatInput.OutgoingIsTrimmed | components/chat-input.tsx:22 | the sent text has no surrounding whitespace, and an already-trimmed draft is sent as typed |
| ChatInput.ChatInput.Edit | components/chat-input.tsx:38 | typing replaces the draft |
| ChatInput.ChatInput.Submit | components/chat-input.tsx:19-25 | it sends what Outgoing says; after a send the draft is empty, otherwise unchanged |
| ChatInput.ChatInput.KeyDown | components/chat-input.tsx:27-32 | Enter without Shift submits; any other key, Shift+Enter included, sends nothing and leaves the draft |
| AvatarFile.CheckAvatar | components/user-registration.tsx:51-60 | a file is refused as not an image exactly when its type does not start with "image/". An image is refused as too large exactly when it has more than 5 MiB. Everything else is accepted |
| AvatarFile.AvatarBoundary | components/user-registration.tsx:57 | an image of exactly 5242880 bytes is accepted, one byte more is refused, and a non-image type is refused |
| AvatarFile.ChooseAvatar | components/user-registration.tsx:47-71 | a file that passes both checks becomes the choice, with its preview; no file, or a file failing either check, leaves the choice exactly as it was |
| AvatarFile.ChooseAvatarKeepsChecked | components/profile-setup.tsx:57-81 | a form never holds a file that failed a check, and a refused file leaves the earlier choice |
| UserRegistration.ValidNameCodeUnits | components/user-registration.tsx:43-45 | bounding the characters decides the same names as the source's bound on `length` in UTF-16 code units, since every allowed character is ASCII |
| UserRegistration.EmojiNameStatus | components/user-registration.tsx:125-128 | two emoji are four code units, so the name is judged, and its format is reported invalid |
| UserRegistration.ValidNameExamples | components/user-registration.tsx:43-45 | 2 characters are refused and 3 accepted; 20 are accepted and 21 refused; a space or a dot is refused; letters, digits, "_" and "-" are accepted |
| UserRegistration.ValidNameIsTrimmed | components/user-registration.tsx:43-45 | a valid name has no whitespace, so trimming leaves it as typed |
| UserRegistration.NameTakenIgnoresCase | components/user-registration.tsx:38-40 | whether a name is taken does not depend on its case |
| UserRegistration.AddedNameIsTaken | components/user-registration.tsx:38-40 | once a user is in the list, their name in any case is taken |
| UserRegistration.FirstRefusal | components/user-registration.tsx:76-99 | the guards apply in the order wallet, blank name, format, taken, avatar; each refusal holds exactly when all earlier checks pass and its own fails; none holds exactly when all pass |
| UserRegistration.GetNameStatus | components/user-registration.tsx:125-152 | names under 3 UTF-16 code units (JavaScript's `length`) show nothing; then an invalid format is reported before a taken name, and a taken name before availability |
| UserRegistration.AvailableMeansNameAccepted | components/user-registration.tsx:125-152 | "Name available" means no name guard of a submit (with a connected address and an avatar) refuses |
| UserRegistration.Registration.AvatarChange | components/user-registration.tsx:47-71 | the avatar choice follows ChooseAvatar; name and busy flag are untouched |
| UserRegistration.Registration.Submit | components/user-registration.tsx:73-123 | a refused submit changes nothing. Otherwise a record of the trimmed name, the preview and the address is appended to the stored list, all earlier entries untouched, and the name is then taken. An unreadable slot makes the submit fail with nothing written. The form ends idle |
| UserRegistration.EnabledButtonPassesGuards | components/user-registration.tsx:211-213 | with an enabled submit button and a non-empty address, no guard refuses |
| DomainRegistration.KeepSanitised | components/domain-registration.tsx:124 | the kept characters are all in [a-z0-9-], and there are no more of them than the input's (that each such character is kept, in order, is KeepSanitisedChar with KeepSanitisedAppend) |
| DomainRegistration.KeepSanitisedChar | components/domain-registration.tsx:124 | one character is kept exactly when it is in [a-z0-9-] |
| DomainRegistration.KeepSanitisedWhole | components/domain-registration.tsx:124 | an input made only of characters in [a-z0-9-] is kept whole |
| DomainRegistration.KeepSanitisedAppend | components/domain-registration.tsx:124 | the filter works character by character: filtering a concatenation concatenates the filtered parts |
| DomainRegistration.Sanitise | components/domain-registration.tsx:124 | the sanitised input holds only [a-z0-9-] and is no longer than the raw input (that every lower-cased character in the class survives, in order, is SanitiseChar with SanitiseAppend) |
| DomainRegistration.SanitiseChar | components/domain-registration.tsx:124 | one character becomes its lower-case form if that is in [a-z0-9-], and disappears otherwise |
| DomainRegistration.SanitiseAppend | components/domain-registration.tsx:124 | sanitising a concatenation concatenates the sanitised parts, so the surviving characters keep the input's order |
| DomainRegistration.SanitiseIdempotent | components/domain-registration.tsx:124 | sanitising twice is sanitising once |
| DomainRegistration.SanitiseExample | components/domain-registration.tsx:124 | "My-Name!" becomes "my-name" |
| DomainRegistration.SanitisedValidIff | components/domain-registration.tsx:34-36 | a sanitised name is valid exactly when it has 3 to 20 characters and neither starts nor ends with "-" |
| DomainRegistration.HandleRegister | components/domain-registration.tsx:38-55 | an empty or invalid name, or a missing or zero fee, is refused first. Then a name not known to be available is refused. Otherwise registerDomain(name, fee) is called |
| DomainRegistration.GetAvailabilityStatus | components/domain-registration.tsx:73-102 | nothing for an empty or invalid debounced name; otherwise checking while the check runs, then available exactly when the answer is true |
| DomainRegistration.EnabledButtonRegisters | components/domain-registration.tsx:151-160 | a click on an enabled button registers the typed name when there is a fee, and is refused as invalid input when there is not |
| DomainRegistration.RefusedNameDisablesButton | components/domain-registration.tsx:151-160 | with a fee, any name handleRegister would refuse disables the button |
| DomainRegistration.DomainForm.Change | components/domain-registration.tsx:124 | the typed name becomes the sanitised input |
| DomainRegistration.DomainForm.DebounceElapsed | components/domain-registration.tsx:21-27 | when the timer fires, the debounced name catches up with the typed name |
| DomainRegistration.DomainForm.Confirmation | components/domain-registration.tsx:58-64 | a confirmed registration resets the input to "" |
| ProfileSetup.CheckDisplayName | components/profile-setup.tsx:86-94 | a blank display name is refused first; then an untrimmed name longer than 50 UTF-16 code units (JavaScript's `length`) is refused; otherwise the name passes |
| ProfileSetup.SubmitDisabledCases | components/profile-setup.tsx:218 | the submit button is disabled for a blank name and while uploading |
| ProfileSetup.ProfileForm.AvatarChange | components/profile-setup.tsx:57-81 | the avatar choice follows the same rule as in registration |
| ProfileSetup.ProfileForm.Submit | components/profile-setup.tsx:83-128 | a refused name makes no call and leaves the busy flag. Otherwise the calls are those of SubmitCalls on the trimmed name and bio, and the busy flag ends false. The outcome is success exactly when both uploads and setProfile succeed |
| ProfileSetup.SubmitCallsSpec | components/profile-setup.tsx:99-121 | the avatar is uploaded first when a file is chosen. The profile record carries the name, the bio, the avatar hash ("" without a file) and the submit time. setProfile comes last, with the profile hash and the name, exactly when both uploads succeed |
| ProfileSetup.SubmittedFieldsTrimmed | components/profile-setup.tsx:108-121 | the name and bio sent out have no surrounding whitespace, and the name is not empty |
| RegisteredUsers.SeedDemoUserSpec | app/page.tsx:30-39 | existing users keep their order. Without a user named exactly "Alice", the demo record is appended last; with one, the list is unchanged |
| RegisteredUsers.SeedDemoUserIdempotent | app/page.tsx:27-39 | seeding twice gives the same list as seeding once |
| RegisteredUsers.FindByAddress | app/page.tsx:44-47 | the user found is in the list and has the connected address; nobody is found exactly when no user has it |
| RegisteredUsers.FindByAddressFirst | app/page.tsx:45 | the lookup returns the first user with the address |
| RegisteredUsers.UserDirectory.LoadSeeded | app/page.tsx:27-39 | an unparsable slot gives nothing and stays. Otherwise the seeded list is returned, and the slot is written exactly when the demo record was added |
| RegisteredUsers.LoadSeededTwice | app/page.tsx:26-48 | running the load twice returns the same list as once, and the slot then holds exactly that list |
| RegisteredUsers.LoadEffect | app/chat/page.tsx:26-47 | the effect seeds the list. When an address is connected, the current user becomes the first record of that address, or nobody. Without an address the current user stays |
| HomePage.View | app/page.tsx:79-199 | not connected shows the landing page; connected without a record shows the registration form; otherwise the registered home |
| HomePage.HomePage.Load | app/page.tsx:26-48 | the page list becomes the seeded stored list, and the current user is looked up by address when one is connected |
| HomePage.HomePage.RegistrationComplete | app/page.tsx:50-53 | the new record is appended to the list and becomes current |
| ChatPage.Partners | app/chat/page.tsx:152-153 | the partner list is no longer than the user list |
| ChatPage.PartnersSpec | app/chat/page.tsx:152-153 | the partners are exactly the users with another address; there are none exactly when every user has the connected address |
| ChatPage.PartnersAppend | app/chat/page.tsx:152-153 | the partner filter keeps list order |
| ChatPage.CurrentUserNotAPartner | app/chat/page.tsx:152-153 | the current user never appears among their partners |
| ChatPage.View | app/chat/page.tsx:57-181 | not connected shows the connect prompt; no record shows the register prompt. A selected partner shows the chat window; otherwise the partner picker, whose "no other users" line shows exactly when there are no partners |
| ChatPage.ChatPage.Load | app/chat/page.tsx:26-47 | loading is the same as on the home page, and the selection is untouched |
| ChatPage.ChatPage.UserSelect | app/chat/page.tsx:49-51 | the selected user is set, and a registered user then sees the chat with them |
| ChatPage.ChatPage.BackToList | app/chat/page.tsx:53-55 | the selection is cleared, and the picker is shown again |
| RegisteredUsersList.AvatarSrc | components/registered-users-list.tsx:50 | no avatar gives the placeholder; a data URL is used as it is; anything else goes behind the IPFS gateway |
| RegisteredUsersList.AvatarSrcRecoverable | components/registered-users-list.tsx:50 | the source is never empty; cutting the gateway prefix off a gateway URL gives the hash back |
| RegisteredUsersList.ShortAddressShape | components/registered-users-list.tsx:65 | for addresses of 10 or more characters, the short form is 13 characters: the first 6, "...", the last 4 |
| RegisteredUsersList.ShortDemoAddress | components/registered-users-list.tsx:65 | the demo address is shown as "0x1234...7890" |
| RegisteredUsersList.Render | components/registered-users-list.tsx:20-70 | the empty state shows exactly for no users. Otherwise the header count is the number of users, with one entry per user in input order |
| RegisteredUsersList.YouBadgeMarksOwnRows | components/registered-users-list.tsx:58 | the "You" badge marks exactly the rows of the connected address |
| UserList.DomainAt | components/user-list.tsx:37 | a domain is never empty: it is the domain at that index when present and non-empty, else "unknown" |
| UserList.Pair | components/user-list.tsx:35-38 | one member per profile address, with entry i holding address i and the domain at i |
| UserList.Rebuild | components/user-list.tsx:23-42 | the list is rebuilt only when both domains and profiles are present; otherwise it is kept |
| UserList.PairDomains | components/user-list.tsx:35-38 | every member shows a domain. With enough non-empty domains they pair up in order; with none, every domain is "unknown" |
| UserList.Render | components/user-list.tsx:44-92 | loading is shown first; then the empty state exactly for an empty list; otherwise the rows |
| Web3Simple.HexPrefixLength | lib/web3-simple.ts:35 | parsing reads the longest run of hexadecimal digits |
| Web3Simple.ToHexDigits | lib/web3-simple.ts:35 | the hexadecimal spelling of a number is non-empty and made of hex digits |
| Web3Simple.HexValueOfDigits | lib/web3-simple.ts:35 | the value of a number's hexadecimal spelling is that number |
| Web3Simple.ParseInt16RoundTrip | lib/web3-simple.ts:35 | parseInt(s, 16) reads back "0x" followed by the digits of n as n, and "-0x" followed by them as -n |
| Web3Simple.SepoliaChainId | lib/web3-simple.ts:92 | "0xaa36a7" reads as 11155111 |
| Web3Simple.ParseInt16NaN | lib/web3-simple.ts:35 | "", "0x" and "zz" read as NaN |
| Web3Simple.ParseInt16SkipsWhitespace | lib/web3-simple.ts:35 | leading white space does not change the reading |
| Web3Simple.DeriveState | lib/web3-simple.ts:32-36 | connected exactly when there is an account; the address is the first account, or null when there is none (or it is empty); the chain id is parseInt of the hex string |
| Web3Simple.GetWalletState | lib/web3-simple.ts:46-69 | no provider, or a failed request, gives the disconnected state; otherwise the state derived from the answers |
| Web3Simple.IndexOf | lib/web3-simple.ts:124 | the first position of the callback, or -1 exactly when it is absent |
| Web3Simple.RemoveFirstSpec | lib/web3-simple.ts:123-128 | unsubscribing takes out one copy of the callback and nothing else, and is a no-op when it is absent |
| Web3Simple.SubscribeThenUnsubscribe | lib/web3-simple.ts:119-128 | subscribing a new callback and then unsubscribing it gives the list back |
| Web3Simple.UnsubscribeTwice | lib/web3-simple.ts:123-128 | with one copy subscribed, a second unsubscribe changes nothing |
| Web3Simple.SimpleWeb3Service.OnStateChange | lib/web3-simple.ts:119-120 | the callback is appended to the listeners |
| Web3Simple.SimpleWeb3Service.Unsubscribe | lib/web3-simple.ts:123-128 | the first copy of the callback is removed; the listener multiset loses exactly one copy |
| Web3Simple.SimpleWeb3Service.NotifyListeners | lib/web3-simple.ts:131-133 | every listener is called once, in registration order, with the same state |
| Web3Simple.SimpleWeb3Service.DisconnectWallet | lib/web3-simple.ts:71-82 | the result is the disconnected state, announced to every listener in order |
| Web3Simple.SimpleWeb3Service.ConnectWallet | lib/web3-simple.ts:18-44 | no provider is the "not installed" error, and a failed request is rethrown; neither notifies anyone. Otherwise the derived state is announced to every listener and returned |
| JsStrings.TrimEmptyIff | components/chat-input.tsx:21 | the trimmed text is empty exactly when the text is all whitespace, which is JavaScript's blank test |
| JsStrings.JsLength | components/profile-setup.tsx:91 | JavaScript's `length` is between the number of characters and twice it |
| JsStrings.JsLengthIsLength | components/profile-setup.tsx:91 | `length` equals the number of characters exactly when no character lies beyond the Basic Multilingual Plane |
| JsStrings.JsLengthTwoEmoji | components/user-registration.tsx:126 | a string of two emoji has length 4 in JavaScript |
| JsStrings.ToLowerAppend | components/domain-registration.tsx:124 | lower-casing a concatenation concatenates the lower-cased parts |
| JsStrings.TrimIdempotent | components/chat-input.tsx:22 | a trimmed text neither starts nor ends with whitespace, and trimming it again changes nothing |

## Left out

- JSON and the `localStorage` API: each slot is modelled by what parsing yields. For the chat slot, JSON that parses but is not a list of rooms is not modelled; `addMessage` would throw there.
- Cross-tab races on the shared slots, and React's batching of state updates: each handler is one atomic step.
- `toLowerCase` is modelled on ASCII letters only. Unicode case mapping, for example the Kelvin sign, is not modelled in the name-taken test or the domain sanitiser.
- The browser's `maxLength` limits on the inputs (20, 50, 200 characters): these are not in the code the handlers run.
- The file reader: the data URL it produces later is passed to `AvatarChange` and applied at once.
- ProfileSetup.ProfileForm.Submit: the busy flag is true while the awaited calls run. The model is one step, so it states only the final `false`, and the unchanged flag on refusal.
- The profile form's load effect from IPFS (`components/profile-setup.tsx:34-55`) and the success and error toasts: I/O and display only.
- All IPFS and Pinata uploads, the mocked contract reads and writes, and the wagmi hooks: their answers are parameters.
- MetaMask chain switching and event wiring (`lib/web3-simple.ts:84-117`, `136-154`): network and event I/O. The derivation they use is `DeriveState`.
- DomainRegistration.KeepSanitised: its own ensures gives only the character class and the length bound. The full behaviour, every character of the class kept in order and every other dropped, is stated by the lemmas KeepSanitisedChar and KeepSanitisedAppend.
- DomainRegistration.Sanitise: as for KeepSanitised, the order-preserving behaviour is stated by the lemmas SanitiseChar and SanitiseAppend, not by its own ensures.
- `slice` counts characters in the model, while JavaScript counts UTF-16 code units. The shortened addresses are therefore exact only for addresses inside the Basic Multilingual Plane, which hex addresses are.
- Web3Simple.ParseInt16: a large hex number is read exactly, not rounded to a double, and `-0` reads as `0`.
- Web3Simple.SimpleWeb3Service.NotifyListeners: callbacks are identities. What a callback does, including unsubscribing during the notification, is not modelled.
- Toasts, icons, layout, scrolling and relative time formatting: display only.
- `lib/web3-hooks.ts`, `lib/web3-config.ts`, `lib/ipfs.ts` and the rendering-only components (chat list, chat message, domain status, profile display, wallet button): these are not part of this model.

/** The local chat store: two-party rooms of messages kept in one local-storage
    slot ("labi-chat-messages"). The slot's text is abstracted to what the store
    can make of it: nothing there, text that does not parse, or a list of rooms. */
module ChatStorage {
  import opened Wrappers

  type Address = string

  datatype Message = Message(
    id: string,
    from: Address,
    to: Address,
    content: string,
    timestamp: int,
    signature: Option<string>)

  datatype ChatRoom = ChatRoom(
    participants: (Address, Address),
    messages: seq<Message>,
    lastActivity: int)

  /** What `localStorage.getItem` followed by `JSON.parse` yields: no item (or
      the empty string, which is falsy), text that `JSON.parse` rejects, or the
      stored list of rooms. */
  datatype Slot = Missing | Corrupt | Stored(rooms: seq<ChatRoom>)

  /** The rooms a read starts from: an unreadable or absent slot reads as none. */
  function Load(slot: Slot): seq<ChatRoom> {
    if slot.Stored? then slot.rooms else []
  }

  /** `room.participants.includes(u)`. */
  predicate Includes(room: ChatRoom, u: Address) {
    room.participants.0 == u || room.participants.1 == u
  }

  /** The room belongs to the unordered pair {a, b}, in either order. */
  predicate PairMatches(room: ChatRoom, a: Address, b: Address) {
    (room.participants.0 == a && room.participants.1 == b) ||
    (room.participants.0 == b && room.participants.1 == a)
  }

  /** `allRooms.filter((room) => room.participants.includes(u))`. */
  function ChatRoomsOf(rooms: seq<ChatRoom>, u: Address): (r: seq<ChatRoom>)
    ensures |r| <= |rooms|
    ensures forall x :: x in r <==> x in rooms && Includes(x, u)
    ensures forall i :: 0 <= i < |r| ==> Includes(r[i], u)
  {
    if rooms == [] then []
    else
      var rest := ChatRoomsOf(rooms[1..], u);
      if Includes(rooms[0], u) then [rooms[0]] + rest else rest
  }

  /** The filter keeps storage order: it distributes over concatenation. */
  lemma {:induction false} ChatRoomsOfAppend(a: seq<ChatRoom>, b: seq<ChatRoom>, u: Address)
    ensures ChatRoomsOf(a + b, u) == ChatRoomsOf(a, u) + ChatRoomsOf(b, u)
  {
    if a == [] {
      assert a + b == b;
    } else {
      assert (a + b)[1..] == a[1..] + b;
      ChatRoomsOfAppend(a[1..], b, u);
    }
  }

  /** `findIndex` of the first room of the unordered pair {a, b}; `None` is -1. */
  function FindRoom(rooms: seq<ChatRoom>, a: Address, b: Address): (r: Option<nat>)
    ensures r.Some? ==> r.value < |rooms| && PairMatches(rooms[r.value], a, b)
    ensures r.Some? ==> forall j :: 0 <= j < r.value ==> !PairMatches(rooms[j], a, b)
    ensures r.None? <==> forall j :: 0 <= j < |rooms| ==> !PairMatches(rooms[j], a, b)
  {
    if rooms == [] then None
    else if PairMatches(rooms[0], a, b) then Some(0)
    else match FindRoom(rooms[1..], a, b)
      case None => None
      case Some(i) => Some(i + 1)
  }

  /** `find` of the first room of the pair, as a value. */
  function RoomFor(rooms: seq<ChatRoom>, a: Address, b: Address): Option<ChatRoom> {
    match FindRoom(rooms, a, b)
    case None => None
    case Some(i) => Some(rooms[i])
  }

  /** `room?.messages || []`. */
  function MessagesOf(room: Option<ChatRoom>): seq<Message> {
    if room.Some? then room.value.messages else []
  }

  /** The messages of the first stored room of the pair {a, b}. */
  function PairMessages(rooms: seq<ChatRoom>, a: Address, b: Address): seq<Message> {
    MessagesOf(RoomFor(rooms, a, b))
  }

  /** getMessages: the rooms of `user1`, then the first of them that belongs to
      the pair. */
  function GetMessages(rooms: seq<ChatRoom>, user1: Address, user2: Address): seq<Message> {
    MessagesOf(RoomFor(ChatRoomsOf(rooms, user1), user1, user2))
  }

  /** Both participant orders denote the same room. */
  lemma {:induction false} FindRoomSymmetric(rooms: seq<ChatRoom>, a: Address, b: Address)
    ensures FindRoom(rooms, a, b) == FindRoom(rooms, b, a)
  {
    if rooms != [] {
      FindRoomSymmetric(rooms[1..], a, b);
    }
  }

  /** The search looks at the first room before the rest. */
  lemma RoomForCons(x: ChatRoom, rest: seq<ChatRoom>, a: Address, b: Address)
    ensures RoomFor([x] + rest, a, b) == if PairMatches(x, a, b) then Some(x) else RoomFor(rest, a, b)
  {
    assert ([x] + rest)[1..] == rest;
  }

  /** Narrowing to the rooms of `user1` first does not change which room of the
      pair is found, because every room of the pair includes `user1`. */
  lemma {:induction false} RoomForOfFiltered(rooms: seq<ChatRoom>, user1: Address, user2: Address)
    ensures RoomFor(ChatRoomsOf(rooms, user1), user1, user2) == RoomFor(rooms, user1, user2)
  {
    if rooms != [] {
      var rest := rooms[1..];
      var tail := ChatRoomsOf(rest, user1);
      assert rooms == [rooms[0]] + rest;
      RoomForCons(rooms[0], rest, user1, user2);
      RoomForOfFiltered(rest, user1, user2);
      if Includes(rooms[0], user1) {
        assert ChatRoomsOf(rooms, user1) == [rooms[0]] + tail;
        RoomForCons(rooms[0], tail, user1, user2);
      } else {
        assert ChatRoomsOf(rooms, user1) == tail;
      }
    }
  }

  /** getMessages reads exactly the first stored room of the unordered pair. */
  lemma GetMessagesIsPairMessages(rooms: seq<ChatRoom>, user1: Address, user2: Address)
    ensures GetMessages(rooms, user1, user2) == PairMessages(rooms, user1, user2)
  {
    RoomForOfFiltered(rooms, user1, user2);
  }

  /** getMessages(a, b) == getMessages(b, a). */
  lemma GetMessagesSymmetric(rooms: seq<ChatRoom>, a: Address, b: Address)
    ensures GetMessages(rooms, a, b) == GetMessages(rooms, b, a)
  {
    GetMessagesIsPairMessages(rooms, a, b);
    GetMessagesIsPairMessages(rooms, b, a);
    FindRoomSymmetric(rooms, a, b);
  }

  // ---------------------------------------------------------------------------
  // addMessage

  /** The room addMessage creates on first contact: participants in the order
      [from, to], the message alone, its timestamp as the last activity. */
  function NewRoom(m: Message): ChatRoom {
    ChatRoom((m.from, m.to), [m], m.timestamp)
  }

  /** The room list addMessage writes back, given the list it read. */
  function WithMessage(rooms: seq<ChatRoom>, m: Message): seq<ChatRoom> {
    match FindRoom(rooms, m.from, m.to)
    case Some(i) =>
      rooms[i := rooms[i].(messages := rooms[i].messages + [m], lastActivity := m.timestamp)]
    case None => rooms + [NewRoom(m)]
  }

  /** Two rooms belong to the same unordered pair. */
  predicate SamePair(x: ChatRoom, y: ChatRoom) {
    PairMatches(x, y.participants.0, y.participants.1)
  }

  /** At most one room per unordered pair. */
  ghost predicate UniquePairs(rooms: seq<ChatRoom>) {
    forall i, j :: 0 <= i < j < |rooms| ==> !SamePair(rooms[i], rooms[j])
  }

  /** Every room has a message, and its lastActivity is the last one's timestamp. */
  ghost predicate ActivityConsistent(rooms: seq<ChatRoom>) {
    forall i :: 0 <= i < |rooms| ==>
      |rooms[i].messages| > 0 &&
      rooms[i].lastActivity == rooms[i].messages[|rooms[i].messages| - 1].timestamp
  }

  /** The invariants every room list this store writes keeps. */
  ghost predicate WellFormed(rooms: seq<ChatRoom>) {
    UniquePairs(rooms) && ActivityConsistent(rooms)
  }

  /** `after` only extends `before`: no room disappears or changes its pair, and
      every room's messages are a prefix of what they become. */
  ghost predicate AppendOnly(before: seq<ChatRoom>, after: seq<ChatRoom>) {
    |before| <= |after| &&
    forall i :: 0 <= i < |before| ==>
      after[i].participants == before[i].participants &&
      before[i].messages <= after[i].messages
  }

  /** Two lists with the same pairs at the same positions find the same room. */
  lemma {:induction false} FindRoomSamePairs(xs: seq<ChatRoom>, ys: seq<ChatRoom>, a: Address, b: Address)
    requires |xs| == |ys|
    requires forall i :: 0 <= i < |xs| ==> xs[i].participants == ys[i].participants
    ensures FindRoom(xs, a, b) == FindRoom(ys, a, b)
  {
    if xs != [] {
      FindRoomSamePairs(xs[1..], ys[1..], a, b);
    }
  }

  /** Appending a room that is not of the pair leaves the search unchanged;
      appending one of the pair to a list without one finds it at the end. */
  lemma {:induction false} FindRoomAppend(rooms: seq<ChatRoom>, x: ChatRoom, a: Address, b: Address)
    ensures FindRoom(rooms + [x], a, b) ==
      if FindRoom(rooms, a, b).Some? then FindRoom(rooms, a, b)
      else if PairMatches(x, a, b) then Some(|rooms|) else None
  {
    if rooms != [] {
      assert (rooms + [x])[1..] == rooms[1..] + [x];
      FindRoomAppend(rooms[1..], x, a, b);
    }
  }

  /** The room list grows by one room exactly when the pair had none. */
  lemma WithMessageLength(rooms: seq<ChatRoom>, m: Message)
    ensures |WithMessage(rooms, m)| == |rooms| + (if FindRoom(rooms, m.from, m.to).None? then 1 else 0)
  {
  }

  /** addMessage only appends: existing rooms keep their pair and messages. */
  lemma WithMessageAppendOnly(rooms: seq<ChatRoom>, m: Message)
    ensures AppendOnly(rooms, WithMessage(rooms, m))
  {
  }

  /** After addMessage(m), the pair's messages are the previous ones followed by m. */
  lemma WithMessageAppends(rooms: seq<ChatRoom>, m: Message)
    ensures PairMessages(WithMessage(rooms, m), m.from, m.to) == PairMessages(rooms, m.from, m.to) + [m]
  {
    var after := WithMessage(rooms, m);
    match FindRoom(rooms, m.from, m.to)
    case Some(i) =>
      FindRoomSamePairs(rooms, after, m.from, m.to);
    case None =>
      FindRoomAppend(rooms, NewRoom(m), m.from, m.to);
  }

  /** addMessage leaves the messages of every other unordered pair unchanged, so
      two unrelated pairs never merge into one room. */
  lemma WithMessageOtherPairs(rooms: seq<ChatRoom>, m: Message, a: Address, b: Address)
    requires !PairMatches(NewRoom(m), a, b)
    ensures PairMessages(WithMessage(rooms, m), a, b) == PairMessages(rooms, a, b)
  {
    var after := WithMessage(rooms, m);
    match FindRoom(rooms, m.from, m.to)
    case Some(i) =>
      FindRoomSamePairs(rooms, after, a, b);
      if FindRoom(rooms, a, b).Some? {
        assert FindRoom(rooms, a, b).value != i;
      }
    case None =>
      FindRoomAppend(rooms, NewRoom(m), a, b);
  }

  /** The updated room's lastActivity is the new message's timestamp, and every
      other room is unchanged. */
  lemma WithMessageActivity(rooms: seq<ChatRoom>, m: Message)
    ensures var after := WithMessage(rooms, m);
      exists k :: 0 <= k < |after| && PairMatches(after[k], m.from, m.to) &&
        after[k].lastActivity == m.timestamp &&
        (forall j :: 0 <= j < |after| && j != k ==> j < |rooms| && after[j] == rooms[j])
    ensures FindRoom(rooms, m.from, m.to).None? ==> WithMessage(rooms, m)[|rooms|] == NewRoom(m)
  {
    var after := WithMessage(rooms, m);
    match FindRoom(rooms, m.from, m.to)
    case Some(i) =>
      assert PairMatches(after[i], m.from, m.to);
    case None =>
      assert PairMatches(after[|rooms|], m.from, m.to);
  }

  /** addMessage keeps one room per pair and lastActivity in step with messages. */
  lemma WithMessageWellFormed(rooms: seq<ChatRoom>, m: Message)
    requires WellFormed(rooms)
    ensures WellFormed(WithMessage(rooms, m))
  {
    match FindRoom(rooms, m.from, m.to)
    case Some(i) => UpdatedRoomWellFormed(rooms, m, i);
    case None => AddedRoomWellFormed(rooms, m);
  }

  /** Appending to the pair's room keeps every participant pair and the
      activity of every room consistent. */
  lemma UpdatedRoomWellFormed(rooms: seq<ChatRoom>, m: Message, i: nat)
    requires WellFormed(rooms)
    requires FindRoom(rooms, m.from, m.to) == Some(i)
    ensures WellFormed(WithMessage(rooms, m))
  {
    var after := WithMessage(rooms, m);
    assert after == rooms[i := rooms[i].(messages := rooms[i].messages + [m], lastActivity := m.timestamp)];
    forall j, k | 0 <= j < k < |after| ensures !SamePair(after[j], after[k]) {
      assert after[j].participants == rooms[j].participants;
      assert after[k].participants == rooms[k].participants;
    }
    forall j | 0 <= j < |after|
      ensures |after[j].messages| > 0
      ensures after[j].lastActivity == after[j].messages[|after[j].messages| - 1].timestamp
    {
      if j == i {
        assert after[j].messages == rooms[i].messages + [m];
      }
    }
  }

  /** A new room for a pair with none keeps the pairs unique. */
  lemma AddedRoomWellFormed(rooms: seq<ChatRoom>, m: Message)
    requires WellFormed(rooms)
    requires FindRoom(rooms, m.from, m.to).None?
    ensures WellFormed(WithMessage(rooms, m))
  {
    var after := WithMessage(rooms, m);
    assert after == rooms + [NewRoom(m)];
    forall i, j | 0 <= i < j < |after| ensures !SamePair(after[i], after[j]) {
      if j == |rooms| {
        assert !PairMatches(rooms[i], m.from, m.to);
      }
    }
  }

  // ---------------------------------------------------------------------------
  // getRecentChats

  /** One entry of getRecentChats. `otherUser` is `undefined` when both
      participants are the user; `lastMessage` is `undefined` for a room with no
      messages. */
  datatype RecentChat = RecentChat(otherUser: Option<Address>, lastMessage: Option<Message>, unreadCount: int)

  /** The summary of one room: the first participant that is not the user, the
      last message, and an unread count that is always 0. */
  function Summary(room: ChatRoom, u: Address): (e: RecentChat)
    ensures e.unreadCount == 0
    ensures e.otherUser.Some? ==> e.otherUser.value != u && Includes(room, e.otherUser.value)
    ensures e.otherUser.None? <==> room.participants.0 == u && room.participants.1 == u
    ensures e.lastMessage.Some? <==> |room.messages| > 0
    ensures e.lastMessage.Some? ==> e.lastMessage.value == room.messages[|room.messages| - 1]
  {
    RecentChat(
      if room.participants.0 != u then Some(room.participants.0)
      else if room.participants.1 != u then Some(room.participants.1)
      else None,
      if |room.messages| > 0 then Some(room.messages[|room.messages| - 1]) else None,
      0)
  }

  function Summaries(rooms: seq<ChatRoom>, u: Address): (r: seq<RecentChat>)
    ensures |r| == |rooms|
    ensures forall i :: 0 <= i < |rooms| ==> r[i] == Summary(rooms[i], u)
  {
    seq(|rooms|, i requires 0 <= i < |rooms| => Summary(rooms[i], u))
  }

  /** The sort key `lastMessage.timestamp`. */
  function Recency(e: RecentChat): int {
    if e.lastMessage.Some? then e.lastMessage.value.timestamp else 0
  }

  ghost predicate MostRecentFirst(s: seq<RecentChat>) {
    forall i, j :: 0 <= i < j < |s| ==> Recency(s[i]) >= Recency(s[j])
  }

  /** An entry at least as recent as the head of a sorted list may go first. */
  lemma MostRecentFirstCons(x: RecentChat, s: seq<RecentChat>)
    requires MostRecentFirst(s)
    requires s == [] || Recency(x) >= Recency(s[0])
    ensures MostRecentFirst([x] + s)
  {
    var r := [x] + s;
    forall i, j | 0 <= i < j < |r| ensures Recency(r[i]) >= Recency(r[j]) {
      if i == 0 {
        assert r[j] == s[j - 1];
        assert Recency(s[0]) >= Recency(s[j - 1]);
      } else {
        assert r[i] == s[i - 1] && r[j] == s[j - 1];
      }
    }
  }

  /** Inserts `e` before the first entry that is not more recent than it. */
  function InsertByRecency(e: RecentChat, s: seq<RecentChat>): (r: seq<RecentChat>)
    ensures multiset(r) == multiset(s) + multiset{e}
    ensures |r| == |s| + 1
  {
    if s == [] then [e]
    else if Recency(e) >= Recency(s[0]) then [e] + s
    else
      assert s == [s[0]] + s[1..];
      [s[0]] + InsertByRecency(e, s[1..])
  }

  /** Inserting into a most-recent-first list keeps it most recent first. */
  lemma {:induction false} InsertByRecencySorted(e: RecentChat, s: seq<RecentChat>)
    requires MostRecentFirst(s)
    ensures MostRecentFirst(InsertByRecency(e, s))
    ensures InsertByRecency(e, s)[0] == e || (s != [] && InsertByRecency(e, s)[0] == s[0])
  {
    if s == [] {
    } else if Recency(e) >= Recency(s[0]) {
      MostRecentFirstCons(e, s);
    } else {
      var tail := s[1..];
      MostRecentFirstTail(s);
      InsertByRecencySorted(e, tail);
      var rest := InsertByRecency(e, tail);
      assert tail != [] ==> Recency(s[0]) >= Recency(tail[0]);
      MostRecentFirstCons(s[0], rest);
    }
  }

  /** `sort((a, b) => b.lastMessage.timestamp - a.lastMessage.timestamp)`: most
      recent first, a permutation of the input. */
  function SortByRecency(s: seq<RecentChat>): (r: seq<RecentChat>)
    ensures MostRecentFirst(r)
    ensures multiset(r) == multiset(s)
    ensures |r| == |s|
  {
    if s == [] then []
    else
      assert s == [s[0]] + s[1..];
      InsertByRecencySorted(s[0], SortByRecency(s[1..]));
      InsertByRecency(s[0], SortByRecency(s[1..]))
  }

  /** The entries of `s` whose recency is `k`, in order. */
  function WithRecency(s: seq<RecentChat>, k: int): seq<RecentChat> {
    if s == [] then []
    else
      var rest := WithRecency(s[1..], k);
      if Recency(s[0]) == k then [s[0]] + rest else rest
  }

  lemma WithRecencyCons(x: RecentChat, s: seq<RecentChat>, k: int)
    ensures WithRecency([x] + s, k) == (if Recency(x) == k then [x] else []) + WithRecency(s, k)
  {
    assert ([x] + s)[1..] == s;
  }

  /** Inserting puts `e` before every entry of equal recency. */
  lemma {:induction false} InsertByRecencyStable(e: RecentChat, s: seq<RecentChat>, k: int)
    ensures WithRecency(InsertByRecency(e, s), k) == (if Recency(e) == k then [e] else []) + WithRecency(s, k)
  {
    if s == [] {
      WithRecencyCons(e, [], k);
    } else if Recency(e) >= Recency(s[0]) {
      WithRecencyCons(e, s, k);
    } else {
      var tail := s[1..];
      assert s == [s[0]] + tail;
      var rest := InsertByRecency(e, tail);
      assert InsertByRecency(e, s) == [s[0]] + rest;
      InsertByRecencyStable(e, tail, k);
      StableStep(s[0], e, rest, tail, k);
    }
  }

  /** One step of the insertion: a more recent head in front of both lists
      keeps `e`'s entries behind it. */
  lemma StableStep(x: RecentChat, e: RecentChat, rest: seq<RecentChat>, tail: seq<RecentChat>, k: int)
    requires Recency(e) < Recency(x)
    requires WithRecency(rest, k) == (if Recency(e) == k then [e] else []) + WithRecency(tail, k)
    ensures WithRecency([x] + rest, k) == (if Recency(e) == k then [e] else []) + WithRecency([x] + tail, k)
  {
    var here: seq<RecentChat> := if Recency(x) == k then [x] else [];
    var mine: seq<RecentChat> := if Recency(e) == k then [e] else [];
    var w := WithRecency(tail, k);
    WithRecencyCons(x, rest, k);
    WithRecencyCons(x, tail, k);
    if here == [] {
      assert here + (mine + w) == mine + w;
      assert here + w == w;
    } else {
      assert mine == [];
      assert mine + w == w;
      assert mine + (here + w) == here + w;
    }
  }

  lemma MostRecentFirstTail(s: seq<RecentChat>)
    requires s != [] && MostRecentFirst(s)
    ensures MostRecentFirst(s[1..])
  {
    forall i, j | 0 <= i < j < |s| - 1 ensures Recency(s[1..][i]) >= Recency(s[1..][j]) {
      assert s[1..][i] == s[i + 1] && s[1..][j] == s[j + 1];
    }
  }

  /** The sort is stable (as `Array.prototype.sort` is): entries of equal
      recency keep their relative order. Together with MostRecentFirst and the
      permutation this determines the result. */
  lemma {:induction false} SortByRecencyStable(s: seq<RecentChat>, k: int)
    ensures WithRecency(SortByRecency(s), k) == WithRecency(s, k)
  {
    if s != [] {
      SortByRecencyStable(s[1..], k);
      InsertByRecencyStable(s[0], SortByRecency(s[1..]), k);
      assert s == [s[0]] + s[1..];
      WithRecencyCons(s[0], s[1..], k);
    }
  }

  /** getRecentChats. `None` is the TypeError the comparator throws: once there
      are two entries every entry takes part in a comparison, and an entry
      without a last message has no timestamp to read. */
  function RecentChats(rooms: seq<ChatRoom>, u: Address): Option<seq<RecentChat>> {
    var entries := Summaries(ChatRoomsOf(rooms, u), u);
    if |entries| >= 2 && exists i :: 0 <= i < |entries| && entries[i].lastMessage.None? then None
    else Some(SortByRecency(entries))
  }

  /** On a well-formed store getRecentChats succeeds with one entry per room of
      the user, most recent first, each carrying that room's final message and
      an unread count of 0. */
  lemma RecentChatsSpec(rooms: seq<ChatRoom>, u: Address)
    requires ActivityConsistent(rooms)
    ensures RecentChats(rooms, u).Some?
    ensures var r := RecentChats(rooms, u).value;
      |r| == |ChatRoomsOf(rooms, u)| &&
      MostRecentFirst(r) &&
      multiset(r) == multiset(Summaries(ChatRoomsOf(rooms, u), u)) &&
      (forall e :: e in r ==> e.unreadCount == 0 && e.lastMessage.Some?) &&
      (forall room :: room in rooms && Includes(room, u) ==>
         Summary(room, u) in r && Summary(room, u).lastMessage == Some(room.messages[|room.messages| - 1]))
  {
    var mine := ChatRoomsOf(rooms, u);
    var entries := Summaries(mine, u);
    forall i | 0 <= i < |entries| ensures entries[i].lastMessage.Some? {
      assert mine[i] in rooms;
    }
    var r := RecentChats(rooms, u).value;
    forall e | e in r ensures e.unreadCount == 0 && e.lastMessage.Some? {
      assert e in multiset(entries);
    }
    forall room | room in rooms && Includes(room, u)
      ensures Summary(room, u) in r
    {
      var k :| 0 <= k < |mine| && mine[k] == room;
      assert entries[k] == Summary(room, u);
      assert Summary(room, u) in multiset(entries);
    }
  }

  // ---------------------------------------------------------------------------
  // The store

  /** The `ChatStorage` singleton: its whole state is the one slot it reads and
      writes. */
  class ChatStore {
    var slot: Slot

    constructor (initial: Slot)
      ensures slot == initial
    {
      slot := initial;
    }

    function Rooms(): seq<ChatRoom>
      reads this
    {
      Load(slot)
    }

    /** getChatRooms. */
    function GetChatRooms(userAddress: Address): seq<ChatRoom>
      reads this
    {
      ChatRoomsOf(Load(slot), userAddress)
    }

    /** getMessages. */
    function GetMessagesOf(user1: Address, user2: Address): seq<Message>
      reads this
    {
      GetMessages(Load(slot), user1, user2)
    }

    /** getRecentChats. */
    function GetRecentChats(userAddress: Address): Option<seq<RecentChat>>
      reads this
    {
      RecentChats(Load(slot), userAddress)
    }

    /** addMessage: read the slot (unreadable reads as no rooms), append to the
        pair's room or create it, write the whole list back. */
    method AddMessage(message: Message)
      modifies this
      ensures slot == Stored(WithMessage(old(Rooms()), message))
      ensures GetMessagesOf(message.from, message.to) == old(GetMessagesOf(message.from, message.to)) + [message]
      ensures forall a, b :: !PairMatches(NewRoom(message), a, b) ==>
        GetMessagesOf(a, b) == old(GetMessagesOf(a, b))
      ensures AppendOnly(old(Rooms()), Rooms())
      ensures |Rooms()| <= |old(Rooms())| + 1
      ensures WellFormed(old(Rooms())) ==> WellFormed(Rooms())
    {
      var allRooms := Load(slot);
      ghost var before := allRooms;
      var roomIndex := FindRoom(allRooms, message.from, message.to);
      if roomIndex.Some? {
        var i := roomIndex.value;
        allRooms := allRooms[i := allRooms[i].(messages := allRooms[i].messages + [message])];
        allRooms := allRooms[i := allRooms[i].(lastActivity := message.timestamp)];
      } else {
        allRooms := allRooms + [NewRoom(message)];
      }
      slot := Stored(allRooms);
      assert allRooms == WithMessage(before, message);

      GetMessagesIsPairMessages(before, message.from, message.to);
      GetMessagesIsPairMessages(allRooms, message.from, message.to);
      WithMessageAppends(before, message);
      forall a, b | !PairMatches(NewRoom(message), a, b)
        ensures GetMessages(allRooms, a, b) == GetMessages(before, a, b)
      {
        GetMessagesIsPairMessages(before, a, b);
        GetMessagesIsPairMessages(allRooms, a, b);
        WithMessageOtherPairs(before, message, a, b);
      }
      WithMessageAppendOnly(before, message);
      WithMessageLength(before, message);
      if WellFormed(before) {
        WithMessageWellFormed(before, message);
      }
    }

    /** clearAllChats: the slot is removed, so every read is empty. */
    method ClearAllChats()
      modifies this
      ensures slot == Missing
      ensures forall u :: GetChatRooms(u) == []
      ensures forall a, b :: GetMessagesOf(a, b) == []
      ensures forall u :: GetRecentChats(u) == Some([])
    {
      slot := Missing;
    }
  }

  /** A missing or unreadable slot reads as empty for every query, and a write
      then starts from no rooms. */
  lemma UnreadableSlotReadsEmpty(slot: Slot, u: Address, v: Address, m: Message)
    requires !slot.Stored?
    ensures ChatRoomsOf(Load(slot), u) == []
    ensures GetMessages(Load(slot), u, v) == []
    ensures RecentChats(Load(slot), u) == Some([])
    ensures WithMessage(Load(slot), m) == [NewRoom(m)]
  {
  }

  /** The two-message scenario: A writes to B, B answers A. */
  lemma ConversationScenario()
    ensures var m1 := Message("1", "0xA", "0xB", "hi", 1000, None);
      var m2 := Message("2", "0xB", "0xA", "yo", 2000, None);
      var rooms := WithMessage(WithMessage(Load(Missing), m1), m2);
      GetMessages(rooms, "0xA", "0xB") == [m1, m2] &&
      RecentChats(rooms, "0xA") == Some([RecentChat(Some("0xB"), Some(m2), 0)])
  {
    var m1 := Message("1", "0xA", "0xB", "hi", 1000, None);
    var m2 := Message("2", "0xB", "0xA", "yo", 2000, None);
    var r1 := WithMessage([], m1);
    assert r1 == [NewRoom(m1)];
    assert FindRoom(r1, "0xB", "0xA") == Some(0);
    var r2 := WithMessage(r1, m2);
    assert r1[0].messages + [m2] == [m1, m2];
    assert r2 == [ChatRoom(("0xA", "0xB"), [m1, m2], 2000)];
    assert ChatRoomsOf(r2, "0xA") == r2;
    assert FindRoom(r2, "0xA", "0xB") == Some(0);
  }
}

/** The chat window between the current user and one partner: it loads the
    pair's messages from the chat store, sends new ones through it, and decides
    per message whether it is the user's own and whether it shows an avatar. */
module ChatWindow {
  import opened Wrappers
  import opened ChatStorage
  import opened RegisteredUsers

  class ChatWindow {
    const store: ChatStore
    const currentUser: RegisteredUser
    const otherUser: RegisteredUser
    /** The `messages` state shown in the window. */
    var messages: seq<Message>

    constructor (store: ChatStore, currentUser: RegisteredUser, otherUser: RegisteredUser)
      ensures this.store == store && this.currentUser == currentUser && this.otherUser == otherUser
      ensures messages == []
    {
      this.store := store;
      this.currentUser := currentUser;
      this.otherUser := otherUser;
      messages := [];
    }

    /** The list shown is the store's conversation of the two users. */
    ghost predicate InSync()
      reads this, store
    {
      messages == store.GetMessagesOf(currentUser.address, otherUser.address)
    }

    /** The load effect: with a current address the list becomes the stored
        conversation; without one it is left as it was. */
    method LoadMessages()
      modifies this
      ensures currentUser.address != "" ==> InSync()
      ensures currentUser.address == "" ==> messages == old(messages)
    {
      if currentUser.address != "" {
        messages := store.GetMessagesOf(currentUser.address, otherUser.address);
      }
    }

    /** handleSendMessage. The id and the timestamp, which the source takes from
        the clock and a random number, are parameters. Without a current address
        nothing is stored and the list is unchanged; otherwise the message from
        the current user to the partner is added to the store and appended to the
        list, so a list in step with the store stays in step. */
    method SendMessage(content: string, id: string, now: int) returns (sent: Option<Message>)
      modifies this, store
      ensures currentUser.address == "" ==>
        sent == None && messages == old(messages) && store.slot == old(store.slot)
      ensures currentUser.address != "" ==>
        sent == Some(Message(id, currentUser.address, otherUser.address, content, now, None)) &&
        messages == old(messages) + [sent.value] &&
        store.slot == Stored(WithMessage(old(store.Rooms()), sent.value))
      ensures sent.Some? ==> IsOwn(sent.value, currentUser.address)
      ensures old(InSync()) ==> InSync()
    {
      if currentUser.address == "" {
        return None;
      }
      var newMessage := Message(id, currentUser.address, otherUser.address, content, now, None);
      store.AddMessage(newMessage);
      messages := messages + [newMessage];
      sent := Some(newMessage);
    }
  }

  /** `message.from === currentUser.address`. */
  predicate IsOwn(message: Message, currentAddress: Address) {
    message.from == currentAddress
  }

  /** `index === 0 || messages[index - 1].from !== message.from`. */
  predicate ShowAvatar(messages: seq<Message>, index: nat)
    requires index < |messages|
  {
    index == 0 || messages[index - 1].from != messages[index].from
  }

  /** The number of avatars shown among the first `n` messages. */
  function AvatarCount(messages: seq<Message>, n: nat): nat
    requires n <= |messages|
  {
    if n == 0 then 0
    else AvatarCount(messages, n - 1) + (if ShowAvatar(messages, n - 1) then 1 else 0)
  }

  function Flatten(runs: seq<seq<Message>>): seq<Message> {
    if runs == [] then [] else Flatten(runs[..|runs| - 1]) + runs[|runs| - 1]
  }

  /** Adds message `m` to the runs: at the end of the last run when it `joins`
      it, otherwise as a run of its own. */
  function AddToRuns(runs: seq<seq<Message>>, m: Message, joins: bool): (r: seq<seq<Message>>)
    requires joins ==> runs != []
    ensures |r| == |runs| + (if joins then 0 else 1)
  {
    if joins then runs[..|runs| - 1] + [runs[|runs| - 1] + [m]] else runs + [[m]]
  }

  /** The messages grouped into runs of consecutive messages from one sender,
      a message joining the run before it when it has that run's sender. */
  function SenderRuns(messages: seq<Message>): (runs: seq<seq<Message>>)
    ensures messages != [] <==> runs != []
    ensures forall k :: 0 <= k < |runs| ==> |runs[k]| > 0
    ensures runs != [] ==> runs[|runs| - 1][0].from == messages[|messages| - 1].from
  {
    if messages == [] then []
    else
      var init := messages[..|messages| - 1];
      var last := messages[|messages| - 1];
      var before := SenderRuns(init);
      var r: seq<seq<Message>> := AddToRuns(before, last, Joins(messages));
      assert forall k :: 0 <= k < |r| ==> |r[k]| > 0 by {
        forall k | 0 <= k < |r| ensures |r[k]| > 0 {
          if k < |before| - 1 || (!Joins(messages) && k < |before|) {
            assert r[k] == before[k];
          }
        }
      }
      r
  }

  /** The last message continues the run of the one before it. */
  predicate Joins(messages: seq<Message>)
    requires messages != []
  {
    |messages| >= 2 && messages[|messages| - 2].from == messages[|messages| - 1].from
  }

  lemma FlattenAdd(runs: seq<seq<Message>>, m: Message, joins: bool)
    requires joins ==> runs != []
    ensures Flatten(AddToRuns(runs, m, joins)) == Flatten(runs) + [m]
  {
    var r: seq<seq<Message>> := AddToRuns(runs, m, joins);
    if joins {
      var front := runs[..|runs| - 1];
      assert r[..|r| - 1] == front;
      assert Flatten(runs) == Flatten(front) + runs[|runs| - 1];
    } else {
      assert r[..|r| - 1] == runs;
    }
  }

  /** The runs put together give the list back. */
  lemma {:induction false} SenderRunsFlatten(messages: seq<Message>)
    ensures Flatten(SenderRuns(messages)) == messages
  {
    if messages != [] {
      var init := messages[..|messages| - 1];
      SenderRunsFlatten(init);
      FlattenAdd(SenderRuns(init), messages[|messages| - 1], Joins(messages));
      assert messages == init + [messages[|messages| - 1]];
    }
  }

  /** Every run has one sender. */
  ghost predicate SingleSenderRuns(runs: seq<seq<Message>>) {
    forall k, j :: 0 <= k < |runs| && 0 <= j < |runs[k]| ==> runs[k][j].from == runs[k][0].from
  }

  /** Neighbouring runs have different senders. */
  ghost predicate AlternatingRuns(runs: seq<seq<Message>>)
    requires forall k :: 0 <= k < |runs| ==> |runs[k]| > 0
  {
    forall k :: 0 < k < |runs| ==> runs[k - 1][0].from != runs[k][0].from
  }

  lemma UniformAdd(runs: seq<seq<Message>>, m: Message, joins: bool)
    requires SingleSenderRuns(runs)
    requires joins ==> runs != [] && |runs[|runs| - 1]| > 0 && runs[|runs| - 1][0].from == m.from
    ensures SingleSenderRuns(AddToRuns(runs, m, joins))
  {
    var r: seq<seq<Message>> := AddToRuns(runs, m, joins);
    forall k: int, j: int | 0 <= k < |r| && 0 <= j < |r[k]|
      ensures r[k][j].from == r[k][0].from
    {
      if k < |runs| - 1 || (!joins && k < |runs|) {
        assert r[k] == runs[k];
      } else if joins {
        var n := |runs| - 1;
        assert r[k] == runs[n] + [m];
        if j < |runs[n]| {
          assert r[k][j] == runs[n][j];
        }
      }
    }
  }

  /** Every run has one sender. */
  lemma {:induction false} SenderRunsUniform(messages: seq<Message>)
    ensures SingleSenderRuns(SenderRuns(messages))
  {
    if messages != [] {
      var init := messages[..|messages| - 1];
      SenderRunsUniform(init);
      if Joins(messages) {
        assert init[|init| - 1] == messages[|messages| - 2];
      }
      UniformAdd(SenderRuns(init), messages[|messages| - 1], Joins(messages));
    }
  }

  lemma AlternateAdd(runs: seq<seq<Message>>, m: Message, joins: bool)
    requires forall k :: 0 <= k < |runs| ==> |runs[k]| > 0
    requires AlternatingRuns(runs)
    requires joins ==> runs != []
    requires !joins && runs != [] ==> runs[|runs| - 1][0].from != m.from
    ensures var r: seq<seq<Message>> := AddToRuns(runs, m, joins);
      (forall k :: 0 <= k < |r| ==> |r[k]| > 0) && AlternatingRuns(r)
  {
    var r: seq<seq<Message>> := AddToRuns(runs, m, joins);
    forall k | 0 <= k < |r| ensures |r[k]| > 0 {
      if k < |runs| - 1 || (!joins && k < |runs|) {
        assert r[k] == runs[k];
      }
    }
    forall k | 0 < k < |r| ensures r[k - 1][0].from != r[k][0].from {
      assert r[k - 1] == runs[k - 1];
      if k < |runs| - 1 || (!joins && k < |runs|) {
        assert r[k] == runs[k];
      } else if joins {
        assert r[k] == runs[k] + [m];
      }
    }
  }

  /** Neighbouring runs have different senders, so the runs are maximal. */
  lemma {:induction false} SenderRunsAlternate(messages: seq<Message>)
    ensures AlternatingRuns(SenderRuns(messages))
  {
    if messages != [] {
      var init := messages[..|messages| - 1];
      SenderRunsAlternate(init);
      if init != [] {
        assert init[|init| - 1] == messages[|messages| - 2];
      }
      AlternateAdd(SenderRuns(init), messages[|messages| - 1], Joins(messages));
    }
  }

  /** Avatars before position `n` depend only on the first `n` messages. */
  lemma {:induction false} AvatarCountPrefix(messages: seq<Message>, m: nat, n: nat)
    requires n <= m <= |messages|
    ensures AvatarCount(messages[..m], n) == AvatarCount(messages, n)
  {
    if n > 0 {
      AvatarCountPrefix(messages, m, n - 1);
    }
  }

  /** One avatar is shown per run of consecutive messages from one sender. */
  lemma {:induction false} AvatarCountIsRunCount(messages: seq<Message>)
    ensures AvatarCount(messages, |messages|) == |SenderRuns(messages)|
  {
    if messages != [] {
      var init := messages[..|messages| - 1];
      AvatarCountIsRunCount(init);
      AvatarCountPrefix(messages, |messages| - 1, |messages| - 1);
    }
  }
}

/** The wallet service: the listener registry, the wallet state derived from
    the provider's accounts list and hex chain id, and the connect, read and
    disconnect operations over the provider's answers. */
module Web3Simple {
  import opened Wrappers
  import opened JsStrings

  /** A chain id as `Number.parseInt(chainId, 16)` leaves it, or `null`. */
  datatype ChainId = NoChain | NotANumber | ChainNumber(n: int)

  datatype WalletState = WalletState(isConnected: bool, address: Option<string>, chainId: ChainId)

  /** `{ isConnected: false, address: null, chainId: null }`. */
  const Disconnected := WalletState(false, None, NoChain)

  // ---------------------------------------------------------------------------
  // Number.parseInt(s, 16) (section 19.2.5 of ECMA-262)

  predicate IsHexDigit(c: char) {
    IsAsciiDigit(c) || ('a' <= c <= 'f') || ('A' <= c <= 'F')
  }

  function DigitValue(c: char): (v: nat)
    requires IsHexDigit(c)
    ensures v < 16
  {
    if IsAsciiDigit(c) then c as int - '0' as int
    else if 'a' <= c <= 'f' then c as int - 'a' as int + 10
    else c as int - 'A' as int + 10
  }

  /** The lower-case digit of a value below 16. */
  function HexChar(d: nat): (c: char)
    requires d < 16
    ensures IsHexDigit(c) && DigitValue(c) == d
  {
    if d < 10 then ('0' as int + d) as char else ('a' as int + d - 10) as char
  }

  /** The length of the longest prefix made of hexadecimal digits. */
  function HexPrefixLength(s: string): (n: nat)
    ensures n <= |s|
    ensures forall i :: 0 <= i < n ==> IsHexDigit(s[i])
    ensures n < |s| ==> !IsHexDigit(s[n])
  {
    if s != [] && IsHexDigit(s[0]) then 1 + HexPrefixLength(s[1..]) else 0
  }

  /** The value of a string of hexadecimal digits. */
  function HexValue(digits: string): nat
    requires forall i :: 0 <= i < |digits| ==> IsHexDigit(digits[i])
  {
    if digits == [] then 0
    else HexValue(digits[..|digits| - 1]) * 16 + DigitValue(digits[|digits| - 1])
  }

  /** `Number.parseInt(s, 16)`: skip leading white space, take an optional sign
      and an optional `0x`/`0X`, then the longest run of hexadecimal digits;
      no digits is NaN. (Negative zero is read as zero.) */
  function ParseInt16(s: string): ChainId {
    var t := TrimStart(s);
    var sign := if t != [] && t[0] == '-' then -1 else 1;
    var unsigned := if t != [] && (t[0] == '-' || t[0] == '+') then t[1..] else t;
    var body := if |unsigned| >= 2 && unsigned[0] == '0' && (unsigned[1] == 'x' || unsigned[1] == 'X')
                then unsigned[2..] else unsigned;
    var n := HexPrefixLength(body);
    if n == 0 then NotANumber else ChainNumber(sign * HexValue(body[..n]))
  }

  /** The shortest lower-case hexadecimal spelling of `n`. */
  function ToHexDigits(n: nat): (r: string)
    ensures r != []
    ensures forall i :: 0 <= i < |r| ==> IsHexDigit(r[i])
    decreases n
  {
    if n < 16 then [HexChar(n)] else ToHexDigits(n / 16) + [HexChar(n % 16)]
  }

  lemma {:induction false} HexValueOfDigits(n: nat)
    ensures HexValue(ToHexDigits(n)) == n
    decreases n
  {
    if n >= 16 {
      var r := ToHexDigits(n);
      HexValueOfDigits(n / 16);
      assert r[..|r| - 1] == ToHexDigits(n / 16);
    }
  }

  /** A digit run is read whole when nothing follows it. */
  lemma {:induction false} HexPrefixOfDigits(digits: string)
    requires forall i :: 0 <= i < |digits| ==> IsHexDigit(digits[i])
    ensures HexPrefixLength(digits) == |digits|
  {
    if digits != [] {
      HexPrefixOfDigits(digits[1..]);
    }
  }

  /** parseInt reads back what `0x` and the hexadecimal digits of `n` spell, and
      a leading minus sign negates it. */
  lemma ParseInt16RoundTrip(n: nat)
    ensures ParseInt16("0x" + ToHexDigits(n)) == ChainNumber(n)
    ensures ParseInt16("-0x" + ToHexDigits(n)) == ChainNumber(-(n as int))
  {
    var d := ToHexDigits(n);
    HexValueOfDigits(n);
    HexPrefixOfDigits(d);
    assert d[..|d|] == d;
    var s := "0x" + d;
    assert TrimStart(s) == s;
    assert s[2..] == d;
    var m := "-0x" + d;
    assert TrimStart(m) == m;
    assert m[1..] == s;
  }

  /** The digits of the Sepolia id, evaluated one digit at a time. */
  lemma SepoliaDigits()
    ensures forall i :: 0 <= i < |"aa36a7"| ==> IsHexDigit("aa36a7"[i])
    ensures HexValue("aa36a7") == 11155111
  {
    assert HexValue("a") == 10 by { assert "a"[..0] == []; }
    assert HexValue("aa") == 170 by { assert "aa"[..1] == "a"; }
    assert HexValue("aa3") == 2723 by { assert "aa3"[..2] == "aa"; }
    assert HexValue("aa36") == 43574 by { assert "aa36"[..3] == "aa3"; }
    assert HexValue("aa36a") == 697194 by { assert "aa36a"[..4] == "aa36"; }
    assert "aa36a7"[..5] == "aa36a";
  }

  /** The Sepolia id the service asks the wallet to switch to. */
  lemma SepoliaChainId()
    ensures ParseInt16("0xaa36a7") == ChainNumber(11155111)
  {
    var s := "0xaa36a7";
    var d := "aa36a7";
    assert TrimStart(s) == s;
    assert s[2..] == d;
    SepoliaDigits();
    HexPrefixOfDigits(d);
    assert d[..6] == d;
  }

  /** No digits, even after a `0x`, is NaN. */
  lemma ParseInt16NaN()
    ensures ParseInt16("") == NotANumber
    ensures ParseInt16("0x") == NotANumber
    ensures ParseInt16("zz") == NotANumber
  {
    assert TrimStart("0x") == "0x";
    assert "0x"[2..] == [];
    assert TrimStart("zz") == "zz";
  }

  /** Leading white space does not change the reading. */
  lemma ParseInt16SkipsWhitespace(c: char, s: string)
    requires IsJsWhitespace(c)
    ensures ParseInt16([c] + s) == ParseInt16(s)
  {
    assert ([c] + s)[1..] == s;
    assert TrimStart([c] + s) == TrimStart(s);
  }

  // ---------------------------------------------------------------------------
  // Wallet state

  /** The state built from an accounts list and a chain id string: connected
      iff there is an account, `accounts[0] || null` as the address. */
  function DeriveState(accounts: seq<string>, chainHex: string): (w: WalletState)
    ensures w.isConnected <==> |accounts| > 0
    ensures w.address.None? <==> |accounts| == 0 || accounts[0] == []
    ensures w.address.Some? ==> w.address.value == accounts[0] && w.isConnected
    ensures w.chainId == ParseInt16(chainHex) && w.chainId != NoChain
  {
    WalletState(|accounts| > 0, if |accounts| > 0 && accounts[0] != [] then Some(accounts[0]) else None,
                ParseInt16(chainHex))
  }

  /** What the provider answers: absent when no wallet is installed, and each
      request's result, absent when it throws. */
  datatype Provider = Provider(accounts: Option<seq<string>>, chainId: Option<string>)

  /** getWalletState: no provider or a failed request gives the disconnected
      state, otherwise the derived one. */
  function GetWalletState(provider: Option<Provider>): (w: WalletState)
    ensures provider.None? ==> w == Disconnected
    ensures provider.Some? && (provider.value.accounts.None? || provider.value.chainId.None?) ==> w == Disconnected
    ensures provider.Some? && provider.value.accounts.Some? && provider.value.chainId.Some? ==>
      w == DeriveState(provider.value.accounts.value, provider.value.chainId.value)
    ensures w.isConnected ==> w.chainId.NotANumber? || w.chainId.ChainNumber?
  {
    if provider.None? || provider.value.accounts.None? || provider.value.chainId.None? then Disconnected
    else DeriveState(provider.value.accounts.value, provider.value.chainId.value)
  }

  // ---------------------------------------------------------------------------
  // Listener registry

  /** A subscribed callback, by identity. */
  type Listener = int

  /** `listeners.indexOf(x)`: the first position of `x`, or -1. */
  function IndexOf(s: seq<Listener>, x: Listener): (i: int)
    ensures -1 <= i < |s|
    ensures i == -1 <==> x !in s
    ensures i >= 0 ==> s[i] == x && forall j :: 0 <= j < i ==> s[j] != x
  {
    if s == [] then -1
    else if s[0] == x then 0
    else var k := IndexOf(s[1..], x); if k == -1 then -1 else k + 1
  }

  /** The list without the first occurrence of `x`. */
  function RemoveFirst(s: seq<Listener>, x: Listener): seq<Listener> {
    var i := IndexOf(s, x);
    if i > -1 then s[..i] + s[i + 1..] else s
  }

  /** Removing a present callback splices out exactly one copy of it. */
  lemma RemovePresent(s: seq<Listener>, x: Listener)
    requires x in s
    ensures multiset(RemoveFirst(s, x)) == multiset(s) - multiset{x}
    ensures |RemoveFirst(s, x)| == |s| - 1
  {
    var i := IndexOf(s, x);
    var before, after := s[..i], s[i + 1..];
    assert s == before + [x] + after;
    assert RemoveFirst(s, x) == before + after;
  }

  /** Removing takes out one copy of `x` and nothing else, keeps the order,
      and changes nothing when `x` is absent. */
  lemma RemoveFirstSpec(s: seq<Listener>, x: Listener)
    ensures multiset(RemoveFirst(s, x)) == multiset(s) - multiset{x}
    ensures x !in s ==> RemoveFirst(s, x) == s
    ensures x in s ==> |RemoveFirst(s, x)| == |s| - 1
  {
    if x in s {
      RemovePresent(s, x);
    } else {
      assert multiset(s)[x] == 0;
    }
  }

  /** Subscribing a new callback and then unsubscribing it gives the list back. */
  lemma SubscribeThenUnsubscribe(s: seq<Listener>, x: Listener)
    requires x !in s
    ensures RemoveFirst(s + [x], x) == s
  {
    assert IndexOf(s + [x], x) == |s|;
    assert (s + [x])[..|s|] == s;
  }

  /** With one copy subscribed, the second unsubscribe is a no-op. */
  lemma UnsubscribeTwice(s: seq<Listener>, x: Listener)
    requires multiset(s)[x] <= 1
    ensures RemoveFirst(RemoveFirst(s, x), x) == RemoveFirst(s, x)
  {
    RemoveFirstSpec(s, x);
    var r := RemoveFirst(s, x);
    assert multiset(r)[x] == 0;
    assert x !in r;
  }

  /** One call of a listener with a state. */
  datatype Delivery = Delivery(listener: Listener, state: WalletState)

  /** What connectWallet ends in. */
  datatype ConnectOutcome = NotInstalled | RequestFailed | Connected(state: WalletState)

  class SimpleWeb3Service {
    var listeners: seq<Listener>

    constructor ()
      ensures listeners == []
    {
      listeners := [];
    }

    /** onStateChange: the callback goes to the end of the list. */
    method OnStateChange(callback: Listener)
      modifies this
      ensures listeners == old(listeners) + [callback]
    {
      listeners := listeners + [callback];
    }

    /** The unsubscribe function onStateChange returns: take the first copy of
        the callback out, if any. */
    method Unsubscribe(callback: Listener)
      modifies this
      ensures listeners == RemoveFirst(old(listeners), callback)
      ensures multiset(listeners) == multiset(old(listeners)) - multiset{callback}
    {
      var index := IndexOf(listeners, callback);
      if index > -1 {
        listeners := listeners[..index] + listeners[index + 1..];
      }
      RemoveFirstSpec(old(listeners), callback);
    }

    /** notifyListeners: every listener, in order, is called once with `state`. */
    method NotifyListeners(state: WalletState) returns (deliveries: seq<Delivery>)
      ensures |deliveries| == |listeners|
      ensures forall k :: 0 <= k < |listeners| ==> deliveries[k] == Delivery(listeners[k], state)
    {
      deliveries := [];
      var i := 0;
      while i < |listeners|
        invariant 0 <= i <= |listeners|
        invariant |deliveries| == i
        invariant forall k :: 0 <= k < i ==> deliveries[k] == Delivery(listeners[k], state)
      {
        deliveries := deliveries + [Delivery(listeners[i], state)];
        i := i + 1;
      }
    }

    /** disconnectWallet: the disconnected state, announced to every listener. */
    method DisconnectWallet() returns (state: WalletState, deliveries: seq<Delivery>)
      ensures state == Disconnected
      ensures |deliveries| == |listeners|
      ensures forall k :: 0 <= k < |listeners| ==> deliveries[k] == Delivery(listeners[k], Disconnected)
    {
      state := Disconnected;
      deliveries := NotifyListeners(state);
    }

    /** connectWallet: no provider is an error; a failed request is rethrown;
        otherwise the derived state is announced and returned. */
    method ConnectWallet(provider: Option<Provider>) returns (outcome: ConnectOutcome, deliveries: seq<Delivery>)
      ensures provider.None? ==> outcome == NotInstalled && deliveries == []
      ensures provider.Some? && (provider.value.accounts.None? || provider.value.chainId.None?) ==>
        outcome == RequestFailed && deliveries == []
      ensures outcome.Connected? ==>
        outcome.state == GetWalletState(provider) && |deliveries| == |listeners| &&
        forall k :: 0 <= k < |listeners| ==> deliveries[k] == Delivery(listeners[k], outcome.state)
      ensures provider.Some? && provider.value.accounts.Some? && provider.value.chainId.Some? ==> outcome.Connected?
    {
      if provider.None? {
        return NotInstalled, [];
      }
      if provider.value.accounts.None? || provider.value.chainId.None? {
        return RequestFailed, [];
      }
      var state := DeriveState(provider.value.accounts.value, provider.value.chainId.value);
      deliveries := NotifyListeners(state);
      outcome := Connected(state);
    }
  }
}

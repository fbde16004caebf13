/** The domain-registration form: the name rule, the input sanitiser, the
    guards of a registration, the availability line and the button rule. */
module DomainRegistration {
  import opened Wrappers
  import opened JsStrings

  /** The character class `[a-zA-Z0-9-]`. */
  predicate IsDomainChar(c: char) {
    IsAsciiUpper(c) || IsAsciiLower(c) || IsAsciiDigit(c) || c == '-'
  }

  /** The class `[a-z0-9-]` the sanitiser keeps. */
  predicate IsSanitisedChar(c: char) {
    IsAsciiLower(c) || IsAsciiDigit(c) || c == '-'
  }

  /** isValidDomainName: 3 to 20 characters from `[a-zA-Z0-9-]`, not starting
      or ending with a hyphen. */
  predicate IsValidDomainName(s: string) {
    3 <= |s| <= 20 && (forall i :: 0 <= i < |s| ==> IsDomainChar(s[i])) &&
    !StartsWith(s, "-") && !EndsWith(s, "-")
  }

  /** `replace(/[^a-z0-9-]/g, "")`: the characters of the class, in order. */
  function KeepSanitised(s: string): (r: string)
    ensures |r| <= |s|
    ensures forall i :: 0 <= i < |r| ==> IsSanitisedChar(r[i])
  {
    if s == [] then []
    else
      var rest := KeepSanitised(s[1..]);
      if IsSanitisedChar(s[0]) then [s[0]] + rest else rest
  }

  /** Input made only of kept characters is kept whole. */
  lemma {:induction false} KeepSanitisedWhole(s: string)
    requires forall i :: 0 <= i < |s| ==> IsSanitisedChar(s[i])
    ensures KeepSanitised(s) == s
  {
    if s != [] {
      assert forall i :: 0 <= i < |s[1..]| ==> IsSanitisedChar(s[1..][i]) by {
        forall i | 0 <= i < |s[1..]| ensures IsSanitisedChar(s[1..][i]) {
          assert s[1..][i] == s[i + 1];
        }
      }
      KeepSanitisedWhole(s[1..]);
      assert s == [s[0]] + s[1..];
    }
  }

  /** One character is kept exactly when it is in `[a-z0-9-]`. */
  lemma KeepSanitisedChar(c: char)
    ensures KeepSanitised([c]) == if IsSanitisedChar(c) then [c] else []
  {
    assert [c][1..] == [];
  }

  /** The filter works position by position: with KeepSanitisedChar this says
      every kept character survives, in input order, and nothing else does. */
  lemma {:induction false} KeepSanitisedAppend(a: string, b: string)
    ensures KeepSanitised(a + b) == KeepSanitised(a) + KeepSanitised(b)
  {
    if a == [] {
      assert a + b == b;
    } else {
      assert (a + b)[1..] == a[1..] + b;
      KeepSanitisedAppend(a[1..], b);
    }
  }

  /** The input's onChange: lower-case, then drop everything outside `[a-z0-9-]`. */
  function Sanitise(raw: string): (r: string)
    ensures |r| <= |raw|
    ensures forall i :: 0 <= i < |r| ==> IsSanitisedChar(r[i])
  {
    KeepSanitised(ToLower(raw))
  }

  /** One character becomes its lower-case form when that is in `[a-z0-9-]`,
      and disappears otherwise. */
  lemma SanitiseChar(c: char)
    ensures Sanitise([c]) == if IsSanitisedChar(LowerChar(c)) then [LowerChar(c)] else []
  {
    assert ToLower([c]) == [LowerChar(c)];
    KeepSanitisedChar(LowerChar(c));
  }

  /** Sanitising works position by position, so with SanitiseChar every
      character of the lower-cased input in `[a-z0-9-]` survives, in order. */
  lemma SanitiseAppend(a: string, b: string)
    ensures Sanitise(a + b) == Sanitise(a) + Sanitise(b)
  {
    ToLowerAppend(a, b);
    KeepSanitisedAppend(ToLower(a), ToLower(b));
  }

  /** Sanitising what is already sanitised changes nothing. */
  lemma SanitiseIdempotent(raw: string)
    ensures Sanitise(Sanitise(raw)) == Sanitise(raw)
  {
    var r := Sanitise(raw);
    assert ToLower(r) == r by {
      forall i | 0 <= i < |r| ensures ToLower(r)[i] == r[i] {
        assert IsSanitisedChar(r[i]);
      }
    }
    KeepSanitisedWhole(r);
  }

  /** Sanitising keeps the letters and digits and hyphens, lower-cased, and drops the rest. */
  lemma SanitiseExample()
    ensures Sanitise("My-Name!") == "my-name"
  {
    LowerExample();
    KeepExample();
  }

  lemma LowerExample()
    ensures ToLower("My-Name!") == "my-name!"
  {
    var lowered := ToLower("My-Name!");
    assert lowered[0] == 'm' && lowered[3] == 'n';
  }

  lemma KeepExampleEnd()
    ensures KeepSanitised("name!") == "name"
  {
    assert KeepSanitised("!") == [] by { assert "!"[1..] == []; }
    assert KeepSanitised("e!") == "e" by { assert "e!"[1..] == "!"; }
    assert KeepSanitised("me!") == "me" by { assert "me!"[1..] == "e!"; }
    assert KeepSanitised("ame!") == "ame" by { assert "ame!"[1..] == "me!"; }
    assert "name!"[1..] == "ame!";
  }

  lemma KeepExample()
    ensures KeepSanitised("my-name!") == "my-name"
  {
    KeepExampleEnd();
    assert KeepSanitised("-name!") == "-name" by { assert "-name!"[1..] == "name!"; }
    assert KeepSanitised("y-name!") == "y-name" by { assert "y-name!"[1..] == "-name!"; }
    assert "my-name!"[1..] == "y-name!";
  }

  /** For sanitised input only the length and the hyphen ends are left to check. */
  lemma SanitisedValidIff(raw: string)
    ensures var s := Sanitise(raw);
      IsValidDomainName(s) <==> 3 <= |s| <= 20 && s[0] != '-' && s[|s| - 1] != '-'
  {
    var s := Sanitise(raw);
    if 3 <= |s| {
      assert s[..1] == [s[0]];
      assert s[|s| - 1..] == [s[|s| - 1]];
    }
  }

  /** A bigint fee reads as truthy when present and not `0n`. */
  predicate FeeTruthy(fee: Option<nat>) {
    fee.Some? && fee.value != 0
  }

  /** What handleRegister does. */
  datatype RegisterAction = InvalidInput | Unavailable | Register(name: string, fee: nat)

  /** handleRegister, with the availability answer (absent while unknown) and
      the fee as inputs: refuse an empty or invalid name or a missing fee, then
      an unavailable name; otherwise register the name for the fee. */
  function HandleRegister(domainName: string, fee: Option<nat>, isAvailable: Option<bool>): (r: RegisterAction)
    ensures r == InvalidInput <==> domainName == [] || !FeeTruthy(fee) || !IsValidDomainName(domainName)
    ensures r == Unavailable <==> (domainName != [] && FeeTruthy(fee) && IsValidDomainName(domainName) &&
                                   isAvailable != Some(true))
    ensures r.Register? ==> (r == Register(domainName, fee.value) && IsValidDomainName(domainName) &&
                             FeeTruthy(fee) && isAvailable == Some(true))
  {
    if domainName == [] || !FeeTruthy(fee) || !IsValidDomainName(domainName) then InvalidInput
    else if isAvailable != Some(true) then Unavailable
    else Register(domainName, fee.value)
  }

  /** The availability line under the input. */
  datatype AvailabilityStatus = NoStatus | Checking | Available | NotAvailable

  /** getAvailabilityStatus on the debounced name. */
  function GetAvailabilityStatus(debounced: string, checking: bool, isAvailable: Option<bool>): (r: AvailabilityStatus)
    ensures r == NoStatus <==> debounced == [] || !IsValidDomainName(debounced)
    ensures r == Checking <==> IsValidDomainName(debounced) && checking
    ensures r == Available <==> IsValidDomainName(debounced) && !checking && isAvailable == Some(true)
    ensures r == NotAvailable <==> IsValidDomainName(debounced) && !checking && isAvailable != Some(true)
  {
    if debounced == [] || !IsValidDomainName(debounced) then NoStatus
    else if checking then Checking
    else if isAvailable == Some(true) then Available
    else NotAvailable
  }

  /** The register button's `disabled` expression. */
  predicate RegisterDisabled(domainName: string, isAvailable: Option<bool>, isPending: bool,
                             isConfirming: bool, checking: bool) {
    domainName == [] || !IsValidDomainName(domainName) || isAvailable != Some(true) ||
    isPending || isConfirming || checking
  }

  /** A click on an enabled button registers the typed name once a fee is
      known; the button does not look at the fee, so without one the click is
      refused as invalid input. */
  lemma EnabledButtonRegisters(domainName: string, fee: Option<nat>, isAvailable: Option<bool>,
                               isPending: bool, isConfirming: bool, checking: bool)
    requires !RegisterDisabled(domainName, isAvailable, isPending, isConfirming, checking)
    ensures FeeTruthy(fee) ==> HandleRegister(domainName, fee, isAvailable) == Register(domainName, fee.value)
    ensures !FeeTruthy(fee) ==> HandleRegister(domainName, fee, isAvailable) == InvalidInput
  {
  }

  /** The button is disabled whenever the name is one handleRegister refuses. */
  lemma RefusedNameDisablesButton(domainName: string, fee: Option<nat>, isAvailable: Option<bool>,
                                  isPending: bool, isConfirming: bool, checking: bool)
    requires FeeTruthy(fee)
    requires !HandleRegister(domainName, fee, isAvailable).Register?
    ensures RegisterDisabled(domainName, isAvailable, isPending, isConfirming, checking)
  {
  }

  /** The form's two name states; the timer and the contract hooks are inputs. */
  class DomainForm {
    var domainName: string
    var debounced: string

    constructor ()
      ensures domainName == [] && debounced == []
    {
      domainName := [];
      debounced := [];
    }

    /** The input's onChange. */
    method Change(raw: string)
      modifies this
      ensures domainName == Sanitise(raw) && debounced == old(debounced)
      ensures forall i :: 0 <= i < |domainName| ==> IsSanitisedChar(domainName[i])
    {
      domainName := Sanitise(raw);
    }

    /** The debounce timer firing, 500 ms after the last change. */
    method DebounceElapsed()
      modifies this
      ensures debounced == domainName && domainName == old(domainName)
    {
      debounced := domainName;
    }

    /** The confirmation effect: a confirmed registration clears the input. */
    method Confirmation(isConfirmed: bool)
      modifies this
      ensures isConfirmed ==> domainName == []
      ensures !isConfirmed ==> domainName == old(domainName)
      ensures debounced == old(debounced)
    {
      if isConfirmed {
        domainName := [];
      }
    }
  }
}

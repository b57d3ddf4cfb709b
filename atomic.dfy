/**
 * The running gate: a boolean cell with compare-and-set, as the processor's
 * AtomicBoolean is used. Calls are taken one at a time; racing callers are
 * modelled by the order in which their calls take effect.
 */
module Atomic {

  /** What compareAndSet(expected, update) does to a cell holding `current`. */
  datatype CasResult = CasResult(success: bool, value: bool)

  function Cas(current: bool, expected: bool, update: bool): (r: CasResult)
    ensures r.success <==> current == expected
    ensures r.value == (if r.success then update else current)
  {
    if current == expected then CasResult(true, update) else CasResult(false, current)
  }

  /** The answers of n successive compareAndSet(false, true) calls on a cell holding `current`. */
  function Activations(current: bool, n: nat): (answers: seq<bool>)
    ensures |answers| == n
    decreases n
  {
    if n == 0 then []
    else
      var r := Cas(current, false, true);
      [r.success] + Activations(r.value, n - 1)
  }

  /** Of n callers trying to activate an idle gate, exactly the first wins and all others get false. */
  lemma {:induction false} ExactlyOneActivation(n: nat)
    requires n > 0
    ensures var a := Activations(false, n);
      a[0] && (forall k :: 1 <= k < n ==> !a[k]) && multiset(a)[true] == 1
  {
    var rest := Activations(true, n - 1);
    NoActivationWhileActive(n - 1);
    assert Activations(false, n) == [true] + rest;
    assert multiset(Activations(false, n)) == multiset{true} + multiset(rest);
  }

  /** While the gate is set no call activates it. */
  lemma {:induction false} NoActivationWhileActive(n: nat)
    ensures var a := Activations(true, n);
      (forall k :: 0 <= k < n ==> !a[k]) && multiset(a)[true] == 0
  {
    if n > 0 {
      NoActivationWhileActive(n - 1);
      assert Activations(true, n) == [false] + Activations(true, n - 1);
      assert multiset(Activations(true, n)) == multiset{false} + multiset(Activations(true, n - 1));
    }
  }

  class AtomicBoolean {
    var value: bool

    /** new AtomicBoolean(): initially false. */
    constructor ()
      ensures !value
    {
      value := false;
    }

    method Set(v: bool)
      modifies this
      ensures value == v
    {
      value := v;
    }

    method CompareAndSet(expected: bool, update: bool) returns (success: bool)
      modifies this
      ensures success <==> old(value) == expected
      ensures value == (if success then update else old(value))
      ensures Cas(old(value), expected, update) == CasResult(success, value)
    {
      success := value == expected;
      if success {
        value := update;
      }
    }
  }
}

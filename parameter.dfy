/**
 * The parameter holder of the boolean domain (`boolean::_parameter_t`):
 * a bound input value for a query placeholder, with null tracking.
 */
module BooleanParameter {

  /** The three fields of a holder, as a value. */
  datatype ParamState = ParamState(trivialValueIsNull: bool, value: bool, isNull: bool)

  /** `_is_trivial`: `false` is the trivial value of the boolean domain. */
  predicate IsTrivial(v: bool) {
    v == false
  }

  /** The null flag a holder derives from its policy and its value. */
  predicate DerivedNull(trivialValueIsNull: bool, v: bool) {
    trivialValueIsNull && IsTrivial(v)
  }

  /**
   * `_is_trivial` is what the null flag is derived from: only `false` is
   * trivial, so only a `false` value under the policy is null by derivation.
   */
  lemma TrivialValueIsFalse(trivialValueIsNull: bool, v: bool)
    ensures IsTrivial(v) <==> v == false
    ensures DerivedNull(trivialValueIsNull, v) <==> trivialValueIsNull && v == false
  {
  }

  /** The state built by `_parameter_t(std::true_type)` or `_parameter_t(std::false_type)`. */
  function Initial(trivialValueIsNull: bool): (s: ParamState)
    ensures s.trivialValueIsNull == trivialValueIsNull
    ensures s.value == false
    ensures s.isNull == trivialValueIsNull
  {
    ParamState(trivialValueIsNull, false, DerivedNull(trivialValueIsNull, false))
  }

  /** The state after `operator=(bool)`. */
  function WithValue(s: ParamState, v: bool): (t: ParamState)
    ensures t.trivialValueIsNull == s.trivialValueIsNull
    ensures t.value == v
    ensures t.isNull <==> s.trivialValueIsNull && v == false
  {
    s.(value := v, isNull := DerivedNull(s.trivialValueIsNull, v))
  }

  /** The state after `operator=(std::nullptr_t)`. */
  function WithNull(s: ParamState): (t: ParamState)
    ensures t == ParamState(s.trivialValueIsNull, false, true)
  {
    s.(value := false, isNull := true)
  }

  /**
   * What holds of every state a holder can reach: a null holder carries the
   * trivial value, and the trivial value under the "trivial is null" policy
   * is null.  Only a forced null (policy off) is null without being derived.
   */
  predicate Inv(s: ParamState) {
    (s.isNull ==> s.value == false) && (DerivedNull(s.trivialValueIsNull, s.value) ==> s.isNull)
  }

  /** One re-binding of a holder: a value or null. */
  datatype Binding = BindValue(v: bool) | BindNull

  function Apply(s: ParamState, b: Binding): ParamState {
    match b
    case BindValue(v) => WithValue(s, v)
    case BindNull => WithNull(s)
  }

  /** The state after the bindings `bs`, in order. */
  function Rebind(s: ParamState, bs: seq<Binding>): ParamState
    decreases |bs|
  {
    if bs == [] then s else Rebind(Apply(s, bs[0]), bs[1..])
  }

  lemma InitialSatisfiesInv(trivialValueIsNull: bool)
    ensures Inv(Initial(trivialValueIsNull))
  {
  }

  lemma ApplyPreservesInv(s: ParamState, b: Binding)
    ensures Inv(Apply(s, b))
    ensures Apply(s, b).trivialValueIsNull == s.trivialValueIsNull
  {
  }

  /** Every binding sequence keeps the invariant. */
  lemma {:induction false} RebindPreservesInv(s: ParamState, bs: seq<Binding>)
    requires Inv(s)
    ensures Inv(Rebind(s, bs))
    decreases |bs|
  {
    if bs != [] {
      ApplyPreservesInv(s, bs[0]);
      RebindPreservesInv(Apply(s, bs[0]), bs[1..]);
    }
  }

  /** The reachable states are exactly the states that satisfy `Inv`. */
  lemma ReachableIffInv(s: ParamState)
    ensures Inv(s) <==> exists bs :: Rebind(Initial(s.trivialValueIsNull), bs) == s
  {
    var init := Initial(s.trivialValueIsNull);
    if Inv(s) {
      var b := if s.isNull then BindNull else BindValue(s.value);
      RebindSnoc(init, [], b);
      assert [] + [b] == [b];
      assert Rebind(init, [b]) == s;
    }
    forall bs | Rebind(init, bs) == s
      ensures Inv(s)
    {
      InitialSatisfiesInv(s.trivialValueIsNull);
      RebindPreservesInv(init, bs);
    }
  }

  /** Binding appends: the state after `bs + [b]` is `b` applied to the state after `bs`. */
  lemma {:induction false} RebindSnoc(s: ParamState, bs: seq<Binding>, b: Binding)
    ensures Rebind(s, bs + [b]) == Apply(Rebind(s, bs), b)
    decreases |bs|
  {
    if bs == [] {
      assert ([] + [b])[1..] == [];
    } else {
      assert (bs + [b])[1..] == bs[1..] + [b];
      RebindSnoc(Apply(s, bs[0]), bs[1..], b);
    }
  }

  /**
   * The last binding alone decides value and null flag: whatever the earlier
   * bindings were, they leave no trace besides the policy.
   */
  lemma LastBindingDecides(s: ParamState, bs: seq<Binding>, b: Binding)
    ensures Rebind(s, bs + [b]) == Apply(Initial(s.trivialValueIsNull), b)
  {
    RebindSnoc(s, bs, b);
    RebindPolicy(s, bs);
  }

  /** No binding sequence touches the policy. */
  lemma {:induction false} RebindPolicy(s: ParamState, bs: seq<Binding>)
    ensures Rebind(s, bs).trivialValueIsNull == s.trivialValueIsNull
    decreases |bs|
  {
    if bs != [] {
      RebindPolicy(Apply(s, bs[0]), bs[1..]);
    }
  }

  /**
   * A forced null is a state of its own: with the policy off, assigning null
   * makes the holder null although its value is not null by derivation, and
   * the next value assignment recomputes the flag.
   */
  lemma ForcedNullIsDistinct(s: ParamState, v: bool)
    requires !s.trivialValueIsNull
    ensures WithNull(s).isNull && !DerivedNull(s.trivialValueIsNull, WithNull(s).value)
    ensures !WithValue(WithNull(s), v).isNull
  {
  }

  class Parameter {
    var trivialValueIsNull: bool
    var value: bool
    var isNull: bool

    function State(): ParamState
      reads this
    {
      ParamState(trivialValueIsNull, value, isNull)
    }

    predicate Valid()
      reads this
    {
      Inv(State())
    }

    /** `_parameter_t(const std::true_type&)`: trivial values mean null. */
    constructor TrivialIsNull()
      ensures State() == Initial(true)
      ensures Valid()
    {
      trivialValueIsNull := true;
      value := false;
      isNull := DerivedNull(true, false);
    }

    /** `_parameter_t(const std::false_type&)`: trivial values are ordinary values. */
    constructor TrivialIsNotNull()
      ensures State() == Initial(false)
      ensures Valid()
    {
      trivialValueIsNull := false;
      value := false;
      isNull := DerivedNull(false, false);
    }

    /** `operator=(const bool&)`: store the value and recompute the null flag. */
    method AssignValue(v: bool)
      modifies this`value, this`isNull
      ensures State() == WithValue(old(State()), v)
      ensures Valid()
    {
      value := v;
      isNull := DerivedNull(trivialValueIsNull, value);
    }

    /** `operator=(const std::nullptr_t&)`: force null and reset the value. */
    method AssignNull()
      modifies this`value, this`isNull
      ensures State() == WithNull(old(State()))
      ensures Valid()
    {
      value := false;
      isNull := true;
    }

    /** `is_null()`: never fails. */
    method IsNull() returns (r: bool)
      ensures r == isNull
      ensures Valid() && r ==> value == false
    {
      r := isNull;
    }

    /** `value()`: never fails, and gives the trivial value when the holder is null. */
    method Value() returns (v: bool)
      ensures v == value
      ensures Valid() && isNull ==> v == false
      ensures Valid() && trivialValueIsNull && v == false ==> isNull
    {
      v := value;
    }
  }
}

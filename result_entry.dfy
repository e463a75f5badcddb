/**
 * The result decoder of the boolean domain (`boolean::_result_entry_t`):
 * one column of the current row, with row validity and column nullability
 * tracked apart.
 */
module BooleanResultEntry {
  import opened Wrappers

  /** A raw column as the driver hands it over: `None` is the null pointer. */
  type Column = Option<seq<char>>

  /** The one runtime failure of the core: reading a column when there is no row. */
  datatype AccessError = NonExistingRow(message: string)

  const IsNullOnMissingRow: string := "accessing is_null in non-existing row"
  const ValueOnMissingRow: string := "accessing value in non-existing row"

  /** The three fields of a decoder, as a value. */
  datatype EntryState = EntryState(isValid: bool, isNull: bool, value: bool)

  /** The default-constructed decoder: no row yet. */
  const NoRow: EntryState := EntryState(false, true, false)

  /**
   * The byte at index 0 of the buffer the driver points to.  The length the
   * driver passes is not read, so an empty column shows its terminating NUL.
   */
  function FirstByte(s: seq<char>): char {
    if |s| == 0 then '\0' else s[0]
  }

  /**
   * The decoding rule: a present column is true exactly when its first byte
   * is 't' or '1'; an absent column decodes to `false`.
   */
  function Decode(data: Column): (v: bool)
    ensures v <==> data.Some? && |data.value| > 0 && (data.value[0] == 't' || data.value[0] == '1')
  {
    if data.None? then false else FirstByte(data.value) == 't' || FirstByte(data.value) == '1'
  }

  /** The state built by `_result_entry_t(data, size)` and by `assign(data, size)`. */
  function Fetched(data: Column): (s: EntryState)
    ensures s.isValid
    ensures s.isNull <==> data.None?
    ensures s.isNull ==> !s.value
  {
    EntryState(true, data.None?, Decode(data))
  }

  /** `is_null()`: fails when no row is valid. */
  function IsNullOf(s: EntryState): (r: Result<bool, AccessError>)
    ensures r.Failure? <==> !s.isValid
    ensures r.Success? ==> r.value == s.isNull
    ensures r.Failure? ==> r.error.message == IsNullOnMissingRow
  {
    if !s.isValid then Failure(NonExistingRow(IsNullOnMissingRow)) else Success(s.isNull)
  }

  /** `value()`: fails when no row is valid. */
  function ValueOf(s: EntryState): (r: Result<bool, AccessError>)
    ensures r.Failure? <==> !s.isValid
    ensures r.Success? ==> r.value == s.value
    ensures r.Failure? ==> r.error.message == ValueOnMissingRow
  {
    if !s.isValid then Failure(NonExistingRow(ValueOnMissingRow)) else Success(s.value)
  }

  /** What holds of every state a decoder can reach. */
  predicate Inv(s: EntryState) {
    (!s.isValid ==> s.isNull && !s.value) && (s.isNull ==> !s.value)
  }

  /** What happens to a decoder as its cursor moves: a row is fetched, or there are no more rows. */
  datatype RowEvent = Fetch(data: Column) | Exhausted

  function Step(s: EntryState, e: RowEvent): EntryState {
    match e
    case Fetch(data) => Fetched(data)
    case Exhausted => NoRow
  }

  /** The state after the events `es`, in order. */
  function Replay(s: EntryState, es: seq<RowEvent>): EntryState
    decreases |es|
  {
    if es == [] then s else Replay(Step(s, es[0]), es[1..])
  }

  lemma {:induction false} ReplayPreservesInv(s: EntryState, es: seq<RowEvent>)
    requires Inv(s)
    ensures Inv(Replay(s, es))
    decreases |es|
  {
    if es != [] {
      ReplayPreservesInv(Step(s, es[0]), es[1..]);
    }
  }

  /** The states a decoder reaches from `NoRow` are exactly those satisfying `Inv`. */
  lemma ReachableIffInv(s: EntryState)
    ensures Inv(s) <==> exists es :: Replay(NoRow, es) == s
  {
    if Inv(s) {
      var es := if !s.isValid then []
                else if s.isNull then [Fetch(None)]
                else if s.value then [Fetch(Some("t"))]
                else [Fetch(Some("f"))];
      assert es != [] ==> es[1..] == [];
      assert Replay(NoRow, es) == s;
    }
    if exists es :: Replay(NoRow, es) == s {
      var es :| Replay(NoRow, es) == s;
      ReplayPreservesInv(NoRow, es);
    }
  }

  /**
   * A decoder keeps no history: after a non-empty run of events its state is
   * what the last event alone makes of it.
   */
  lemma {:induction false} LastEventDecides(s: EntryState, es: seq<RowEvent>)
    requires es != []
    ensures Replay(s, es) == Step(NoRow, es[|es| - 1])
    decreases |es|
  {
    if |es| > 1 {
      LastEventDecides(Step(s, es[0]), es[1..]);
    }
  }

  /** After a fetch both accessors succeed and report the decoded column. */
  lemma FetchedAccessors(data: Column)
    ensures IsNullOf(Fetched(data)) == Success(data.None?)
    ensures ValueOf(Fetched(data)) == Success(data.Some? && |data.value| > 0 && data.value[0] in "t1")
  {
  }

  /** A null column reads as `false`; a valid row with `false` may be null or not. */
  lemma NullReadsFalse(s: EntryState)
    requires Inv(s)
    requires IsNullOf(s) == Success(true)
    ensures ValueOf(s) == Success(false)
  {
  }

  /**
   * The decoding rule by prefixes: a present column is true exactly when it
   * starts with one of the truthy tokens "t" and "1".
   */
  lemma DecodeByPrefix(s: seq<char>)
    ensures Decode(Some(s)) <==> "t" <= s || "1" <= s
  {
  }

  /**
   * The text `std::ostream` writes for a `bool`, which is what `serialize`
   * emits: "1"/"0" by default, "true"/"false" under `std::boolalpha`.
   * Decoding that text gives the value back, in both stream modes.
   */
  function BoolText(v: bool, boolalpha: bool): (t: string)
    ensures Fetched(Some(t)) == EntryState(true, false, v)
  {
    if boolalpha then (if v then "true" else "false") else (if v then "1" else "0")
  }

  class ResultEntry {
    var isValid: bool
    var isNull: bool
    var value: bool

    function State(): EntryState
      reads this
    {
      EntryState(isValid, isNull, value)
    }

    predicate Valid()
      reads this
    {
      Inv(State())
    }

    /** `_result_entry_t()`: no row yet. */
    constructor ()
      ensures State() == NoRow
      ensures Valid()
    {
      isValid, isNull, value := false, true, false;
    }

    /** `_result_entry_t(data, size)`: the same state `assign` makes. */
    constructor FromColumn(data: Column)
      ensures State() == Fetched(data)
      ensures Valid()
    {
      isValid := true;
      isNull := data.None?;
      value := Decode(data);
    }

    /** `assign(data, size)`: take the column of a freshly fetched row. */
    method Assign(data: Column)
      modifies this
      ensures State() == Fetched(data)
      ensures Valid()
    {
      isValid := true;
      isNull := data.None?;
      value := Decode(data);
    }

    /** `invalidate()`: back to the default state, whatever the state before. */
    method Invalidate()
      modifies this
      ensures State() == NoRow
      ensures Valid()
    {
      isValid := false;
      isNull := true;
      value := false;
    }

    /** `is_null()`: throws when there is no current row. */
    method IsNull() returns (r: Result<bool, AccessError>)
      ensures r == IsNullOf(State())
    {
      if !isValid {
        return Failure(NonExistingRow(IsNullOnMissingRow));
      }
      r := Success(isNull);
    }

    /** `value()`: throws when there is no current row. */
    method Value() returns (r: Result<bool, AccessError>)
      ensures r == ValueOf(State())
    {
      if !isValid {
        return Failure(NonExistingRow(ValueOnMissingRow));
      }
      r := Success(value);
    }
  }

  /** A cursor over two rows whose column holds "t" and then null, then runs out. */
  method CursorScenario() {
    var e := new ResultEntry();
    var v := e.Value();
    assert v.Failure?;
    e.Assign(Some("t"));
    v := e.Value();
    var n := e.IsNull();
    assert v == Success(true) && n == Success(false);
    e.Assign(None);
    v := e.Value();
    n := e.IsNull();
    assert v == Success(false) && n == Success(true);
    e.Invalidate();
    v := e.Value();
    n := e.IsNull();
    assert v.Failure? && n.Failure?;
  }
}

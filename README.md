# sqlpp11 boolean domain, modelled in Dafny

This project models the boolean value domain of sqlpp11 (`include/sqlpp11/boolean.h`):

- the **parameter holder** `boolean::_parameter_t`, which carries a bound input value for a query
  placeholder together with a null flag and a "trivial value is null" policy that value and null assignments never change
  (`BooleanParameter.Parameter`, specified by the pure state functions `Initial`, `WithValue`, `WithNull`);
- the **result decoder** `boolean::_result_entry_t`, which carries one column of the current row with a
  row-validity flag and a null flag, decodes the raw column text, and fails with a "non-existing row"
  error when read without a row (`BooleanResultEntry.ResultEntry`, specified by `Fetched`, `NoRow`,
  `IsNullOf`, `ValueOf`);
- the **operator layer**: the `and_`/`or_` tags with their names and value type, and `operator and`,
  `operator or`, `operator not`, which wrap their operands into new expression nodes without evaluating
  anything (`BooleanOperators`).

The classes hold the source's fields and update them in place; each method is proved against a pure
function of the old state. The lemmas then state what the source promises about those functions.
Reachability is modelled as a sequence of re-bindings (`Binding`) for the holder and as a sequence of
row events (`RowEvent`: a fetch, or the cursor running out) for the decoder. For both, the states
reachable from construction through these operations are exactly those satisfying `Inv`. For the
decoder this covers a decoder driven by its constructors, `assign` and `invalidate` only: a driver that
writes through the pointers `bind` hands out can reach states outside `Inv` (see "## Left out").

A raw column is `Option<seq<char>>`: `None` is the driver's null pointer. The source reads `data[0]` and
ignores the length argument. Assuming the driver passes a NUL-terminated buffer, an empty column shows
its terminating NUL there and decodes to `false` (`FirstByte`). The exception of the accessors is a `Result` failure carrying the source's message.

## Model

| member | source | states |
|---|---|---|
| BooleanParameter.TrivialValueIsFalse | include/sqlpp11/boolean.h:102 | `_is_trivial` holds exactly of `false`, so a value is null by derivation iff the policy is on and the value is `false` |
| BooleanParameter.Initial | include/sqlpp11/boolean.h:65-75 | a new holder has value `false`, keeps the policy it was given, and is null exactly when that policy is "trivial is null" |
| BooleanParameter.WithValue | include/sqlpp11/boolean.h:82-87 | assigning `v` stores `v`, leaves the policy unchanged, and makes the holder null iff the policy is on and `v` is the trivial value `false` |
| BooleanParameter.WithNull | include/sqlpp11/boolean.h:89-94 | assigning null gives value `false` and null `true` whatever the prior state, with the policy untouched |
| BooleanParameter.RebindPreservesInv | include/sqlpp11/boolean.h:82-94 | every sequence of value and null assignments keeps the invariant "null implies `false`, and `false` under the policy implies null" |
| BooleanParameter.RebindPolicy | include/sqlpp11/boolean.h:82-94 | no sequence of value and null assignments changes the policy set at construction |
| BooleanParameter.ReachableIffInv | include/sqlpp11/boolean.h:65-94 | a state is reachable from construction with its policy iff it satisfies the invariant (both directions) |
| BooleanParameter.RebindSnoc | include/sqlpp11/boolean.h:82-94 | the state after `bs + [b]` is assignment `b` applied to the state after `bs` |
| BooleanParameter.LastBindingDecides | include/sqlpp11/boolean.h:82-94 | value and null flag depend only on the policy and the last assignment; the null flag is recomputed, never stale |
| BooleanParameter.ForcedNullIsDistinct | include/sqlpp11/boolean.h:89-94 | with the policy off, a null assignment makes a null that the value alone would not derive, and the next value assignment clears it |
| BooleanParameter.Parameter.TrivialIsNull | include/sqlpp11/boolean.h:65-69 | builds the initial state for policy on: value `false`, null |
| BooleanParameter.Parameter.TrivialIsNotNull | include/sqlpp11/boolean.h:71-75 | builds the initial state for policy off: value `false`, not null |
| BooleanParameter.Parameter.AssignValue | include/sqlpp11/boolean.h:82-87 | changes only value and null flag, to the state `WithValue` gives, and keeps `Valid()` |
| BooleanParameter.Parameter.AssignNull | include/sqlpp11/boolean.h:89-94 | changes only value and null flag, to the state `WithNull` gives, and keeps `Valid()` |
| BooleanParameter.Parameter.IsNull | include/sqlpp11/boolean.h:104-107 | never fails and returns the stored null flag; on a valid holder a null result means the value is `false` |
| BooleanParameter.Parameter.Value | include/sqlpp11/boolean.h:109-112 | never fails and returns the stored value, which is `false` when the holder is null |
| BooleanResultEntry.Decode | include/sqlpp11/boolean.h:133 | a column decodes to true iff it is present, non-empty and starts with 't' or '1' |
| BooleanResultEntry.Fetched | include/sqlpp11/boolean.h:130-141 | after a fetch the decoder is valid, null iff the column is absent, and a null column reads `false` |
| BooleanResultEntry.IsNullOf | include/sqlpp11/boolean.h:158-163 | `is_null` fails with "accessing is_null in non-existing row" iff no row is valid, and otherwise returns the null flag |
| BooleanResultEntry.ValueOf | include/sqlpp11/boolean.h:165-170 | `value` fails with "accessing value in non-existing row" iff no row is valid, and otherwise returns the value |
| BooleanResultEntry.ReplayPreservesInv | include/sqlpp11/boolean.h:124-148 | every sequence of fetches and invalidations keeps "not valid implies null and `false`" and "null implies `false`" |
| BooleanResultEntry.ReachableIffInv | include/sqlpp11/boolean.h:124-148 | a decoder state is reachable from the default state iff it satisfies the invariant (both directions) |
| BooleanResultEntry.LastEventDecides | include/sqlpp11/boolean.h:136-148 | after a non-empty run of fetches and invalidations the state is what the last event alone makes; invalidating is idempotent |
| BooleanResultEntry.FetchedAccessors | include/sqlpp11/boolean.h:130-170 | after a fetch both accessors succeed, reporting absence as null and the decoded value |
| BooleanResultEntry.NullReadsFalse | include/sqlpp11/boolean.h:136-141 | on any reachable decoder, a successful null reading implies the value reads `false` |
| BooleanResultEntry.DecodeByPrefix | include/sqlpp11/boolean.h:140 | a present column is true iff it has "t" or "1" as a prefix |
| BooleanResultEntry.BoolText | include/sqlpp11/boolean.h:150-154 | decoding the text serialized for `v`, with or without `std::boolalpha`, gives a valid, non-null decoder holding `v` |
| BooleanResultEntry.ResultEntry.constructor | include/sqlpp11/boolean.h:124-128 | the default decoder is not valid, null and `false` |
| BooleanResultEntry.ResultEntry.FromColumn | include/sqlpp11/boolean.h:130-134 | construction from a column gives the same state as `assign` |
| BooleanResultEntry.ResultEntry.Assign | include/sqlpp11/boolean.h:136-141 | sets the fields to the state `Fetched` gives for the column and keeps `Valid()` |
| BooleanResultEntry.ResultEntry.Invalidate | include/sqlpp11/boolean.h:143-148 | returns the decoder to exactly the default state from any state |
| BooleanResultEntry.ResultEntry.IsNull | include/sqlpp11/boolean.h:158-163 | returns what `IsNullOf` gives for the current state, failing when no row is valid |
| BooleanResultEntry.ResultEntry.Value | include/sqlpp11/boolean.h:165-170 | returns what `ValueOf` gives for the current state, failing when no row is valid |
| BooleanOperators.TagNames | include/sqlpp11/boolean.h:43-49 | the `_name` of `and_` is "AND" and of `or_` is "OR"; the two tokens differ, so a token identifies its tag |
| BooleanOperators.TagValueTypes | include/sqlpp11/boolean.h:42-48 | the `_value_type` of both tags is boolean, so every node they tag is of the boolean domain |
| BooleanOperators.MakeAnd | include/sqlpp11/boolean.h:192-197 | builds an "AND" node holding both operands unchanged, boolean and single-valued, well formed iff its operands are, with the operands in order |
| BooleanOperators.MakeOr | include/sqlpp11/boolean.h:199-204 | builds an "OR" node holding both operands unchanged, boolean and single-valued, well formed iff its operands are, with the operands in order |
| BooleanOperators.MakeNot | include/sqlpp11/boolean.h:206-210 | builds a negation node holding its operand unchanged, boolean and single-valued, well formed iff its operand is |

## Left out

- The `_parameter_t(const bool&)` constructor (lines 77-80): it never initialises the policy field and
  then reads it, which is undefined behaviour in C++, so it has no behaviour to model.
- `serialize` and `operator<<` (lines 96-100, 150-154, 214-217): the stream write and the dialect
  object are not modelled; only the text a `bool` becomes on a `std::ostream` (`BoolText`) is, to state
  the decode round trip.
- `bind` (lines 174-178): a call into the driver that hands it pointers to `_value` and `_is_null`.
  Writes through those pointers are not modelled. They leave `_is_valid` as it was and skip the decode
  of line 140, so they can reach states outside `Inv` (a default decoder written to becomes not valid,
  not null and `true`). `ReplayPreservesInv`, `ReachableIffInv` and `NullReadsFalse` cover only decoders
  driven by the constructors, `assign` and `invalidate`.
- Decode: assumes the driver passes a NUL-terminated buffer; if a zero-length column has no terminator,
  the source reads `data[0]` past the end of the column, which the model does not capture.
- The implicit copy and move constructors and assignment operators of `_parameter_t` and
  `_result_entry_t`: C++ generates them, and copy assignment also copies the policy field, so a holder's
  policy is fixed only with respect to value and null assignments. They are not modelled.
- The implicit conversions to `bool` (lines 114 and 172): they are `value()` under another name.
- `_result_entry_t::_is_trivial` (line 156): unused in this header; it is `value() == false` and fails
  like `value()`.
- The compile-time machinery (`operand_t`, `_constraint`, `basic_operators`, `binary_expression_t`,
  `not_t`, `is_multi_expression_t`, `static_assert`): these are type-level checks in headers that are not
  part of this model. They appear as the preconditions of `MakeAnd`, `MakeOr` and `MakeNot`. Only the left
  operand of `and`/`or` is checked for being a multi-expression, as in the source.
- IsMultiExpression: assumes that nodes built by these operators are never multi-expressions, because
  the classification lives in `type_traits.h`, which is not part of this model.
- The `exception` class: it is modelled only as the `AccessError` value with the source's message.

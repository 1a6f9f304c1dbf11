/**
 buildHistoryFilters: the WHERE clause and its positional parameters, pushed side by side.
 Read with those parameters, the clause means what Transactions.Matches says.
 */
module HistoryFilters {
  import opened Options
  import opened Transactions

  datatype Column = UserId | MerchantId | TxType | StatusColumn | CreatedAt

  datatype Operator = Equal | AtLeast | AtMost

  datatype Value = Number(n: int) | KindValue(kind: Kind) | StatusValue(status: Status)

  /** A comparison with parameter $n, counted from 1, or a test of reconciled_at for NULL. */
  datatype Condition = Compare(column: Column, op: Operator, param: nat) | ReconciledIs(isSet: bool)

  /** A column's value in a row; None is NULL. */
  function ColumnValue(r: Row, column: Column): Option<Value> {
    match column
    case UserId => if r.user.Some? then Some(Number(r.user.value)) else None
    case MerchantId => if r.merchant.Some? then Some(Number(r.merchant.value)) else None
    case TxType => Some(KindValue(r.kind))
    case StatusColumn => Some(StatusValue(r.status))
    case CreatedAt => Some(Number(r.createdAt))
  }

  /** A comparison with NULL is not true. */
  predicate Holds(r: Row, params: seq<Value>, condition: Condition) {
    match condition
    case ReconciledIs(isSet) => r.reconciled == isSet
    case Compare(column, op, param) =>
      var left := ColumnValue(r, column);
      1 <= param <= |params| && left.Some? &&
      match op
      case Equal => left.value == params[param - 1]
      case AtLeast => left.value.Number? && params[param - 1].Number? && left.value.n >= params[param - 1].n
      case AtMost => left.value.Number? && params[param - 1].Number? && left.value.n <= params[param - 1].n
  }

  predicate AllHold(r: Row, params: seq<Value>, conditions: seq<Condition>) {
    forall i :: 0 <= i < |conditions| ==> Holds(r, params, conditions[i])
  }

  /** Every placeholder has its parameter. */
  predicate Numbered(params: seq<Value>, conditions: seq<Condition>) {
    forall i :: 0 <= i < |conditions| && conditions[i].Compare? ==> 1 <= conditions[i].param <= |params|
  }

  datatype Clause = Clause(conditions: seq<Condition>, params: seq<Value>)

  /** params.push(value), then a condition on $n with n the new number of parameters. */
  function Push(c: Clause, column: Column, op: Operator, value: Option<Value>): Clause {
    if value.None? then c
    else Clause(c.conditions + [Compare(column, op, |c.params| + 1)], c.params + [value.value])
  }

  /** What a pushed comparison asks of a row. */
  predicate Asks(r: Row, column: Column, op: Operator, value: Option<Value>) {
    value.Some? ==> Holds(r, [value.value], Compare(column, op, 1))
  }

  /** Pushing leaves the earlier conditions with their own parameters, and adds the new one with its own. */
  lemma PushMeans(c: Clause, column: Column, op: Operator, value: Option<Value>, r: Row)
    requires Numbered(c.params, c.conditions)
    ensures var d := Push(c, column, op, value);
            && Numbered(d.params, d.conditions)
            && (AllHold(r, d.params, d.conditions) <==>
                AllHold(r, c.params, c.conditions) && Asks(r, column, op, value))
  {
    var d := Push(c, column, op, value);
    if value.Some? {
      forall i | 0 <= i < |c.conditions|
        ensures Holds(r, d.params, d.conditions[i]) == Holds(r, c.params, c.conditions[i])
      {
        assert d.conditions[i] == c.conditions[i];
      }
      assert Holds(r, d.params, d.conditions[|c.conditions|]) == Asks(r, column, op, value);
      assert forall i :: 0 <= i < |c.conditions| ==> d.conditions[i] == c.conditions[i];
    }
  }

  function AsNumber(n: Option<int>): Option<Value> {
    if n.Some? then Some(Number(n.value)) else None
  }

  function AsKind(kind: Option<Kind>): Option<Value> {
    if kind.Some? then Some(KindValue(kind.value)) else None
  }

  function AsStatus(status: Option<Status>): Option<Value> {
    if status.Some? then Some(StatusValue(status.value)) else None
  }

  /** The comparisons, in the order they are pushed. */
  function Comparisons(f: Filter): Clause {
    var c1 := Push(Clause([], []), UserId, Equal, AsNumber(f.user));
    var c2 := Push(c1, MerchantId, Equal, AsNumber(f.merchant));
    var c3 := Push(c2, TxType, Equal, AsKind(f.kind));
    var c4 := Push(c3, StatusColumn, Equal, AsStatus(f.status));
    var c5 := Push(c4, CreatedAt, AtLeast, AsNumber(f.start));
    Push(c5, CreatedAt, AtMost, AsNumber(f.end))
  }

  lemma AsksMeansMatches(f: Filter, r: Row)
    ensures Matches(f.(reconciled := None), r) <==>
            && Asks(r, UserId, Equal, AsNumber(f.user)) && Asks(r, MerchantId, Equal, AsNumber(f.merchant))
            && Asks(r, TxType, Equal, AsKind(f.kind)) && Asks(r, StatusColumn, Equal, AsStatus(f.status))
            && Asks(r, CreatedAt, AtLeast, AsNumber(f.start)) && Asks(r, CreatedAt, AtMost, AsNumber(f.end))
  {
  }

  lemma ComparisonsMeanMatches(f: Filter, r: Row)
    ensures var c := Comparisons(f);
            && Numbered(c.params, c.conditions)
            && (AllHold(r, c.params, c.conditions) <==> Matches(f.(reconciled := None), r))
  {
    var c0 := Clause([], []);
    var c1 := Push(c0, UserId, Equal, AsNumber(f.user));
    var c2 := Push(c1, MerchantId, Equal, AsNumber(f.merchant));
    var c3 := Push(c2, TxType, Equal, AsKind(f.kind));
    var c4 := Push(c3, StatusColumn, Equal, AsStatus(f.status));
    var c5 := Push(c4, CreatedAt, AtLeast, AsNumber(f.start));
    PushMeans(c0, UserId, Equal, AsNumber(f.user), r);
    PushMeans(c1, MerchantId, Equal, AsNumber(f.merchant), r);
    PushMeans(c2, TxType, Equal, AsKind(f.kind), r);
    PushMeans(c3, StatusColumn, Equal, AsStatus(f.status), r);
    PushMeans(c4, CreatedAt, AtLeast, AsNumber(f.start), r);
    PushMeans(c5, CreatedAt, AtMost, AsNumber(f.end), r);
    AsksMeansMatches(f, r);
  }

  /** The whole clause, with the test of reconciled_at, which needs no parameter. */
  function BuildHistoryFilters(f: Filter): Clause {
    var c := Comparisons(f);
    if f.reconciled.Some? then Clause(c.conditions + [ReconciledIs(f.reconciled.value)], c.params) else c
  }

  /** Every placeholder has its parameter, and the rows the clause selects are exactly the matching ones. */
  lemma ClauseMeansMatches(f: Filter, r: Row)
    ensures var c := BuildHistoryFilters(f);
            Numbered(c.params, c.conditions) && (AllHold(r, c.params, c.conditions) <==> Matches(f, r))
  {
    ComparisonsMeanMatches(f, r);
    if f.reconciled.Some? {
      LastCondition(r, Comparisons(f), ReconciledIs(f.reconciled.value));
    }
  }

  lemma LastCondition(r: Row, c: Clause, last: Condition)
    ensures AllHold(r, c.params, c.conditions + [last]) <==>
            AllHold(r, c.params, c.conditions) && Holds(r, c.params, last)
  {
    var all := c.conditions + [last];
    assert all[|c.conditions|] == last;
    assert forall i :: 0 <= i < |c.conditions| ==> all[i] == c.conditions[i];
  }
}

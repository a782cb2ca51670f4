/** The six aggregates every summary table computes for a group of accounts
    (`count`, managed count and the four money sums), one per group key, and
    the fact that adding them up over all groups gives the kept rows' sums. */
module Summary {
  import opened Records
  import opened Grouping
  import opened Ordering

  datatype Totals = Totals(accounts: nat, managed: nat, debt: real, recPlanillas: real,
                           adminFee: real, recGastos: real)
  {
    /** The aggregate that sums measure `m`. */
    function Get(m: Measure): real {
      match m
      case Rows => accounts as real
      case ManagedRows => managed as real
      case Debt => debt
      case AdminFee => adminFee
      case RecPlanillas => recPlanillas
      case RecGastos => recGastos
    }
  }

  /** The `agg(...)` of one group. */
  function Aggregate(g: seq<Account>): (t: Totals)
    ensures t.accounts == |g| && t.managed <= t.accounts
    ensures forall m :: t.Get(m) == Sum(g, m)
  {
    SumRowsIsCount(g);
    Totals(|g|, CountManaged(g), Sum(g, Debt), Sum(g, RecPlanillas), Sum(g, AdminFee), Sum(g, RecGastos))
  }

  /** One aggregate per key, in key order. */
  function GroupTotals(rows: seq<Account>, k: Key, ks: seq<string>): (ts: seq<Totals>)
    ensures |ts| == |ks|
    ensures forall i :: 0 <= i < |ks| ==> ts[i] == Aggregate(Group(rows, k, ks[i]))
  {
    seq(|ks|, i requires 0 <= i < |ks| => Aggregate(Group(rows, k, ks[i])))
  }

  /** A column of aggregates added up. */
  function Column(ts: seq<Totals>, m: Measure): real {
    if |ts| == 0 then 0.0 else ts[0].Get(m) + Column(ts[1..], m)
  }

  /** The count columns added up as integers, as the TOTAL rows do. */
  function AccountsColumn(ts: seq<Totals>): (n: nat)
    ensures n as real == Column(ts, Rows)
  {
    if |ts| == 0 then 0 else ts[0].accounts + AccountsColumn(ts[1..])
  }

  function ManagedColumn(ts: seq<Totals>): (n: nat)
    ensures n as real == Column(ts, ManagedRows)
  {
    if |ts| == 0 then 0 else ts[0].managed + ManagedColumn(ts[1..])
  }

  lemma {:induction false} ManagedBelowAccounts(ts: seq<Totals>)
    requires forall i :: 0 <= i < |ts| ==> ts[i].managed <= ts[i].accounts
    ensures ManagedColumn(ts) <= AccountsColumn(ts)
  {
    if |ts| > 0 {
      assert forall i :: 0 <= i < |ts[1..]| ==> ts[1..][i] == ts[i + 1];
      ManagedBelowAccounts(ts[1..]);
    }
  }

  lemma {:induction false} ColumnOverKeys(rows: seq<Account>, k: Key, ks: seq<string>, m: Measure)
    ensures Column(GroupTotals(rows, k, ks), m) == SumOverKeys(ks, rows, k, m)
  {
    if |ks| > 0 {
      ColumnOverKeys(rows, k, ks[1..], m);
      assert GroupTotals(rows, k, ks)[1..] == GroupTotals(rows, k, ks[1..]);
    }
  }

  /** The per-group aggregates of `groupby` add up to the sums over the rows
      it keeps, for every measure. */
  lemma GroupColumns(rows: seq<Account>, k: Key, m: Measure)
    ensures Column(GroupTotals(rows, k, GroupKeys(rows, k)), m) == Sum(Keyed(rows, k), m)
  {
    ColumnOverKeys(rows, k, GroupKeys(rows, k), m);
    GroupsPartitionKeyed(rows, k, m);
  }

  /** The same, with the rows `groupby` drops added back: the whole-table sum. */
  lemma GroupColumnsAndDropped(rows: seq<Account>, k: Key, m: Measure)
    ensures Sum(rows, m) == Column(GroupTotals(rows, k, GroupKeys(rows, k)), m) + Sum(Unkeyed(rows, k), m)
  {
    GroupColumns(rows, k, m);
    SumSplit(rows, k, m);
  }
}

/** The row shape shared by the advisor and priority tables: the two counts,
    `%Gestion` as a whole percent, and the four money sums rounded to whole
    soles (`int(round(x))`), with the groups sorted by key descending. */
module RoundedTable {
  import opened Records
  import opened Numbers
  import opened Text
  import opened Grouping
  import opened Summary
  import opened Ordering

  datatype Row = Row(key: string, accounts: nat, managed: nat, pctManaged: int,
                     debt: int, recPlanillas: int, adminFee: int, recGastos: int)
  {
    /** The column that shows measure `m`. */
    function Get(m: Measure): int {
      match m
      case Rows => accounts
      case ManagedRows => managed
      case Debt => debt
      case AdminFee => adminFee
      case RecPlanillas => recPlanillas
      case RecGastos => recGastos
    }
  }

  /** `int(round(num / den * 100)) if den > 0 else 0`. */
  function WholePercent(num: int, den: int): (p: int)
    ensures den > 0 ==> -0.5 <= Pct(num as real, den as real) - p as real <= 0.5
    ensures den <= 0 ==> p == 0
  {
    if den > 0 then RoundHalfEven(Pct(num as real, den as real)) else 0
  }

  /** `%Gestion`: the managed share as a whole percent. */
  function ManagedPercent(managed: nat, accounts: nat): (p: int)
    requires managed <= accounts
    ensures p == WholePercent(managed, accounts)
    ensures 0 <= p <= 100
    ensures accounts > 0 && managed == accounts ==> p == 100
  {
    PctBounds(managed as real, accounts as real);
    WholePercent(managed, accounts)
  }

  /** One displayed row from its group's aggregates: counts exact, money
      within half a sol. */
  function MakeRow(key: string, t: Totals): (r: Row)
    requires t.managed <= t.accounts
    ensures r.key == key && r.accounts == t.accounts && r.managed == t.managed
    ensures r.pctManaged == ManagedPercent(t.managed, t.accounts)
    ensures forall m: Measure :: !m.IsMoney() ==> r.Get(m) as real == t.Get(m)
    ensures forall m: Measure :: m.IsMoney() ==> -0.5 <= t.Get(m) - r.Get(m) as real <= 0.5
  {
    Row(key, t.accounts, t.managed, ManagedPercent(t.managed, t.accounts),
        RoundHalfEven(t.debt), RoundHalfEven(t.recPlanillas), RoundHalfEven(t.adminFee), RoundHalfEven(t.recGastos))
  }

  /** `groupby(key)` aggregated and formatted, in `groupby` order (keys ascending). */
  function AscendingRows(rows: seq<Account>, k: Key): (t: seq<Row>)
    ensures |t| == |GroupKeys(rows, k)|
    ensures forall i :: 0 <= i < |t| ==>
              t[i] == MakeRow(GroupKeys(rows, k)[i], GroupTotals(rows, k, GroupKeys(rows, k))[i])
    ensures forall i :: 0 <= i < |t| ==>
              t[i].accounts == |Group(rows, k, t[i].key)| > 0
              && t[i].managed == CountManaged(Group(rows, k, t[i].key))
  {
    var ks := GroupKeys(rows, k);
    var gs := GroupTotals(rows, k, ks);
    seq(|ks|, i requires 0 <= i < |ks| => MakeRow(ks[i], gs[i]))
  }

  /** ... then `sort_values(key, ascending=False)`. */
  function DescendingRows(rows: seq<Account>, k: Key): (t: seq<Row>)
    ensures |t| == |GroupKeys(rows, k)|
    ensures forall i :: 0 <= i < |t| ==> t[i].key == GroupKeys(rows, k)[|t| - 1 - i]
    ensures forall i, j :: 0 <= i < j < |t| ==> Less(t[j].key, t[i].key)
    ensures forall i :: 0 <= i < |t| ==>
              t[i] == MakeRow(t[i].key, GroupTotals(rows, k, GroupKeys(rows, k))[|t| - 1 - i])
    ensures forall i :: 0 <= i < |t| ==>
              t[i].accounts == |Group(rows, k, t[i].key)| > 0
              && t[i].managed == CountManaged(Group(rows, k, t[i].key))
  {
    var a := AscendingRows(rows, k);
    ReversedRows(a, GroupKeys(rows, k), GroupTotals(rows, k, GroupKeys(rows, k)));
    Reverse(a)
  }

  /** Rows made from ascending keys, reversed: keys descend and each row
      keeps its own aggregate. */
  lemma ReversedRows(a: seq<Row>, ks: seq<string>, gs: seq<Totals>)
    requires |a| == |ks| == |gs| && Ascending(ks)
    requires forall i :: 0 <= i < |a| ==> gs[i].managed <= gs[i].accounts && a[i] == MakeRow(ks[i], gs[i])
    ensures var t := Reverse(a);
            && (forall i :: 0 <= i < |t| ==> t[i] == a[|a| - 1 - i] && t[i].key == ks[|t| - 1 - i])
            && (forall i, j :: 0 <= i < j < |t| ==> Less(t[j].key, t[i].key))
            && (forall i :: 0 <= i < |t| ==> t[i] == MakeRow(t[i].key, gs[|t| - 1 - i]))
  {
    var t := Reverse(a);
    forall i, j | 0 <= i < j < |a| ensures Less(t[j].key, t[i].key) {
      assert t[j].key == ks[|a| - 1 - j] && t[i].key == ks[|a| - 1 - i];
    }
  }

  /** A displayed column added up as integers. */
  function Shown(t: seq<Row>, m: Measure): (n: int)
    ensures !m.IsMoney() ==> n >= 0
  {
    if |t| == 0 then 0 else t[0].Get(m) + Shown(t[1..], m)
  }

  lemma {:induction false} ColumnLast(t: seq<Row>, m: Measure)
    requires |t| > 0
    ensures Shown(t, m) == Shown(t[..|t| - 1], m) + t[|t| - 1].Get(m)
  {
    if |t| > 1 {
      assert t[1..][..|t| - 2] == t[..|t| - 1][1..];
      ColumnLast(t[1..], m);
    }
  }

  /** Rows equal to their aggregates, in reverse order, add up to the
      aggregates' sum. */
  lemma {:induction false} ReversedColumnExact(t: seq<Row>, gs: seq<Totals>, m: Measure)
    requires |t| == |gs|
    requires forall i :: 0 <= i < |t| ==> gs[|gs| - 1 - i].Get(m) == t[i].Get(m) as real
    ensures Summary.Column(gs, m) == Shown(t, m) as real
  {
    if |t| > 0 {
      var n := |t|;
      var t', gs' := t[..n - 1], gs[1..];
      assert forall i :: 0 <= i < n - 1 ==> t'[i] == t[i];
      assert forall i :: 0 <= i < n - 1 ==> gs'[i] == gs[i + 1];
      ReversedColumnExact(t', gs', m);
      ColumnLast(t, m);
    }
  }

  /** Rows each within half a sol of their aggregates, in reverse order, add
      up to within `|t| / 2` soles of the aggregates' sum. */
  lemma {:induction false} ReversedColumnRounded(t: seq<Row>, gs: seq<Totals>, m: Measure)
    requires |t| == |gs|
    requires forall i :: 0 <= i < |t| ==> -0.5 <= gs[|gs| - 1 - i].Get(m) - t[i].Get(m) as real <= 0.5
    ensures -(|t| as real) / 2.0 <= Summary.Column(gs, m) - Shown(t, m) as real <= (|t| as real) / 2.0
  {
    if |t| > 0 {
      var n := |t|;
      var t', gs' := t[..n - 1], gs[1..];
      assert forall i :: 0 <= i < n - 1 ==> t'[i] == t[i];
      assert forall i :: 0 <= i < n - 1 ==> gs'[i] == gs[i + 1];
      ReversedColumnRounded(t', gs', m);
      ColumnLast(t, m);
    }
  }

  /** Each displayed row against its group's aggregates: counts exact,
      money within half a sol. */
  lemma DescendingMatches(rows: seq<Account>, k: Key, m: Measure)
    ensures var t, gs := DescendingRows(rows, k), GroupTotals(rows, k, GroupKeys(rows, k));
            forall i :: 0 <= i < |t| ==>
              if m.IsMoney() then -0.5 <= gs[|gs| - 1 - i].Get(m) - t[i].Get(m) as real <= 0.5
              else gs[|gs| - 1 - i].Get(m) == t[i].Get(m) as real
  {
    var t, gs := DescendingRows(rows, k), GroupTotals(rows, k, GroupKeys(rows, k));
    ReversedMatches(t, gs, m);
  }

  /** Rows keyed by `ks` in reverse carry exactly the keys of `ks`. */
  lemma KeysReversed(t: seq<Row>, ks: seq<string>, key: string)
    requires |t| == |ks|
    requires forall i :: 0 <= i < |t| ==> t[i].key == ks[|t| - 1 - i]
    ensures (exists i :: 0 <= i < |t| && t[i].key == key) <==> key in ks
  {
    if key in ks {
      var j :| 0 <= j < |ks| && ks[j] == key;
      assert t[|t| - 1 - j].key == key;
    }
  }

  lemma ReversedMatches(t: seq<Row>, gs: seq<Totals>, m: Measure)
    requires |t| == |gs|
    requires forall i :: 0 <= i < |t| ==> gs[i].managed <= gs[i].accounts
    requires forall i :: 0 <= i < |t| ==> t[i] == MakeRow(t[i].key, gs[|gs| - 1 - i])
    ensures forall i :: 0 <= i < |t| ==>
              if m.IsMoney() then -0.5 <= gs[|gs| - 1 - i].Get(m) - t[i].Get(m) as real <= 0.5
              else gs[|gs| - 1 - i].Get(m) == t[i].Get(m) as real
  {
    forall i | 0 <= i < |t|
      ensures if m.IsMoney() then -0.5 <= gs[|gs| - 1 - i].Get(m) - t[i].Get(m) as real <= 0.5
              else gs[|gs| - 1 - i].Get(m) == t[i].Get(m) as real
    {
      RowMatches(t[i], gs[|gs| - 1 - i], m);
    }
  }

  lemma RowMatches(r: Row, g: Totals, m: Measure)
    requires g.managed <= g.accounts && r == MakeRow(r.key, g)
    ensures if m.IsMoney() then -0.5 <= g.Get(m) - r.Get(m) as real <= 0.5
            else g.Get(m) == r.Get(m) as real
  {
  }

  /** The displayed counts add up to the counts over the rows `groupby` keeps. */
  lemma CountsPartition(rows: seq<Account>, k: Key)
    ensures Shown(DescendingRows(rows, k), Rows) == |Keyed(rows, k)|
    ensures Shown(DescendingRows(rows, k), ManagedRows) == CountManaged(Keyed(rows, k))
  {
    var t, gs := DescendingRows(rows, k), GroupTotals(rows, k, GroupKeys(rows, k));
    DescendingMatches(rows, k, Rows);
    ReversedColumnExact(t, gs, Rows);
    DescendingMatches(rows, k, ManagedRows);
    ReversedColumnExact(t, gs, ManagedRows);
    GroupColumns(rows, k, Rows);
    GroupColumns(rows, k, ManagedRows);
    SumRowsIsCount(Keyed(rows, k));
  }

  /** The rounded money columns add up to within half a sol per row of the
      money over the rows `groupby` keeps. */
  lemma MoneyPartition(rows: seq<Account>, k: Key, m: Measure)
    requires m.IsMoney()
    ensures var t := DescendingRows(rows, k);
            -(|t| as real) / 2.0 <= Sum(Keyed(rows, k), m) - Shown(t, m) as real <= (|t| as real) / 2.0
  {
    var t, gs := DescendingRows(rows, k), GroupTotals(rows, k, GroupKeys(rows, k));
    DescendingMatches(rows, k, m);
    ReversedColumnRounded(t, gs, m);
    GroupColumns(rows, k, m);
  }
}

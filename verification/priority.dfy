/** "Tabla Resumen por Prioridad": the accounts of the selected campaign and
    advisor grouped by PRIORIDAD, by priority descending, followed by a TOTAL
    row. The TOTAL row is added up from the rounded whole-sol figures the
    group rows display, and when some group is itself keyed "TOTAL" the last
    group row (the smallest key, not necessarily that group) is left out. */
module PriorityTable {
  import opened Wrappers
  import opened Records
  import opened Numbers
  import opened Text
  import opened Grouping
  import opened Summary
  import opened RoundedTable

  /** The campaign radio offers "TOTAL" and every value of the column,
      missing included (`None`); the advisor box offers "TODOS" and every
      advisor. */
  predicate Selected(a: Account, campaign: Option<string>, advisor: string) {
    && (campaign == Some("TOTAL") || (campaign.Some? && a.campaign == campaign))
    && (advisor == "TODOS" || a.advisor == Some(advisor))
  }

  /** `df_filtrado`, in table order. */
  function Filter(rows: seq<Account>, campaign: Option<string>, advisor: string): (r: seq<Account>)
    ensures |r| <= |rows|
    ensures forall a :: a in r <==> a in rows && Selected(a, campaign, advisor)
  {
    if |rows| == 0 then []
    else
      var r := (if Selected(rows[0], campaign, advisor) then [rows[0]] else []) + Filter(rows[1..], campaign, advisor);
      assert forall a :: a in rows <==> a == rows[0] || a in rows[1..];
      r
  }

  /** The filter keeps each selected account as often as the table has it,
      and no other account. */
  lemma {:induction false} FilterMultiplicity(rows: seq<Account>, campaign: Option<string>, advisor: string)
    ensures forall a :: multiset(Filter(rows, campaign, advisor))[a]
                        == if Selected(a, campaign, advisor) then multiset(rows)[a] else 0
  {
    if |rows| > 0 {
      FilterMultiplicity(rows[1..], campaign, advisor);
      assert rows == [rows[0]] + rows[1..];
      assert multiset(rows) == multiset{rows[0]} + multiset(rows[1..]);
    }
  }

  /** Selecting "TOTAL" and "TODOS" keeps the whole table. */
  lemma {:induction false} FilterAll(rows: seq<Account>)
    ensures Filter(rows, Some("TOTAL"), "TODOS") == rows
  {
    if |rows| > 0 {
      FilterAll(rows[1..]);
    }
  }

  /** A row: the rounded row plus `%Rec.Planillas` and `%Rec.Gastos`. */
  datatype PriorityRow = PriorityRow(shown: Row, pctPlanillas: real, pctGastos: real)

  /** A group row's two recovery percentages come from the unrounded sums
      of its group. */
  function GroupRow(r: Row, g: seq<Account>): (p: PriorityRow)
    ensures p.shown == r
    ensures IsPct(p.pctPlanillas, Sum(g, RecPlanillas), Sum(g, Debt))
    ensures IsPct(p.pctGastos, Sum(g, RecGastos), Sum(g, AdminFee))
  {
    PriorityRow(r, Pct(Sum(g, RecPlanillas), Sum(g, Debt)), Pct(Sum(g, RecGastos), Sum(g, AdminFee)))
  }

  /** The group rows the TOTAL row adds up: all of them, or all but the last
      when some group is keyed "TOTAL" (`[:-1]`). */
  function Counted(t: seq<Row>): (c: seq<Row>)
    ensures (exists i :: 0 <= i < |t| && t[i].key == "TOTAL") ==> c == t[..|t| - 1]
    ensures (forall i :: 0 <= i < |t| ==> t[i].key != "TOTAL") ==> c == t
  {
    if exists i :: 0 <= i < |t| && t[i].key == "TOTAL" then t[..|t| - 1] else t
  }

  /** `fila_total`: the displayed integers added up, and the percentages of
      those sums. */
  function TotalRow(t: seq<Row>): (p: PriorityRow)
    ensures p.shown.key == "TOTAL"
    ensures forall m: Measure :: p.shown.Get(m) == Shown(Counted(t), m)
    ensures p.shown.pctManaged == WholePercent(p.shown.managed, p.shown.accounts)
    ensures IsPct(p.pctPlanillas, p.shown.recPlanillas as real, p.shown.debt as real)
    ensures IsPct(p.pctGastos, p.shown.recGastos as real, p.shown.adminFee as real)
  {
    var c := Counted(t);
    var q: nat, g: nat := Shown(c, Rows), Shown(c, ManagedRows);
    var debt, recP, fee, recG := Shown(c, Debt), Shown(c, RecPlanillas), Shown(c, AdminFee), Shown(c, RecGastos);
    PriorityRow(Row("TOTAL", q, g, WholePercent(g, q), debt, recP, fee, recG),
                Pct(recP as real, debt as real), Pct(recG as real, fee as real))
  }

  /** The group rows of `tabla_resumen_prioridad`: one per priority among
      the selected accounts, priority descending. */
  function Body(sel: seq<Account>): (b: seq<PriorityRow>)
    ensures |b| == |GroupKeys(sel, PriorityKey)|
    ensures forall i :: 0 <= i < |b| ==> b[i].shown == DescendingRows(sel, PriorityKey)[i]
    ensures forall i, j :: 0 <= i < j < |b| ==> Less(b[j].shown.key, b[i].shown.key)
    ensures forall i :: 0 <= i < |b| ==> b[i].shown.accounts == |Group(sel, PriorityKey, b[i].shown.key)| > 0
    ensures forall i :: 0 <= i < |b| ==>
              var g := Group(sel, PriorityKey, b[i].shown.key);
              IsPct(b[i].pctPlanillas, Sum(g, RecPlanillas), Sum(g, Debt))
              && IsPct(b[i].pctGastos, Sum(g, RecGastos), Sum(g, AdminFee))
  {
    var t := DescendingRows(sel, PriorityKey);
    seq(|t|, i requires 0 <= i < |t| => GroupRow(t[i], Group(sel, PriorityKey, t[i].key)))
  }

  /** `tabla_resumen_prioridad`: the group rows of the selected accounts,
      then the TOTAL row. */
  function Table(rows: seq<Account>, campaign: Option<string>, advisor: string): (p: seq<PriorityRow>)
    ensures var sel := Filter(rows, campaign, advisor);
            && |p| == |GroupKeys(sel, PriorityKey)| + 1
            && p[..|p| - 1] == Body(sel)
            && p[|p| - 1] == TotalRow(DescendingRows(sel, PriorityKey))
  {
    var sel := Filter(rows, campaign, advisor);
    var b := Body(sel);
    var p := b + [TotalRow(DescendingRows(sel, PriorityKey))];
    assert p[..|p| - 1] == b;
    p
  }

  /** Unless a priority is literally "TOTAL", the TOTAL row counts every
      selected account with a priority, and its money is within half a sol
      per group row of the selected accounts' money. */
  lemma TotalRowCounts(rows: seq<Account>, campaign: Option<string>, advisor: string, m: Measure)
    requires m.IsMoney()
    requires forall a :: a in rows ==> a.priority != Some("TOTAL")
    ensures var sel := Filter(rows, campaign, advisor);
            var total := TotalRow(DescendingRows(sel, PriorityKey)).shown;
            var n := |GroupKeys(sel, PriorityKey)| as real;
            && total.accounts == |Keyed(sel, PriorityKey)|
            && total.managed == CountManaged(Keyed(sel, PriorityKey))
            && -n / 2.0 <= Sum(Keyed(sel, PriorityKey), m) - total.Get(m) as real <= n / 2.0
  {
    var sel := Filter(rows, campaign, advisor);
    var t := DescendingRows(sel, PriorityKey);
    var ks := GroupKeys(sel, PriorityKey);
    NoTotalKey(sel);
    KeysReversed(t, ks, "TOTAL");
    assert Counted(t) == t;
    CountsPartition(sel, PriorityKey);
    MoneyPartition(sel, PriorityKey, m);
  }

  /** Without an account prioritised "TOTAL" there is no group keyed so. */
  lemma NoTotalKey(sel: seq<Account>)
    requires forall a :: a in sel ==> a.priority != Some("TOTAL")
    ensures "TOTAL" !in GroupKeys(sel, PriorityKey)
  {
    forall a | a in sel ensures KeyOf(a, PriorityKey) != Some("TOTAL") {
    }
  }

  /** The TOTAL row's `%Gestion` lies in 0..100. */
  lemma TotalManagedPercent(t: seq<Row>)
    requires forall i :: 0 <= i < |t| ==> t[i].managed <= t[i].accounts
    ensures 0 <= TotalRow(t).shown.pctManaged <= 100
  {
    var c := Counted(t);
    assert forall i :: 0 <= i < |c| ==> c[i].managed <= c[i].accounts;
    ShownManagedBelow(c);
    PctBounds(Shown(c, ManagedRows) as real, Shown(c, Rows) as real);
  }

  lemma {:induction false} ShownManagedBelow(t: seq<Row>)
    requires forall i :: 0 <= i < |t| ==> t[i].managed <= t[i].accounts
    ensures Shown(t, ManagedRows) <= Shown(t, Rows)
  {
    if |t| > 0 {
      assert forall i :: 0 <= i < |t| - 1 ==> t[1..][i] == t[i + 1];
      ShownManagedBelow(t[1..]);
    }
  }

  /** With groups "TOTAL" and "05" the `[:-1]` drops the "05" row, which
      sorts last, and keeps the group keyed "TOTAL". */
  lemma TotalKeyDropsLastRow()
    ensures var t := [Row("TOTAL", 2, 0, 0, 0, 0, 0, 0), Row("05", 3, 0, 0, 0, 0, 0, 0)];
            TotalRow(t).shown.accounts == 2
  {
    var t := [Row("TOTAL", 2, 0, 0, 0, 0, 0, 0), Row("05", 3, 0, 0, 0, 0, 0, 0)];
    assert t[0].key == "TOTAL";
    assert Counted(t) == t[..1];
  }
}

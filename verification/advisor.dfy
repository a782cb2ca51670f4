/** "Tabla Resumen por Asesor" and the advisor first-name rollup behind the
    recovery charts. The advisor table has no TOTAL row; its rows run by
    advisor name descending and its money is rounded to whole soles. */
module AdvisorTable {
  import opened Wrappers
  import opened Records
  import opened Text
  import opened Grouping
  import opened Summary
  import opened Ordering
  import opened RoundedTable

  /** `tabla_resumen_asesor`: the advisor groups, by name descending. */
  function Table(rows: seq<Account>): (t: seq<Row>)
    ensures forall i, j :: 0 <= i < j < |t| ==> Less(t[j].key, t[i].key)
    ensures forall i :: 0 <= i < |t| ==>
              t[i].accounts == |Group(rows, AdvisorKey, t[i].key)| > 0
              && t[i].managed == CountManaged(Group(rows, AdvisorKey, t[i].key))
              && 0 <= t[i].pctManaged <= 100
  {
    DescendingRows(rows, AdvisorKey)
  }

  /** There is one row for each advisor some account names, and no other. */
  lemma TableAdvisors(rows: seq<Account>, name: string)
    ensures (exists i :: 0 <= i < |Table(rows)| && Table(rows)[i].key == name) <==>
            (exists a :: a in rows && a.advisor == Some(name))
  {
    var ks := GroupKeys(rows, AdvisorKey);
    var t := DescendingRows(rows, AdvisorKey);
    assert Table(rows) == t;
    KeysReversed(t, ks, name);
    if exists a :: a in rows && a.advisor == Some(name) {
      var a :| a in rows && a.advisor == Some(name);
      assert KeyOf(a, AdvisorKey) == Some(name);
    }
  }

  /** Every account with an advisor is counted in exactly one row, and the
      rounded money is off by at most half a sol per row. */
  lemma TablePartition(rows: seq<Account>, m: Measure)
    requires m.IsMoney()
    ensures Shown(Table(rows), Rows) == |Keyed(rows, AdvisorKey)|
    ensures Shown(Table(rows), ManagedRows) == CountManaged(Keyed(rows, AdvisorKey))
    ensures var n := |Table(rows)| as real;
            -n / 2.0 <= Sum(Keyed(rows, AdvisorKey), m) - Shown(Table(rows), m) as real <= n / 2.0
  {
    CountsPartition(rows, AdvisorKey);
    MoneyPartition(rows, AdvisorKey, m);
  }

  // ---- first names (`ASESOR_PRIMER_NOMBRE`) ------------------------------------

  /** A row of `tabla_asesor`: recovered planillas and gastos per first name. */
  datatype NameRow = NameRow(name: string, recPlanillas: real, recGastos: real)

  function FirstNames(rows: seq<Account>): (t: seq<NameRow>)
    ensures |t| == |GroupKeys(rows, FirstNameKey)|
    ensures forall i, j :: 0 <= i < j < |t| ==> Less(t[i].name, t[j].name)
    ensures forall i :: 0 <= i < |t| ==>
              t[i].name == GroupKeys(rows, FirstNameKey)[i]
              && t[i].recPlanillas == Sum(Group(rows, FirstNameKey, t[i].name), RecPlanillas)
              && t[i].recGastos == Sum(Group(rows, FirstNameKey, t[i].name), RecGastos)
  {
    var ks := GroupKeys(rows, FirstNameKey);
    var gs := GroupTotals(rows, FirstNameKey, ks);
    seq(|ks|, i requires 0 <= i < |ks| => NameRow(ks[i], gs[i].recPlanillas, gs[i].recGastos))
  }

  function NameColumn(t: seq<NameRow>, planillas: bool): real {
    if |t| == 0 then 0.0
    else (if planillas then t[0].recPlanillas else t[0].recGastos) + NameColumn(t[1..], planillas)
  }

  lemma {:induction false} NameColumnIsColumn(t: seq<NameRow>, gs: seq<Totals>, planillas: bool)
    requires |t| == |gs|
    requires forall i :: 0 <= i < |t| ==> t[i].recPlanillas == gs[i].recPlanillas && t[i].recGastos == gs[i].recGastos
    ensures NameColumn(t, planillas) == Summary.Column(gs, if planillas then RecPlanillas else RecGastos)
  {
    if |t| > 0 {
      assert forall i :: 0 <= i < |t| - 1 ==> t[1..][i] == t[i + 1] && gs[1..][i] == gs[i + 1];
      NameColumnIsColumn(t[1..], gs[1..], planillas);
    }
  }

  /** Every account has a first-name key (a missing advisor reads "nan"), so
      the first-name rows add up to the whole table's recovered money. */
  lemma FirstNamesCoverTable(rows: seq<Account>, planillas: bool)
    ensures NameColumn(FirstNames(rows), planillas) == Sum(rows, if planillas then RecPlanillas else RecGastos)
  {
    var gs := GroupTotals(rows, FirstNameKey, GroupKeys(rows, FirstNameKey));
    NameColumnIsColumn(FirstNames(rows), gs, planillas);
    FirstNameColumn(rows, if planillas then RecPlanillas else RecGastos);
  }

  /** The first-name groups together hold every account. */
  lemma FirstNameColumn(rows: seq<Account>, m: Measure)
    ensures Column(GroupTotals(rows, FirstNameKey, GroupKeys(rows, FirstNameKey)), m) == Sum(rows, m)
  {
    FirstNamesKeyed(rows);
    NothingUnkeyed(rows, FirstNameKey, m);
    GroupColumnsAndDropped(rows, FirstNameKey, m);
  }

  /** A missing advisor still has the first name "nan". */
  lemma FirstNamesKeyed(rows: seq<Account>)
    ensures forall i :: 0 <= i < |rows| ==> KeyOf(rows[i], FirstNameKey).Some?
  {
  }
}

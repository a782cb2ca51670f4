/** "Tabla Resumen por Campaña": one row per campaign, in `groupby` order,
    followed by a TOTAL row. The TOTAL row's two counts add up the group
    rows, but its money columns and money percentages are whole-table sums,
    so they also count the accounts that have no campaign. */
module CampaignTable {
  import opened Wrappers
  import opened Records
  import opened Numbers
  import opened Grouping
  import opened Summary
  import opened Ordering

  /** A displayed row before formatting: the campaign, its aggregates, and
      `% BARRIDO`, `% PLANILLAS`, `% GASTOS ADMIN`. */
  datatype Row = Row(campaign: string, totals: Totals, pctSweep: real, pctPlanillas: real, pctGastos: real)

  /** The three percentages of a row are its zero-guarded ratios. */
  predicate Guarded(r: Row) {
    && IsPct(r.pctSweep, r.totals.managed as real, r.totals.accounts as real)
    && IsPct(r.pctPlanillas, r.totals.recPlanillas, r.totals.debt)
    && IsPct(r.pctGastos, r.totals.recGastos, r.totals.adminFee)
  }

  function MakeRow(key: string, t: Totals): (r: Row)
    ensures r.campaign == key && r.totals == t && Guarded(r)
  {
    Row(key, t, Pct(t.managed as real, t.accounts as real), Pct(t.recPlanillas, t.debt), Pct(t.recGastos, t.adminFee))
  }

  /** The per-campaign aggregates, in `groupby` order. */
  function Groups(rows: seq<Account>): seq<Totals> {
    GroupTotals(rows, CampaignKey, GroupKeys(rows, CampaignKey))
  }

  /** The `totales` row. */
  function TotalRow(rows: seq<Account>): (r: Row)
    ensures r.campaign == "TOTAL" && Guarded(r)
  {
    var gs := Groups(rows);
    MakeRow("TOTAL", Totals(AccountsColumn(gs), ManagedColumn(gs), Sum(rows, Debt), Sum(rows, RecPlanillas),
                            Sum(rows, AdminFee), Sum(rows, RecGastos)))
  }

  /** The group rows of `tabla_campana_totales`: one per campaign, in
      `groupby` order. */
  function Body(rows: seq<Account>): (b: seq<Row>)
    ensures |b| == |GroupKeys(rows, CampaignKey)|
    ensures forall i :: 0 <= i < |b| ==>
              b[i].campaign == GroupKeys(rows, CampaignKey)[i] && b[i].totals == Groups(rows)[i]
    ensures forall i :: 0 <= i < |b| ==>
              b[i].totals.accounts == |Group(rows, CampaignKey, b[i].campaign)| > 0
              && b[i].totals.managed <= b[i].totals.accounts
    ensures forall i, j :: 0 <= i < j < |b| ==> Text.Less(b[i].campaign, b[j].campaign)
    ensures forall i :: 0 <= i < |b| ==> Guarded(b[i])
  {
    var ks := GroupKeys(rows, CampaignKey);
    var gs := Groups(rows);
    seq(|ks|, i requires 0 <= i < |ks| => MakeRow(ks[i], gs[i]))
  }

  /** `tabla_campana_totales`: the group rows, then the TOTAL row. */
  function Table(rows: seq<Account>): (t: seq<Row>)
    ensures |t| == |GroupKeys(rows, CampaignKey)| + 1
    ensures t[..|t| - 1] == Body(rows)
    ensures t[|t| - 1] == TotalRow(rows) && t[|t| - 1].campaign == "TOTAL"
    ensures forall i :: 0 <= i < |t| ==> Guarded(t[i])
  {
    var b := Body(rows);
    var t := b + [TotalRow(rows)];
    assert t[..|t| - 1] == b;
    assert forall i :: 0 <= i < |b| ==> t[i] == b[i];
    t
  }

  /** The TOTAL row's counts are the number of accounts with a campaign and
      how many of them are managed. */
  lemma TotalCounts(rows: seq<Account>)
    ensures TotalRow(rows).totals.accounts == |Keyed(rows, CampaignKey)|
    ensures TotalRow(rows).totals.managed == CountManaged(Keyed(rows, CampaignKey))
  {
    GroupColumns(rows, CampaignKey, Rows);
    GroupColumns(rows, CampaignKey, ManagedRows);
    SumRowsIsCount(Keyed(rows, CampaignKey));
  }

  /** The TOTAL row's money is the group rows' money plus that of the
      accounts without a campaign, which no group row shows. */
  lemma TotalMoney(rows: seq<Account>, m: Measure)
    requires m.IsMoney()
    ensures TotalRow(rows).totals.Get(m) == Column(Groups(rows), m) + Sum(Unkeyed(rows, CampaignKey), m)
  {
    GroupColumnsAndDropped(rows, CampaignKey, m);
  }

  /** When every account has a campaign the TOTAL row adds up the group rows. */
  lemma TotalMoneyAllCampaigns(rows: seq<Account>, m: Measure)
    requires m.IsMoney()
    requires forall i :: 0 <= i < |rows| ==> rows[i].campaign.Some?
    ensures TotalRow(rows).totals.Get(m) == Column(Groups(rows), m)
  {
    TotalMoney(rows, m);
    NothingUnkeyed(rows, CampaignKey, m);
  }

  /** An account without a campaign makes the TOTAL debt differ from the
      sum of the group rows by its debt. */
  lemma DebtWithoutCampaign(a: Account)
    requires a.campaign.None? && a.debt == Some(10.0)
    ensures TotalRow([a]).totals.debt == 10.0
    ensures Column(Groups([a]), Debt) == 0.0
    ensures Table([a]) == [TotalRow([a])]
  {
    GroupColumnsAndDropped([a], CampaignKey, Debt);
    assert Unkeyed([a], CampaignKey) == [a];
    assert Keyed([a], CampaignKey) == [];
    assert GroupKeys([a], CampaignKey) == [];
  }

  /** `% BARRIDO` of the TOTAL row lies in 0..100 and is 100 exactly when
      every account with a campaign is managed. */
  lemma TotalSweep(rows: seq<Account>)
    ensures 0.0 <= TotalRow(rows).pctSweep <= 100.0
    ensures |Keyed(rows, CampaignKey)| > 0 ==>
              (TotalRow(rows).pctSweep == 100.0 <==>
                 forall a :: a in Keyed(rows, CampaignKey) ==> Managed(a))
  {
    TotalCounts(rows);
    var kept := Keyed(rows, CampaignKey);
    PctBounds(CountManaged(kept) as real, |kept| as real);
    assert (forall a :: a in kept ==> Managed(a)) <==> (forall i :: 0 <= i < |kept| ==> Managed(kept[i]));
  }
}

/** The KPI cards: account count, the four money sums over the whole table,
    and `% Barrido`, the share of accounts with a last management date. */
module Kpis {
  import opened Records
  import opened Numbers
  import opened Grouping
  import opened Summary
  import CampaignTable

  datatype Kpi = Kpi(accounts: nat, debt: real, adminFee: real, recPlanillas: real, recGastos: real,
                     swept: nat, pctSwept: real)

  function Compute(rows: seq<Account>): (k: Kpi)
    ensures k.accounts == |rows| && k.swept <= k.accounts
    ensures IsPct(k.pctSwept, k.swept as real, k.accounts as real)
    ensures 0.0 <= k.pctSwept <= 100.0
    ensures |rows| == 0 ==> k.pctSwept == 0.0
    ensures |rows| > 0 ==> (k.pctSwept == 100.0 <==> forall i :: 0 <= i < |rows| ==> Managed(rows[i]))
  {
    var swept := CountManaged(rows);
    PctBounds(swept as real, |rows| as real);
    Kpi(|rows|, Sum(rows, Debt), Sum(rows, AdminFee), Sum(rows, RecPlanillas), Sum(rows, RecGastos),
        swept, Pct(swept as real, |rows| as real))
  }

  /** The KPI money equals the campaign table's TOTAL money, and when every
      account has a campaign so do the counts and the sweep percentage. */
  lemma AgreesWithCampaignTotal(rows: seq<Account>)
    ensures var k, t := Compute(rows), CampaignTable.TotalRow(rows).totals;
            k.debt == t.debt && k.adminFee == t.adminFee
            && k.recPlanillas == t.recPlanillas && k.recGastos == t.recGastos
    ensures (forall i :: 0 <= i < |rows| ==> rows[i].campaign.Some?) ==>
              Compute(rows).accounts == CampaignTable.TotalRow(rows).totals.accounts
              && Compute(rows).swept == CampaignTable.TotalRow(rows).totals.managed
              && Compute(rows).pctSwept == CampaignTable.TotalRow(rows).pctSweep
  {
    CampaignTable.TotalCounts(rows);
    if forall i :: 0 <= i < |rows| ==> rows[i].campaign.Some? {
      AllKeyed(rows, CampaignKey);
    }
  }
}

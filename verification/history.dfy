/** The payment history view (`render_historial_pagos`): the ledger filtered
    by campaign, payment kind and an inclusive date range, sorted latest
    first with the undated events last, the five metrics over the filtered
    events, and for one kind the per-day sums and their running total. */
module History {
  import opened Wrappers
  import opened Ordering
  import opened Ledger

  // ---- filtering ---------------------------------------------------------

  /** An inclusive range of day numbers. */
  datatype Range = Range(lo: int, hi: int)

  /** `rango_fechas`: no range when no event has a date, otherwise the two
      chosen days, swapped when given in reverse. */
  function DateRange(es: seq<Event>, start: int, end: int): (r: Option<Range>)
    ensures r.None? <==> forall e :: e in es ==> e.date.None?
    ensures r.Some? ==> r.value.lo <= r.value.hi
    ensures r.Some? ==> (r.value.lo == start && r.value.hi == end) || (r.value.lo == end && r.value.hi == start)
  {
    if forall e :: e in es ==> e.date.None? then None
    else if start <= end then Some(Range(start, end))
    else Some(Range(end, start))
  }

  /** The three filters: "Todas" keeps every campaign, "Todos" every kind,
      and a range keeps only the events dated inside it. */
  predicate Matches(e: Event, campaign: string, kind: string, range: Option<Range>) {
    && (campaign == "Todas" || e.campaign == campaign)
    && (kind == "Todos" || e.kind.Name() == kind)
    && (range.Some? ==> e.date.Some? && range.value.lo <= e.date.value <= range.value.hi)
  }

  /** `df_pagos_filtrado` before sorting: the matching events, in ledger order. */
  function Filter(es: seq<Event>, campaign: string, kind: string, range: Option<Range>): (r: seq<Event>)
    ensures |r| <= |es|
    ensures forall e :: e in r <==> e in es && Matches(e, campaign, kind, range)
  {
    if |es| == 0 then []
    else
      var r := (if Matches(es[0], campaign, kind, range) then [es[0]] else []) + Filter(es[1..], campaign, kind, range);
      assert forall e :: e in es <==> e == es[0] || e in es[1..];
      r
  }

  /** Each matching event is kept as often as it occurs in the ledger. */
  lemma {:induction false} FilterMultiplicity(es: seq<Event>, campaign: string, kind: string, range: Option<Range>)
    ensures forall e :: multiset(Filter(es, campaign, kind, range))[e]
                        == if Matches(e, campaign, kind, range) then multiset(es)[e] else 0
  {
    if |es| > 0 {
      FilterMultiplicity(es[1..], campaign, kind, range);
      assert es == [es[0]] + es[1..];
      assert multiset(es) == multiset{es[0]} + multiset(es[1..]);
    }
  }

  /** "Todas", "Todos" and no range keep the whole ledger in order. */
  lemma {:induction false} FilterAll(es: seq<Event>)
    ensures Filter(es, "Todas", "Todos", None) == es
  {
    if |es| > 0 {
      FilterAll(es[1..]);
      assert Matches(es[0], "Todas", "Todos", None);
      assert es == [es[0]] + es[1..];
    }
  }

  /** As soon as one event has a date the range filter applies, so the
      history never shows an undated event, whatever days are chosen. */
  lemma UndatedHidden(es: seq<Event>, campaign: string, kind: string, start: int, end: int)
    requires exists e :: e in es && e.date.Some?
    ensures forall e :: e in Filter(es, campaign, kind, DateRange(es, start, end)) ==> e.date.Some?
  {
    var w :| w in es && w.date.Some?;
    assert DateRange(es, start, end).Some?;
  }

  // ---- sorting -----------------------------------------------------------

  /** `x` may come before `y` in `sort_values(by='fecha', ascending=False)`:
      undated events go last. */
  predicate NotAfter(x: Event, y: Event) {
    y.date.None? || (x.date.Some? && x.date.value >= y.date.value)
  }

  predicate LatestFirst(s: seq<Event>) {
    forall i, j :: 0 <= i < j < |s| ==> NotAfter(s[i], s[j])
  }

  function InsertByDate(e: Event, s: seq<Event>): (r: seq<Event>)
    requires LatestFirst(s)
    ensures LatestFirst(r)
    ensures multiset(r) == multiset(s) + multiset{e}
    ensures |r| == |s| + 1
  {
    if |s| == 0 then [e]
    else if NotAfter(e, s[0]) then [e] + s
    else
      var t := InsertByDate(e, s[1..]);
      assert s == [s[0]] + s[1..];
      HeadNotAfter(s, e, t);
      [s[0]] + t
  }

  /** The head of a latest-first sequence may precede anything made of
      its tail and an event it may precede. */
  lemma HeadNotAfter(s: seq<Event>, e: Event, t: seq<Event>)
    requires |s| > 0 && LatestFirst(s) && !NotAfter(e, s[0])
    requires multiset(t) == multiset(s[1..]) + multiset{e}
    ensures forall x :: x in t ==> NotAfter(s[0], x)
  {
    forall x | x in t ensures NotAfter(s[0], x) {
      assert x in multiset(t);
      if x != e {
        assert x in multiset(s[1..]);
        var j :| 0 <= j < |s[1..]| && s[1..][j] == x;
        assert s[j + 1] == x;
      }
    }
  }

  /** The history order: a permutation of the events, latest first. The
      order among events of one day is not fixed (`sort_values` uses an
      unstable sort), so only order and contents are promised. */
  function SortByDate(es: seq<Event>): (r: seq<Event>)
    ensures LatestFirst(r)
    ensures multiset(r) == multiset(es)
    ensures |r| == |es|
  {
    if |es| == 0 then []
    else
      assert es == [es[0]] + es[1..];
      InsertByDate(es[0], SortByDate(es[1..]))
  }

  /** Events already latest first stay where they are. */
  lemma {:induction false} SortSorted(es: seq<Event>)
    requires LatestFirst(es)
    ensures SortByDate(es) == es
  {
    if |es| > 0 {
      assert LatestFirst(es[1..]);
      SortSorted(es[1..]);
    }
  }

  /** Sorting twice sorts once. */
  lemma SortIdempotent(es: seq<Event>)
    ensures SortByDate(SortByDate(es)) == SortByDate(es)
  {
    SortSorted(SortByDate(es));
  }

  // ---- metrics -----------------------------------------------------------

  /** `monto.sum()` over the events of one kind: a missing amount adds nothing. */
  function KindAmount(es: seq<Event>, k: PayKind): real {
    if |es| == 0 then 0.0
    else (if es[0].kind == k then es[0].amount.GetOr(0.0) else 0.0) + KindAmount(es[1..], k)
  }

  /** `len(df[tipo_pago == k])`. */
  function KindCount(es: seq<Event>, k: PayKind): (n: nat)
    ensures n <= |es|
  {
    if |es| == 0 then 0
    else (if es[0].kind == k then 1 else 0) + KindCount(es[1..], k)
  }

  /** The five metric cards. */
  datatype Metrics = Metrics(payments: nat, amountPlanillas: real, amountGastos: real,
                             countPlanillas: nat, countGastos: nat)

  function ComputeMetrics(es: seq<Event>): (m: Metrics)
    ensures m.payments == |es|
    ensures m.countPlanillas + m.countGastos == m.payments
    ensures m.amountPlanillas + m.amountGastos == Paid(es)
  {
    KindsCover(es);
    Metrics(|es|, KindAmount(es, Planillas), KindAmount(es, Gastos), KindCount(es, Planillas), KindCount(es, Gastos))
  }

  /** Every amount in the events, a missing one adding nothing. */
  function Paid(es: seq<Event>): real {
    if |es| == 0 then 0.0 else es[0].amount.GetOr(0.0) + Paid(es[1..])
  }

  /** Every event is of one of the two kinds. */
  lemma {:induction false} KindsCover(es: seq<Event>)
    ensures KindCount(es, Planillas) + KindCount(es, Gastos) == |es|
    ensures KindAmount(es, Planillas) + KindAmount(es, Gastos) == Paid(es)
  {
    if |es| > 0 {
      KindsCover(es[1..]);
    }
  }

  lemma {:induction false} InsertKeepsSums(e: Event, s: seq<Event>, k: PayKind)
    requires LatestFirst(s)
    ensures KindAmount(InsertByDate(e, s), k) == KindAmount([e] + s, k)
    ensures KindCount(InsertByDate(e, s), k) == KindCount([e] + s, k)
  {
    assert ([e] + s)[1..] == s;
    if |s| > 0 && !NotAfter(e, s[0]) {
      InsertKeepsSums(e, s[1..], k);
      assert ([e] + s[1..])[1..] == s[1..];
      assert ([s[0]] + InsertByDate(e, s[1..]))[1..] == InsertByDate(e, s[1..]);
    }
  }

  /** The metrics do not depend on the history order. */
  lemma SortKeepsMetrics(es: seq<Event>)
    ensures ComputeMetrics(SortByDate(es)) == ComputeMetrics(es)
  {
    SortKeepsSums(es, Planillas);
    SortKeepsSums(es, Gastos);
  }

  lemma {:induction false} SortKeepsSums(es: seq<Event>, k: PayKind)
    ensures KindAmount(SortByDate(es), k) == KindAmount(es, k)
    ensures KindCount(SortByDate(es), k) == KindCount(es, k)
  {
    if |es| > 0 {
      SortKeepsSums(es[1..], k);
      var s := SortByDate(es[1..]);
      InsertKeepsSums(es[0], s, k);
      assert ([es[0]] + s)[1..] == s;
    }
  }

  // ---- daily totals and running total -------------------------------------

  /** One point of the per-day chart: a day and the amount paid on it. */
  datatype DayTotal = DayTotal(day: int, amount: real)

  /** The amount of kind `k` paid on day `d` (`groupby('fecha_dia')['monto'].sum()`). */
  function DayAmount(es: seq<Event>, k: PayKind, d: int): real {
    if |es| == 0 then 0.0
    else (if es[0].kind == k && es[0].date == Some(d) then es[0].amount.GetOr(0.0) else 0.0)
         + DayAmount(es[1..], k, d)
  }

  /** The amount of kind `k` over the dated events. */
  function DatedAmount(es: seq<Event>, k: PayKind): real {
    if |es| == 0 then 0.0
    else (if es[0].kind == k && es[0].date.Some? then es[0].amount.GetOr(0.0) else 0.0)
         + DatedAmount(es[1..], k)
  }

  /** The days some dated event of kind `k` falls on, with repeats. */
  function Days(es: seq<Event>, k: PayKind): (ds: seq<int>)
    ensures forall d :: d in ds <==> exists e :: e in es && e.kind == k && e.date == Some(d)
  {
    if |es| == 0 then []
    else
      var ds := (if es[0].kind == k && es[0].date.Some? then [es[0].date.value] else []) + Days(es[1..], k);
      assert forall e :: e in es <==> e == es[0] || e in es[1..];
      ds
  }

  function DailyOver(ds: seq<int>, es: seq<Event>, k: PayKind): (t: seq<DayTotal>)
    ensures |t| == |ds|
    ensures forall i :: 0 <= i < |t| ==> t[i] == DayTotal(ds[i], DayAmount(es, k, ds[i]))
  {
    if |ds| == 0 then [] else [DayTotal(ds[0], DayAmount(es, k, ds[0]))] + DailyOver(ds[1..], es, k)
  }

  /** `planillas_por_dia` / `gastos_por_dia`: one point per day with a
      dated event of kind `k`, days ascending. */
  function Daily(es: seq<Event>, k: PayKind): (t: seq<DayTotal>)
    ensures forall i, j :: 0 <= i < j < |t| ==> t[i].day < t[j].day
    ensures forall i :: 0 <= i < |t| ==> t[i].amount == DayAmount(es, k, t[i].day)
  {
    DailyOver(SortedDistinctDays(Days(es, k)), es, k)
  }

  /** The chart has a point exactly for the days some dated event of kind
      `k` falls on. */
  lemma DailyDays(es: seq<Event>, k: PayKind)
    ensures var t := Daily(es, k);
            forall d :: (exists i :: 0 <= i < |t| && t[i].day == d)
                        <==> exists e :: e in es && e.kind == k && e.date == Some(d)
  {
    var ds := SortedDistinctDays(Days(es, k));
    var t := DailyOver(ds, es, k);
    assert t == Daily(es, k);
    assert forall i :: 0 <= i < |t| ==> t[i].day == ds[i];
    forall d ensures (exists i :: 0 <= i < |t| && t[i].day == d)
                     <==> exists e :: e in es && e.kind == k && e.date == Some(d) {
      assert d in ds <==> d in Days(es, k);
      if d in ds {
        var i :| 0 <= i < |ds| && ds[i] == d;
        assert t[i].day == d;
      }
      if exists i :: 0 <= i < |t| && t[i].day == d {
        var i :| 0 <= i < |t| && t[i].day == d;
        assert ds[i] in ds;
      }
    }
  }

  /** The amounts of a chart, added up. */
  function Total(t: seq<DayTotal>): real {
    if |t| == 0 then 0.0 else t[0].amount + Total(t[1..])
  }

  /** Adding one event in front adds its amount to the one day it falls on. */
  lemma {:induction false} DailyStep(ds: seq<int>, es: seq<Event>, k: PayKind)
    requires |es| > 0 && AscendingDays(ds)
    ensures Total(DailyOver(ds, es, k))
            == Total(DailyOver(ds, es[1..], k))
               + (if es[0].kind == k && es[0].date.Some? && es[0].date.value in ds then es[0].amount.GetOr(0.0) else 0.0)
  {
    if |ds| > 0 {
      assert AscendingDays(ds[1..]);
      DailyStep(ds[1..], es, k);
      assert DailyOver(ds, es, k)[1..] == DailyOver(ds[1..], es, k);
      assert DailyOver(ds, es[1..], k)[1..] == DailyOver(ds[1..], es[1..], k);
      if es[0].date == Some(ds[0]) {
        assert ds[0] !in ds[1..];
      } else {
        assert es[0].date.Some? ==> (es[0].date.value in ds <==> es[0].date.value in ds[1..]);
      }
    }
  }

  lemma {:induction false} DailyNoEvents(ds: seq<int>, es: seq<Event>, k: PayKind)
    requires |es| == 0
    ensures Total(DailyOver(ds, es, k)) == 0.0
  {
    if |ds| > 0 {
      assert DailyOver(ds, es, k)[1..] == DailyOver(ds[1..], es, k);
      DailyNoEvents(ds[1..], es, k);
    }
  }

  /** Distinct days covering every dated event of kind `k` split its dated
      amount day by day. */
  lemma {:induction false} DailyPartition(ds: seq<int>, es: seq<Event>, k: PayKind)
    requires AscendingDays(ds)
    requires forall e :: e in es && e.kind == k && e.date.Some? ==> e.date.value in ds
    ensures Total(DailyOver(ds, es, k)) == DatedAmount(es, k)
  {
    if |es| == 0 {
      DailyNoEvents(ds, es, k);
    } else {
      assert forall e :: e in es[1..] ==> e in es;
      DailyPartition(ds, es[1..], k);
      DailyStep(ds, es, k);
    }
  }

  /** The per-day points add up to the dated amount of the kind. */
  lemma DailyCoversDated(es: seq<Event>, k: PayKind)
    ensures Total(Daily(es, k)) == DatedAmount(es, k)
  {
    var ds := SortedDistinctDays(Days(es, k));
    assert forall e :: e in es && e.kind == k && e.date.Some? ==> e.date.value in ds;
    DailyPartition(ds, es, k);
  }

  /** When the date range was applied every shown event is dated, and the
      metric card's amount equals the dated amount the chart adds up. */
  lemma {:induction false} AllDatedAmount(es: seq<Event>, k: PayKind)
    requires forall e :: e in es ==> e.date.Some?
    ensures DatedAmount(es, k) == KindAmount(es, k)
  {
    if |es| > 0 {
      assert es[0] in es;
      assert forall e :: e in es[1..] ==> e in es;
      AllDatedAmount(es[1..], k);
    }
  }

  /** The first `n` amounts, added up. */
  function Prefix(t: seq<DayTotal>, n: nat): real
    requires n <= |t|
  {
    if n == 0 then 0.0 else Prefix(t, n - 1) + t[n - 1].amount
  }

  lemma {:induction false} PrefixTotal(t: seq<DayTotal>, n: nat)
    requires n <= |t|
    ensures Prefix(t, n) + Total(t[n..]) == Total(t)
  {
    if n > 0 {
      PrefixTotal(t, n - 1);
      assert t[n - 1..][1..] == t[n..];
    }
  }

  /** `recaudo_acumulado = monto.cumsum()`: each point is the total up to
      its day, consecutive points differ by the day's amount, and the last
      point is the whole chart's total. */
  method Cumulative(t: seq<DayTotal>) returns (cum: seq<real>)
    ensures |cum| == |t|
    ensures forall i :: 0 <= i < |t| ==> cum[i] == Prefix(t, i + 1)
    ensures |t| > 0 ==> cum[0] == t[0].amount
    ensures forall i :: 0 < i < |t| ==> cum[i] - cum[i - 1] == t[i].amount
    ensures |t| > 0 ==> cum[|t| - 1] == Total(t)
    ensures (forall i :: 0 <= i < |t| ==> t[i].amount >= 0.0) ==>
              forall i, j :: 0 <= i <= j < |t| ==> cum[i] <= cum[j]
  {
    cum := [];
    var acc := 0.0;
    for i := 0 to |t|
      invariant |cum| == i
      invariant acc == Prefix(t, i)
      invariant forall j :: 0 <= j < i ==> cum[j] == Prefix(t, j + 1)
    {
      acc := acc + t[i].amount;
      cum := cum + [acc];
    }
    PrefixTotal(t, |t|);
    if forall i :: 0 <= i < |t| ==> t[i].amount >= 0.0 {
      PrefixGrows(t);
    }
  }

  lemma PrefixGrows(t: seq<DayTotal>)
    requires forall i :: 0 <= i < |t| ==> t[i].amount >= 0.0
    ensures forall i, j :: 0 <= i <= j <= |t| ==> Prefix(t, i) <= Prefix(t, j)
  {
    forall i, j | 0 <= i <= j <= |t| ensures Prefix(t, i) <= Prefix(t, j) {
      PrefixMonotone(t, i, j);
    }
  }

  lemma {:induction false} PrefixMonotone(t: seq<DayTotal>, i: nat, j: nat)
    requires i <= j <= |t|
    requires forall n :: 0 <= n < |t| ==> t[n].amount >= 0.0
    ensures Prefix(t, i) <= Prefix(t, j)
  {
    if i < j {
      PrefixMonotone(t, i, j - 1);
    }
  }
}

/** The payment ledger `df_pagos`: one planillas event per account (when the
    sheet has FECHA DE PAGO P and REC. PLANILLAS), then one gastos event per
    account (when it has FECHA DE PAGO G and REC. GASTOS), with the texts
    defaulted and stripped, the date column parsed as one column, the
    amounts cleaned, and only events with a positive amount or a date kept. */
module Ledger {
  import opened Wrappers
  import opened Text
  import opened Records
  import opened Amount
  import opened Dates

  datatype PayKind = Planillas | Gastos {
    /** The `tipo_pago` label. */
    function Name(): string {
      match this
      case Planillas => "PLANILLAS"
      case Gastos => "GASTOS"
    }
  }

  /** A ledger row before cleaning: the raw date and amount cells. */
  datatype RawEvent = RawEvent(dateCell: Cell, amountCell: Cell, campaign: Option<string>,
                               company: Option<string>, kind: PayKind)

  /** A ledger row: `fecha`, `monto`, `campana`, `razon_social`, `tipo_pago`. */
  datatype Event = Event(date: Option<int>, amount: Option<real>, campaign: string, company: string, kind: PayKind)

  /** The pair of columns an account contributes for one kind of payment. */
  function RawOf(a: Account, kind: PayKind): RawEvent {
    match kind
    case Planillas => RawEvent(a.payDatePlanillas, a.recPlanillas, a.campaign, a.company, Planillas)
    case Gastos => RawEvent(a.payDateGastos, a.recGastos, a.campaign, a.company, Gastos)
  }

  /** `pd.concat(parts)`: the planillas part, then the gastos part. */
  function Raw(rows: seq<Account>, hasPlanillas: bool, hasGastos: bool): (r: seq<RawEvent>)
    ensures |r| == (if hasPlanillas then |rows| else 0) + (if hasGastos then |rows| else 0)
    ensures hasPlanillas ==> forall i :: 0 <= i < |rows| ==> r[i] == RawOf(rows[i], Planillas)
    ensures hasGastos ==> forall i :: 0 <= i < |rows| ==>
              r[(if hasPlanillas then |rows| else 0) + i] == RawOf(rows[i], Gastos)
    ensures forall i :: 0 <= i < |r| ==> (r[i].kind == Gastos <==> i >= (if hasPlanillas then |rows| else 0))
  {
    var p := if hasPlanillas then seq(|rows|, i requires 0 <= i < |rows| => RawOf(rows[i], Planillas)) else [];
    var g := if hasGastos then seq(|rows|, i requires 0 <= i < |rows| => RawOf(rows[i], Gastos)) else [];
    p + g
  }

  /** The `fecha` column. */
  function DateCells(raw: seq<RawEvent>): (d: seq<Cell>)
    ensures |d| == |raw| && forall i :: 0 <= i < |raw| ==> d[i] == raw[i].dateCell
  {
    seq(|raw|, i requires 0 <= i < |raw| => raw[i].dateCell)
  }

  /** The cleaning step over the whole frame: `fillna(...).astype(str).str.strip()`
      on the two texts, `_parse_fecha_serie` on the date column as a whole,
      `_clean_monto` on each amount. */
  function Clean(raw: seq<RawEvent>, parseText: TextParser): (es: seq<Event>)
    ensures |es| == |raw|
    ensures forall i :: 0 <= i < |raw| ==>
              && es[i].kind == raw[i].kind
              && es[i].amount == CleanCell(raw[i].amountCell)
              && es[i].campaign == Strip(raw[i].campaign.GetOr("Sin campaña"))
              && es[i].company == Strip(raw[i].company.GetOr("Desconocido"))
    ensures forall i :: 0 <= i < |raw| ==> es[i].date == ParseDateColumn(DateCells(raw), parseText)[i]
  {
    var dates := DateCells(raw);
    var parsed := ParseDateColumn(dates, parseText);
    seq(|raw|, i requires 0 <= i < |raw| =>
      Event(parsed[i], CleanCell(raw[i].amountCell), Strip(raw[i].campaign.GetOr("Sin campaña")),
            Strip(raw[i].company.GetOr("Desconocido")), raw[i].kind))
  }

  /** `(monto.notna() & (monto > 0)) | fecha.notna()`. */
  predicate Kept(e: Event) {
    (e.amount.Some? && e.amount.value > 0.0) || e.date.Some?
  }

  /** The kept events, in ledger order. */
  function Keep(es: seq<Event>): (r: seq<Event>)
    ensures |r| <= |es|
    ensures forall e :: e in r <==> e in es && Kept(e)
  {
    if |es| == 0 then []
    else
      var r := (if Kept(es[0]) then [es[0]] else []) + Keep(es[1..]);
      assert forall e :: e in es <==> e == es[0] || e in es[1..];
      r
  }

  /** `df_pagos` built from the fresh rows alone; `Pagos` adds the leftover
      pie-chart tables and shows they change nothing that is kept. */
  function Build(rows: seq<Account>, hasPlanillas: bool, hasGastos: bool, parseText: TextParser): (es: seq<Event>)
    ensures forall e :: e in es ==> Kept(e)
    ensures forall e :: e in es <==> e in Clean(Raw(rows, hasPlanillas, hasGastos), parseText) && Kept(e)
    ensures !hasPlanillas ==> forall e :: e in es ==> e.kind == Gastos
    ensures !hasGastos ==> forall e :: e in es ==> e.kind == Planillas
  {
    Keep(Clean(Raw(rows, hasPlanillas, hasGastos), parseText))
  }

  /** The keep rule keeps each kept event as often as the cleaned ledger
      has it, and no other event. */
  lemma {:induction false} KeepMultiplicity(es: seq<Event>)
    ensures forall e :: multiset(Keep(es))[e] == if Kept(e) then multiset(es)[e] else 0
  {
    if |es| > 0 {
      KeepMultiplicity(es[1..]);
      assert es == [es[0]] + es[1..];
      assert multiset(es) == multiset{es[0]} + multiset(es[1..]);
    }
  }

  /** `df_pagos` holds each kept cleaned event exactly as often as the
      cleaned planillas and gastos rows do. */
  lemma BuildMultiplicity(rows: seq<Account>, hasPlanillas: bool, hasGastos: bool, parseText: TextParser)
    ensures forall e :: multiset(Build(rows, hasPlanillas, hasGastos, parseText))[e]
                        == if Kept(e) then multiset(Clean(Raw(rows, hasPlanillas, hasGastos), parseText))[e] else 0
  {
    KeepMultiplicity(Clean(Raw(rows, hasPlanillas, hasGastos), parseText));
  }

  lemma {:induction false} KeepAppend(x: seq<Event>, y: seq<Event>)
    ensures Keep(x + y) == Keep(x) + Keep(y)
  {
    if |x| == 0 {
      assert x + y == y;
    } else {
      assert (x + y)[0] == x[0];
      assert (x + y)[1..] == x[1..] + y;
      KeepAppend(x[1..], y);
    }
  }

  lemma {:induction false} NoneKept(x: seq<Event>)
    requires forall i :: 0 <= i < |x| ==> !Kept(x[i])
    ensures Keep(x) == []
  {
    if |x| > 0 {
      assert forall i :: 0 <= i < |x[1..]| ==> x[1..][i] == x[i + 1];
      NoneKept(x[1..]);
    }
  }

  // ---- the pie-chart tables left behind -----------------------------------------

  /** A row of a pie-chart table that `df_planillas` or `df_gastos` still
      names when the sheet lacks that side's columns (dashboardNoviembre.py:541,
      :545): in `pd.concat` it has no `fecha`, `monto`, `campana`,
      `razon_social` or `tipo_pago`. Its kind is the side it stands in
      for; it is never seen, because such a row is never kept. */
  predicate IsStale(r: RawEvent) {
    r.dateCell.Blank? && r.amountCell.Blank? && r.campaign.None? && r.company.None?
  }

  function Stale(n: nat, kind: PayKind): (r: seq<RawEvent>)
    ensures |r| == n
    ensures forall i :: 0 <= i < n ==> IsStale(r[i]) && r[i].kind == kind
  {
    seq(n, i requires 0 <= i < n => RawEvent(Blank, Blank, None, None, kind))
  }

  /** The cleaned stale rows are neither dated nor paid. */
  lemma StaleNotKept(raw: seq<RawEvent>, i: nat, parseText: TextParser)
    requires i < |raw| && IsStale(raw[i])
    ensures !Kept(Clean(raw, parseText)[i])
  {
    assert DateCells(raw)[i].Blank?;
  }

  /** Events past the first `n` that are never kept leave `Keep` as on the first `n`. */
  lemma {:induction false} KeepPrefixOnly(es: seq<Event>, n: nat)
    requires n <= |es|
    requires forall i :: n <= i < |es| ==> !Kept(es[i])
    ensures Keep(es) == Keep(es[..n])
  {
    if n == 0 {
      NoneKept(es);
      assert es[..0] == [];
    } else {
      var rest := es[1..];
      assert forall i :: n - 1 <= i < |rest| ==> rest[i] == es[i + 1];
      KeepPrefixOnly(rest, n - 1);
      assert es[..n][1..] == rest[..n - 1];
      assert es[..n][0] == es[0];
    }
  }

  /** Events before the last `|es| - n` that are never kept leave `Keep` as on those. */
  lemma KeepSuffixOnly(es: seq<Event>, n: nat)
    requires n <= |es|
    requires forall i :: 0 <= i < n ==> !Kept(es[i])
    ensures Keep(es) == Keep(es[n..])
  {
    var head := es[..n];
    NoneKept(head);
    assert es == head + es[n..];
    KeepAppend(head, es[n..]);
  }

  /** Cleaning a frame with stale rows after it cleans its own rows alike. */
  lemma CleanBeforeStale(a: seq<RawEvent>, b: seq<RawEvent>, parseText: TextParser)
    requires forall i :: 0 <= i < |b| ==> IsStale(b[i])
    ensures Clean(a + b, parseText)[..|a|] == Clean(a, parseText)
  {
    var c := a + b;
    assert DateCells(c) == DateCells(a) + DateCells(b);
    BlanksAfter(DateCells(a), DateCells(b), parseText);
    var es := Clean(c, parseText);
    var ea := Clean(a, parseText);
    forall i | 0 <= i < |a| ensures es[i] == ea[i] {
      assert c[i] == a[i];
    }
  }

  /** Cleaning a frame with stale rows before it cleans its own rows alike. */
  lemma CleanAfterStale(b: seq<RawEvent>, a: seq<RawEvent>, parseText: TextParser)
    requires forall i :: 0 <= i < |b| ==> IsStale(b[i])
    ensures Clean(b + a, parseText)[|b|..] == Clean(a, parseText)
  {
    var c := b + a;
    assert DateCells(c) == DateCells(b) + DateCells(a);
    BlanksBefore(DateCells(a), DateCells(b), parseText);
    var es := Clean(c, parseText);
    var ea := Clean(a, parseText);
    forall i | 0 <= i < |a| ensures es[|b|..][i] == ea[i] {
      assert c[|b| + i] == a[i];
      assert ParseDateColumn(DateCells(c), parseText)[|b|..][i] == ParseDateColumn(DateCells(c), parseText)[|b| + i];
    }
  }

  /** Stale rows after the fresh ones change nothing that is kept. */
  lemma StaleAfter(a: seq<RawEvent>, b: seq<RawEvent>, parseText: TextParser)
    requires forall i :: 0 <= i < |b| ==> IsStale(b[i])
    ensures Keep(Clean(a + b, parseText)) == Keep(Clean(a, parseText))
  {
    var c := a + b;
    forall i | |a| <= i < |c| ensures !Kept(Clean(c, parseText)[i]) {
      StaleNotKept(c, i, parseText);
    }
    KeepPrefixOnly(Clean(c, parseText), |a|);
    CleanBeforeStale(a, b, parseText);
  }

  /** Stale rows before the fresh ones change nothing that is kept. */
  lemma StaleBefore(b: seq<RawEvent>, a: seq<RawEvent>, parseText: TextParser)
    requires forall i :: 0 <= i < |b| ==> IsStale(b[i])
    ensures Keep(Clean(b + a, parseText)) == Keep(Clean(a, parseText))
  {
    var c := b + a;
    forall i | 0 <= i < |b| ensures !Kept(Clean(c, parseText)[i]) {
      StaleNotKept(c, i, parseText);
    }
    KeepSuffixOnly(Clean(c, parseText), |b|);
    CleanAfterStale(b, a, parseText);
  }

  /** `parts`: each side is its fresh rows when the sheet has its columns,
      and otherwise the pie-chart table its name still holds, of `staleP`
      or `staleG` rows (the campaign-table rows with a positive amount). */
  function Parts(rows: seq<Account>, hasPlanillas: bool, hasGastos: bool, staleP: nat, staleG: nat): (r: seq<RawEvent>)
    ensures hasPlanillas && hasGastos ==> r == Raw(rows, true, true)
    ensures hasPlanillas && !hasGastos ==> r == Raw(rows, true, false) + Stale(staleG, Gastos)
    ensures !hasPlanillas && hasGastos ==> r == Stale(staleP, Planillas) + Raw(rows, false, true)
    ensures !hasPlanillas && !hasGastos ==> |r| == staleP + staleG && forall i :: 0 <= i < |r| ==> IsStale(r[i])
  {
    (if hasPlanillas then Raw(rows, true, false) else Stale(staleP, Planillas))
    + (if hasGastos then Raw(rows, false, true) else Stale(staleG, Gastos))
  }

  /** `df_pagos` as the script leaves it. With no rows the frame stays empty.
      When neither side's columns exist but a pie-chart table has rows, the
      frame has no `razon_social`, `.get` returns the string `''`, and
      `.fillna` on it raises: the page fails, which is `None`. Otherwise the
      leftover chart rows are all dropped and the ledger is `Build`'s. */
  function Pagos(rows: seq<Account>, hasPlanillas: bool, hasGastos: bool, staleP: nat, staleG: nat,
                 parseText: TextParser): (r: Option<seq<Event>>)
    ensures r.None? <==> |rows| > 0 && !hasPlanillas && !hasGastos && staleP + staleG > 0
    ensures r.Some? ==> r.value == Build(rows, hasPlanillas, hasGastos, parseText)
  {
    if |rows| == 0 then
      assert Raw(rows, hasPlanillas, hasGastos) == [];
      Some([])
    else
      var parts := Parts(rows, hasPlanillas, hasGastos, staleP, staleG);
      if |parts| == 0 then
        assert Raw(rows, hasPlanillas, hasGastos) == [];
        Some([])
      else if !hasPlanillas && !hasGastos then None
      else
        PartsDropStale(rows, hasPlanillas, hasGastos, staleP, staleG, parseText);
        Some(Keep(Clean(parts, parseText)))
  }

  lemma PartsDropStale(rows: seq<Account>, hasPlanillas: bool, hasGastos: bool, staleP: nat, staleG: nat,
                       parseText: TextParser)
    requires hasPlanillas || hasGastos
    ensures Keep(Clean(Parts(rows, hasPlanillas, hasGastos, staleP, staleG), parseText))
            == Build(rows, hasPlanillas, hasGastos, parseText)
  {
    if hasPlanillas && !hasGastos {
      StaleAfter(Raw(rows, true, false), Stale(staleG, Gastos), parseText);
    } else if !hasPlanillas && hasGastos {
      StaleBefore(Stale(staleP, Planillas), Raw(rows, false, true), parseText);
    }
  }

  /** No gastos event comes before a planillas event. */
  predicate PlanillasFirst(es: seq<Event>) {
    forall i, j :: 0 <= i < j < |es| && es[i].kind == Gastos ==> es[j].kind == Gastos
  }

  lemma {:induction false} KeepPlanillasFirst(es: seq<Event>)
    requires PlanillasFirst(es)
    ensures PlanillasFirst(Keep(es))
  {
    if |es| > 0 {
      assert PlanillasFirst(es[1..]);
      KeepPlanillasFirst(es[1..]);
      var rest := Keep(es[1..]);
      if es[0].kind == Gastos {
        forall e | e in rest ensures e.kind == Gastos {
          var j :| 0 <= j < |es[1..]| && es[1..][j] == e;
          assert es[j + 1] == e;
        }
      }
    }
  }

  /** The ledger lists every planillas event before every gastos event. */
  lemma BuildPlanillasFirst(rows: seq<Account>, hasPlanillas: bool, hasGastos: bool, parseText: TextParser)
    ensures PlanillasFirst(Build(rows, hasPlanillas, hasGastos, parseText))
  {
    var raw := Raw(rows, hasPlanillas, hasGastos);
    var es := Clean(raw, parseText);
    var n := if hasPlanillas then |rows| else 0;
    forall i | 0 <= i < |es| ensures es[i].kind == Gastos <==> i >= n {
      assert es[i].kind == raw[i].kind;
    }
    KeepPlanillasFirst(es);
  }

  /** An account with a positive number recovered on planillas and no
      payment date still gives a kept event, with the default campaign. */
  lemma UndatedPaymentKept(a: Account, parseText: TextParser)
    requires a.recPlanillas == Num(150.0) && a.payDatePlanillas.Blank?
    requires a.campaign.None? && a.company == Some("ACME SAC")
    ensures Event(None, Some(150.0), "Sin campaña", "ACME SAC", Planillas) in Build([a], true, false, parseText)
  {
    var e := Event(None, Some(150.0), "Sin campaña", "ACME SAC", Planillas);
    var es := Clean(Raw([a], true, false), parseText);
    SingleAccountEvent(a, parseText);
    DefaultsStripped();
    assert [a.payDatePlanillas] == [Blank];
    assert es[0] == e;
    assert e in es;
  }

  /** The default campaign and the example company have nothing to strip. */
  lemma DefaultsStripped()
    ensures Strip("Sin campaña") == "Sin campaña" && Strip("ACME SAC") == "ACME SAC"
  {
    DefaultCampaignStripped();
    StripTrimmed("ACME SAC");
  }

  lemma DefaultCampaignStripped()
    ensures Strip("Sin campaña") == "Sin campaña"
  {
    StripTrimmed("Sin campaña");
  }

  /** A one-account sheet gives its planillas event first. */
  lemma SingleAccountEvent(a: Account, parseText: TextParser)
    ensures Clean(Raw([a], true, false), parseText)[0]
            == Event(ParseDateColumn([a.payDatePlanillas], parseText)[0], CleanCell(a.recPlanillas),
                     Strip(a.campaign.GetOr("Sin campaña")), Strip(a.company.GetOr("Desconocido")), Planillas)
  {
    var raw := Raw([a], true, false);
    assert raw == [RawOf(a, Planillas)];
    var dates := seq(|raw|, i requires 0 <= i < |raw| => raw[i].dateCell);
    assert dates == [a.payDatePlanillas];
  }

  /** The detail table strips `razon_social` once more; the ledger's
      companies are already stripped, so that changes nothing. */
  lemma CompanyRecleaned(rows: seq<Account>, hasPlanillas: bool, hasGastos: bool, parseText: TextParser)
    ensures forall e :: e in Build(rows, hasPlanillas, hasGastos, parseText) ==> Strip(e.company) == e.company
  {
    var es := Clean(Raw(rows, hasPlanillas, hasGastos), parseText);
    forall e | e in Build(rows, hasPlanillas, hasGastos, parseText) ensures Strip(e.company) == e.company {
      var i :| 0 <= i < |es| && es[i] == e;
      StripIdempotent(Raw(rows, hasPlanillas, hasGastos)[i].company.GetOr("Desconocido"));
    }
  }

  /** An event with neither a positive amount nor a date is dropped. */
  lemma UnpaidUndatedDropped(e: Event)
    requires e.date.None?
    requires e.amount.None? || e.amount.value <= 0.0
    ensures forall es :: e !in Keep(es)
  {
  }
}

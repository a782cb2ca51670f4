/** `resumen_nivel`: the accounts per risk level, in the fixed order
    `+ALTA`, `ALTA`, `MEDIA`, `BAJA`, each with its debt, its recovered
    planillas and its share of all accounts. Only levels some account has
    appear. */
module LevelSummary {
  import opened Wrappers
  import opened Records
  import opened Numbers
  import opened Grouping
  import opened Summary
  import opened Ordering
  import opened Risk

  /** `orden_niveles`. */
  const Order: seq<Level> := [Critical, High, Medium, Low]

  function Rank(l: Level): nat {
    match l
    case Critical => 0
    case High => 1
    case Medium => 2
    case Low => 3
  }

  predicate Ranked(ls: seq<Level>) {
    forall i, j :: 0 <= i < j < |ls| ==> Rank(ls[i]) < Rank(ls[j])
  }

  /** The accounts of one level. */
  function OfLevel(rows: seq<Account>, l: Level): seq<Account> {
    Group(rows, LevelKey, l.Name())
  }

  /** Every level is one of `orden_niveles`. */
  lemma OrderComplete()
    ensures forall l: Level :: l in Order
  {
    forall l: Level ensures l in Order {
      match l
      case Critical => assert Order[0] == l;
      case High => assert Order[1] == l;
      case Medium => assert Order[2] == l;
      case Low => assert Order[3] == l;
    }
  }

  /** The levels some account has. */
  function Filled(rows: seq<Account>): (f: set<Level>)
    ensures forall l :: l in f <==> |OfLevel(rows, l)| > 0
  {
    OrderComplete();
    set l | l in Order && |OfLevel(rows, l)| > 0
  }

  /** The levels of `ls` that are in `has`, in the order of `ls`. */
  function Present(has: set<Level>, ls: seq<Level>): (r: seq<Level>)
    requires Ranked(ls)
    ensures Ranked(r)
    ensures forall l :: l in r <==> l in ls && l in has
  {
    if |ls| == 0 then []
    else
      assert Ranked(ls[1..]) by {
        assert forall i :: 0 <= i < |ls| - 1 ==> ls[1..][i] == ls[i + 1];
      }
      var rest := Present(has, ls[1..]);
      if ls[0] in has then
        RankedCons(ls[0], ls, rest);
        [ls[0]] + rest
      else rest
  }

  /** The head of a ranked sequence ranks before anything drawn from its tail. */
  lemma RankedCons(x: Level, ls: seq<Level>, rest: seq<Level>)
    requires |ls| > 0 && x == ls[0] && Ranked(ls) && Ranked(rest)
    requires forall l :: l in rest ==> l in ls[1..]
    ensures Ranked([x] + rest)
  {
    forall l | l in rest ensures Rank(x) < Rank(l) {
      var j :| 0 <= j < |ls[1..]| && ls[1..][j] == l;
      assert ls[j + 1] == l;
    }
    var r := [x] + rest;
    forall i, j | 0 <= i < j < |r| ensures Rank(r[i]) < Rank(r[j]) {
      if i == 0 { assert r[j] in rest; } else { assert r[i] == rest[i - 1] && r[j] == rest[j - 1]; }
    }
  }

  /** The levels the summary shows, in `ORDEN` order. */
  function Levels(rows: seq<Account>): (ls: seq<Level>)
    ensures Ranked(ls)
    ensures forall l :: l in ls <==> |OfLevel(rows, l)| > 0
  {
    OrderComplete();
    Present(Filled(rows), Order)
  }

  function Names(ls: seq<Level>): (ns: seq<string>)
    ensures |ns| == |ls| && forall i :: 0 <= i < |ls| ==> ns[i] == ls[i].Name()
  {
    seq(|ls|, i requires 0 <= i < |ls| => ls[i].Name())
  }

  datatype LevelRow = LevelRow(level: Level, accounts: nat, debt: real, recovered: real, share: real)

  /** `resumen_nivel` sorted by `ORDEN`. */
  function Table(rows: seq<Account>): (t: seq<LevelRow>)
    ensures |t| == |Levels(rows)|
    ensures forall i :: 0 <= i < |t| ==> t[i].level == Levels(rows)[i]
    ensures forall i :: 0 <= i < |t| ==>
              && t[i].accounts == |OfLevel(rows, t[i].level)|
              && t[i].debt == Sum(OfLevel(rows, t[i].level), Debt)
              && t[i].recovered == Sum(OfLevel(rows, t[i].level), RecPlanillas)
              && t[i].share == Pct(t[i].accounts as real, AccountsColumn(Groups(rows)) as real)
  {
    var ls := Levels(rows);
    var total := AccountsColumn(Groups(rows));
    seq(|ls|, i requires 0 <= i < |ls| =>
      var g := OfLevel(rows, ls[i]);
      LevelRow(ls[i], |g|, Sum(g, Debt), Sum(g, RecPlanillas), Pct(|g| as real, total as real)))
  }

  /** The rows come in `ORDEN` order, each with at least one account. */
  lemma TableRanked(rows: seq<Account>)
    ensures var t := Table(rows);
            && (forall i, j :: 0 <= i < j < |t| ==> Rank(t[i].level) < Rank(t[j].level))
            && (forall i :: 0 <= i < |t| ==> t[i].accounts > 0)
  {
    var t, ls := Table(rows), Levels(rows);
    assert forall i :: 0 <= i < |t| ==> ls[i] in ls;
  }

  /** The level aggregates `agg(...)` computes, in `ORDEN` order. */
  function Groups(rows: seq<Account>): (gs: seq<Totals>)
    ensures |gs| == |Levels(rows)|
  {
    GroupTotals(rows, LevelKey, Names(Levels(rows)))
  }

  /** A level has accounts exactly when some account is classified there. */
  lemma LevelGroup(rows: seq<Account>, l: Level)
    ensures |OfLevel(rows, l)| > 0 <==> exists a :: a in rows && Classify(a) == l
  {
    GroupNonEmpty(rows, LevelKey, l.Name());
    if |OfLevel(rows, l)| > 0 {
      var a :| a in rows && KeyOf(a, LevelKey) == Some(l.Name());
      LevelKeyOf(a);
      NameInjective(Classify(a), l);
    }
    if exists a :: a in rows && Classify(a) == l {
      var a :| a in rows && Classify(a) == l;
      LevelKeyOf(a);
    }
  }

  /** The table's levels (see `Table`) are exactly the levels some account
      is classified at. */
  lemma PresentLevels(rows: seq<Account>, l: Level)
    ensures l in Levels(rows) <==> exists a :: a in rows && Classify(a) == l
  {
    LevelGroup(rows, l);
  }

  /** Every account is in exactly one level row: the counts add up to the
      number of accounts. */
  lemma CountsCoverTable(rows: seq<Account>)
    ensures AccountsColumn(Groups(rows)) == |rows|
  {
    var ps := Levels(rows);
    var ks := Names(ps);
    assert Distinct(ks) by {
      forall i, j | 0 <= i < j < |ks| ensures ks[i] != ks[j] {
        assert Rank(ps[i]) < Rank(ps[j]);
      }
    }
    forall a | a in rows && KeyOf(a, LevelKey).Some? ensures KeyOf(a, LevelKey).value in ks {
      var l := Classify(a);
      assert a in OfLevel(rows, l);
      assert l in Order;
      assert l in ps;
      var i :| 0 <= i < |ps| && ps[i] == l;
      assert ks[i] == l.Name();
    }
    Partition(ks, rows, LevelKey, Rows);
    ColumnOverKeys(rows, LevelKey, ks, Rows);
    SumSplit(rows, LevelKey, Rows);
    NothingUnkeyed(rows, LevelKey, Rows);
    SumRowsIsCount(rows);
  }

  function ShareColumn(t: seq<LevelRow>): real {
    if |t| == 0 then 0.0 else t[0].share + ShareColumn(t[1..])
  }

  function CountColumn(t: seq<LevelRow>): nat {
    if |t| == 0 then 0 else t[0].accounts + CountColumn(t[1..])
  }

  lemma {:induction false} SharesAdd(t: seq<LevelRow>, total: real)
    requires forall i :: 0 <= i < |t| ==> t[i].share == Pct(t[i].accounts as real, total)
    ensures ShareColumn(t) == Pct(CountColumn(t) as real, total)
  {
    if |t| == 0 {
    } else {
      assert forall i :: 0 <= i < |t| - 1 ==> t[1..][i] == t[i + 1];
      SharesAdd(t[1..], total);
      PctAdd(t[0].accounts as real, CountColumn(t[1..]) as real, total);
    }
  }

  lemma {:induction false} CountColumnIsAccounts(t: seq<LevelRow>, gs: seq<Totals>)
    requires |t| == |gs|
    requires forall i :: 0 <= i < |t| ==> t[i].accounts == gs[i].accounts
    ensures CountColumn(t) == AccountsColumn(gs)
  {
    if |t| > 0 {
      assert forall i :: 0 <= i < |t| - 1 ==> t[1..][i] == t[i + 1] && gs[1..][i] == gs[i + 1];
      CountColumnIsAccounts(t[1..], gs[1..]);
    }
  }

  /** The level counts add up to all accounts and, when there are any, the
      `% DEL TOTAL` column adds up to 100. */
  lemma SharesCoverTable(rows: seq<Account>)
    ensures CountColumn(Table(rows)) == |rows|
    ensures |rows| > 0 ==> ShareColumn(Table(rows)) == 100.0
  {
    var t := Table(rows);
    var gs := Groups(rows);
    CountsCoverTable(rows);
    assert forall i :: 0 <= i < |t| ==> t[i].accounts == gs[i].accounts;
    CountColumnIsAccounts(t, gs);
    SharesAdd(t, AccountsColumn(gs) as real);
  }
}

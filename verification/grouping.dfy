/** pandas `groupby(...).agg(...)` over the account table: column sums that
    treat missing values as 0, groups by a key column (rows whose key is
    missing are dropped), and the partition fact every TOTAL row relies on. */
module Grouping {
  import opened Wrappers
  import opened Text
  import opened Records
  import opened Ordering
  import Risk

  /** The quantities the summary tables sum: the row count, the managed
      count and the four money columns. */
  datatype Measure = Rows | ManagedRows | Debt | AdminFee | RecPlanillas | RecGastos
  {
    /** The four money columns, as opposed to the two counts. */
    predicate IsMoney() {
      this != Rows && this != ManagedRows
    }
  }

  function Value(a: Account, m: Measure): real {
    match m
    case Rows => 1.0
    case ManagedRows => if Managed(a) then 1.0 else 0.0
    case Debt => a.debt.GetOr(0.0)
    case AdminFee => a.adminFee.GetOr(0.0)
    case RecPlanillas => CellAmount(a.recPlanillas)
    case RecGastos => CellAmount(a.recGastos)
  }

  /** pandas column `sum()`: missing values add nothing. */
  function Sum(rows: seq<Account>, m: Measure): real {
    if |rows| == 0 then 0.0 else Value(rows[0], m) + Sum(rows[1..], m)
  }

  /** `x.notna().sum()` over ULTIMA FECHA GESTION. */
  function CountManaged(rows: seq<Account>): (n: nat)
    ensures n <= |rows|
    ensures n == |rows| <==> forall i :: 0 <= i < |rows| ==> Managed(rows[i])
  {
    if |rows| == 0 then 0
    else
      var n := (if Managed(rows[0]) then 1 else 0) + CountManaged(rows[1..]);
      assert forall i :: 1 <= i < |rows| ==> rows[i] == rows[1..][i - 1];
      n
  }

  lemma {:induction false} SumRowsIsCount(rows: seq<Account>)
    ensures Sum(rows, Rows) == |rows| as real
    ensures Sum(rows, ManagedRows) == CountManaged(rows) as real
  {
    if |rows| > 0 { SumRowsIsCount(rows[1..]); }
  }

  lemma {:induction false} SumAppend(a: seq<Account>, b: seq<Account>, m: Measure)
    ensures Sum(a + b, m) == Sum(a, m) + Sum(b, m)
  {
    if |a| == 0 {
      assert a + b == b;
    } else {
      assert (a + b)[1..] == a[1..] + b;
      SumAppend(a[1..], b, m);
    }
  }

  /** The key columns the tables group by. The advisor's first name is
      taken from `ASESOR.astype(str)`, so a missing advisor groups as
      "nan"; the risk level is always present. */
  datatype Key = CampaignKey | AdvisorKey | PriorityKey | FirstNameKey | LevelKey

  function KeyOf(a: Account, k: Key): Option<string> {
    match k
    case CampaignKey => a.campaign
    case AdvisorKey => a.advisor
    case PriorityKey => a.priority
    case FirstNameKey => Some(FirstWord(AsText(a.advisor)))
    case LevelKey => Some(Risk.Classify(a).Name())
  }

  /** An account's level key is the label of its risk level. */
  lemma LevelKeyOf(a: Account)
    ensures KeyOf(a, LevelKey) == Some(Risk.Classify(a).Name())
  {
  }

  /** The rows of one group, in table order. */
  function Group(rows: seq<Account>, k: Key, key: string): (g: seq<Account>)
    ensures |g| <= |rows|
    ensures forall a :: a in g <==> a in rows && KeyOf(a, k) == Some(key)
  {
    if |rows| == 0 then []
    else
      var g := (if KeyOf(rows[0], k) == Some(key) then [rows[0]] else []) + Group(rows[1..], k, key);
      assert forall a :: a in rows <==> a == rows[0] || a in rows[1..];
      g
  }

  /** The rows `groupby` keeps: those whose key is present. */
  function Keyed(rows: seq<Account>, k: Key): (r: seq<Account>)
    ensures |r| <= |rows|
    ensures forall a :: a in r <==> a in rows && KeyOf(a, k).Some?
  {
    if |rows| == 0 then []
    else
      var r := (if KeyOf(rows[0], k).Some? then [rows[0]] else []) + Keyed(rows[1..], k);
      assert forall a :: a in rows <==> a == rows[0] || a in rows[1..];
      r
  }

  /** The rows `groupby` drops: those whose key is missing. */
  function Unkeyed(rows: seq<Account>, k: Key): (r: seq<Account>)
    ensures forall a :: a in r <==> a in rows && KeyOf(a, k).None?
  {
    if |rows| == 0 then []
    else
      var r := (if KeyOf(rows[0], k).None? then [rows[0]] else []) + Unkeyed(rows[1..], k);
      assert forall a :: a in rows <==> a == rows[0] || a in rows[1..];
      r
  }

  /** A group holds each row with its key as often as the table does,
      and no other row. */
  lemma {:induction false} GroupMultiplicity(rows: seq<Account>, k: Key, key: string)
    ensures forall a :: multiset(Group(rows, k, key))[a]
                        == if KeyOf(a, k) == Some(key) then multiset(rows)[a] else 0
  {
    if |rows| > 0 {
      GroupMultiplicity(rows[1..], k, key);
      assert rows == [rows[0]] + rows[1..];
      assert multiset(rows) == multiset{rows[0]} + multiset(rows[1..]);
    }
  }

  /** `groupby` keeps each keyed row as often as the table has it. */
  lemma {:induction false} KeyedMultiplicity(rows: seq<Account>, k: Key)
    ensures forall a :: multiset(Keyed(rows, k))[a]
                        == if KeyOf(a, k).Some? then multiset(rows)[a] else 0
  {
    if |rows| > 0 {
      KeyedMultiplicity(rows[1..], k);
      assert rows == [rows[0]] + rows[1..];
      assert multiset(rows) == multiset{rows[0]} + multiset(rows[1..]);
    }
  }

  /** `groupby` drops each unkeyed row as often as the table has it. */
  lemma {:induction false} UnkeyedMultiplicity(rows: seq<Account>, k: Key)
    ensures forall a :: multiset(Unkeyed(rows, k))[a]
                        == if KeyOf(a, k).None? then multiset(rows)[a] else 0
  {
    if |rows| > 0 {
      UnkeyedMultiplicity(rows[1..], k);
      assert rows == [rows[0]] + rows[1..];
      assert multiset(rows) == multiset{rows[0]} + multiset(rows[1..]);
    }
  }

  /** The kept and the dropped rows together are the table, as a multiset. */
  lemma KeyedUnkeyedPartition(rows: seq<Account>, k: Key)
    ensures multiset(Keyed(rows, k)) + multiset(Unkeyed(rows, k)) == multiset(rows)
  {
    KeyedMultiplicity(rows, k);
    UnkeyedMultiplicity(rows, k);
  }

  /** Every row is either kept or dropped by `groupby`. */
  lemma {:induction false} SumSplit(rows: seq<Account>, k: Key, m: Measure)
    ensures Sum(rows, m) == Sum(Keyed(rows, k), m) + Sum(Unkeyed(rows, k), m)
  {
    if |rows| > 0 {
      SumSplit(rows[1..], k, m);
      var h := if KeyOf(rows[0], k).Some? then [rows[0]] else [];
      var u := if KeyOf(rows[0], k).None? then [rows[0]] else [];
      SumAppend(h, Keyed(rows[1..], k), m);
      SumAppend(u, Unkeyed(rows[1..], k), m);
    }
  }

  /** A group has rows exactly when some row carries its key. */
  lemma GroupNonEmpty(rows: seq<Account>, k: Key, key: string)
    ensures |Group(rows, k, key)| > 0 <==> exists a :: a in rows && KeyOf(a, k) == Some(key)
  {
    var g := Group(rows, k, key);
    if |g| > 0 {
      assert g[0] in g;
    }
  }

  /** When every row has its key, `groupby` drops nothing. */
  lemma {:induction false} NothingUnkeyed(rows: seq<Account>, k: Key, m: Measure)
    requires forall i :: 0 <= i < |rows| ==> KeyOf(rows[i], k).Some?
    ensures Sum(Unkeyed(rows, k), m) == 0.0
  {
    if |rows| > 0 {
      assert forall i :: 0 <= i < |rows[1..]| ==> rows[1..][i] == rows[i + 1];
      NothingUnkeyed(rows[1..], k, m);
      assert Unkeyed(rows, k) == Unkeyed(rows[1..], k);
    }
  }

  /** When every row has its key, `groupby` keeps every row. */
  lemma {:induction false} AllKeyed(rows: seq<Account>, k: Key)
    requires forall i :: 0 <= i < |rows| ==> KeyOf(rows[i], k).Some?
    ensures Keyed(rows, k) == rows
  {
    if |rows| > 0 {
      var rest := rows[1..];
      assert forall i :: 0 <= i < |rest| ==> rest[i] == rows[i + 1];
      AllKeyed(rest, k);
      assert KeyOf(rows[0], k).Some?;
      assert Keyed(rows, k) == [rows[0]] + Keyed(rest, k);
      HeadTail(rows);
    }
  }

  lemma HeadTail<T>(s: seq<T>)
    requires |s| > 0
    ensures s == [s[0]] + s[1..]
  {
  }

  /** The present keys, row by row. */
  function KeysOf(rows: seq<Account>, k: Key): (ks: seq<string>)
    ensures forall key :: key in ks <==> exists a :: a in rows && KeyOf(a, k) == Some(key)
  {
    if |rows| == 0 then []
    else
      var ks := (if KeyOf(rows[0], k).Some? then [KeyOf(rows[0], k).value] else []) + KeysOf(rows[1..], k);
      assert forall a :: a in rows <==> a == rows[0] || a in rows[1..];
      ks
  }

  /** The groups `groupby` forms, in its order: each present key once, ascending. */
  function GroupKeys(rows: seq<Account>, k: Key): (ks: seq<string>)
    ensures Ascending(ks) && Distinct(ks)
    ensures forall key :: key in ks <==> exists a :: a in rows && KeyOf(a, k) == Some(key)
    ensures forall i :: 0 <= i < |ks| ==> |Group(rows, k, ks[i])| > 0
  {
    var ks := SortedDistinct(KeysOf(rows, k));
    AscendingDistinct(ks);
    assert forall i :: 0 <= i < |ks| ==> |Group(rows, k, ks[i])| > 0 by {
      forall i | 0 <= i < |ks| ensures |Group(rows, k, ks[i])| > 0 {
        var a :| a in rows && KeyOf(a, k) == Some(ks[i]);
        assert a in Group(rows, k, ks[i]);
      }
    }
    ks
  }

  /** A measure summed group by group over the keys `ks`. */
  function SumOverKeys(ks: seq<string>, rows: seq<Account>, k: Key, m: Measure): real {
    if |ks| == 0 then 0.0
    else Sum(Group(rows, k, ks[0]), m) + SumOverKeys(ks[1..], rows, k, m)
  }

  /** Adding one row in front adds its value to the one group its key names. */
  lemma {:induction false} SumOverKeysStep(ks: seq<string>, rows: seq<Account>, k: Key, m: Measure)
    requires |rows| > 0 && Distinct(ks)
    ensures SumOverKeys(ks, rows, k, m)
            == SumOverKeys(ks, rows[1..], k, m)
               + (if KeyOf(rows[0], k).Some? && KeyOf(rows[0], k).value in ks then Value(rows[0], m) else 0.0)
  {
    if |ks| > 0 {
      assert Distinct(ks[1..]);
      SumOverKeysStep(ks[1..], rows, k, m);
      var h := if KeyOf(rows[0], k) == Some(ks[0]) then [rows[0]] else [];
      SumAppend(h, Group(rows[1..], k, ks[0]), m);
      if KeyOf(rows[0], k) == Some(ks[0]) {
        assert ks[0] !in ks[1..];
      } else {
        assert KeyOf(rows[0], k).Some? ==>
                 (KeyOf(rows[0], k).value in ks <==> KeyOf(rows[0], k).value in ks[1..]);
      }
    }
  }

  /** The groups over distinct keys that cover every present key partition
      the kept rows: their sums add up to the sum over all kept rows. */
  lemma {:induction false} Partition(ks: seq<string>, rows: seq<Account>, k: Key, m: Measure)
    requires Distinct(ks)
    requires forall a :: a in rows && KeyOf(a, k).Some? ==> KeyOf(a, k).value in ks
    ensures SumOverKeys(ks, rows, k, m) == Sum(Keyed(rows, k), m)
  {
    if |rows| == 0 {
      ZeroOverKeys(ks, rows, k, m);
    } else {
      assert forall a :: a in rows[1..] ==> a in rows;
      Partition(ks, rows[1..], k, m);
      SumOverKeysStep(ks, rows, k, m);
      var h := if KeyOf(rows[0], k).Some? then [rows[0]] else [];
      SumAppend(h, Keyed(rows[1..], k), m);
    }
  }

  lemma {:induction false} ZeroOverKeys(ks: seq<string>, rows: seq<Account>, k: Key, m: Measure)
    requires |rows| == 0
    ensures SumOverKeys(ks, rows, k, m) == 0.0
  {
    if |ks| > 0 { ZeroOverKeys(ks[1..], rows, k, m); }
  }

  /** The groups `groupby` forms add up to the rows it keeps. */
  lemma GroupsPartitionKeyed(rows: seq<Account>, k: Key, m: Measure)
    ensures SumOverKeys(GroupKeys(rows, k), rows, k, m) == Sum(Keyed(rows, k), m)
  {
    Partition(GroupKeys(rows, k), rows, k, m);
  }
}

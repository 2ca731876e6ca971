/** The dividend calendar: holdings with their payout months, the twelve monthly dividend
    buckets, row editing, toggling a payout month, CSV export and import, the tax-rate presets and
    the count of months below the monthly target. Amounts are exact reals. */
module Dividends {

  import opened Seqs
  import opened Text

  datatype Holding = Holding(id: string, name: string, ticker: Option<string>, shares: real, costPerShare: real,
                             annualDividendPerShare: real, payoutMonths: seq<int>,
                             sector: Option<string>, memo: Option<string>)

  // ---------------------------------------------------------------------------
  // Monthly buckets

  /** How often month `m` is listed. */
  function Occurrences(ms: seq<int>, m: int): nat
  {
    if ms == [] then 0 else Occurrences(ms[..|ms| - 1], m) + (if ms[|ms| - 1] == m then 1 else 0)
  }

  /** How many listed months lie in 1..12. */
  function ValidMonths(ms: seq<int>): nat
  {
    if ms == [] then 0 else ValidMonths(ms[..|ms| - 1]) + (if 1 <= ms[|ms| - 1] <= 12 then 1 else 0)
  }

  /** The dividend paid per listed month: the annual dividend split over every listed month
      (valid or not), after tax when the tax-adjusted view is on. */
  function PerPayout(h: Holding, taxRate: real, adjusted: bool): real
    requires |h.payoutMonths| > 0
  {
    var perPayout := h.shares * h.annualDividendPerShare / (|h.payoutMonths| as real);
    if adjusted then perPayout * taxRate else perPayout
  }

  /** What `d` per listing of month `m` adds up to: `d` once for every time `m` is listed. */
  function MonthAmount(ms: seq<int>, m: int, d: real): real
  {
    if ms == [] then 0.0 else MonthAmount(ms[..|ms| - 1], m, d) + (if ms[|ms| - 1] == m then d else 0.0)
  }

  /** What `d` per listing adds up to over the listings that name a month in 1..12. */
  function ValidAmount(ms: seq<int>, d: real): real
  {
    if ms == [] then 0.0 else ValidAmount(ms[..|ms| - 1], d) + (if 1 <= ms[|ms| - 1] <= 12 then d else 0.0)
  }

  /** Adding `d` once per listing of `m` is `d` times the number of listings. */
  lemma {:induction false} MonthAmountCounts(ms: seq<int>, m: int, d: real)
    ensures MonthAmount(ms, m, d) == Occurrences(ms, m) as real * d
    decreases |ms|
  {
    if ms != [] {
      MonthAmountCounts(ms[..|ms| - 1], m, d);
      var o := Occurrences(ms[..|ms| - 1], m) as real;
      assert (o + 1.0) * d == o * d + d;
    }
  }

  /** Adding `d` once per valid listing is `d` times the number of valid listings. */
  lemma {:induction false} ValidAmountCounts(ms: seq<int>, d: real)
    ensures ValidAmount(ms, d) == ValidMonths(ms) as real * d
    decreases |ms|
  {
    if ms != [] {
      ValidAmountCounts(ms[..|ms| - 1], d);
      var v := ValidMonths(ms[..|ms| - 1]) as real;
      assert (v + 1.0) * d == v * d + d;
    }
  }

  /** What one holding puts into month `m`. */
  function Payout(h: Holding, m: int, taxRate: real, adjusted: bool): real
  {
    if |h.payoutMonths| == 0 || !(1 <= m <= 12) then 0.0
    else MonthAmount(h.payoutMonths, m, PerPayout(h, taxRate, adjusted))
  }

  /** The bucket of month `m`: the sum of every holding's payout in it. */
  function MonthTotal(hs: seq<Holding>, m: int, taxRate: real, adjusted: bool): real
  {
    if hs == [] then 0.0 else MonthTotal(hs[..|hs| - 1], m, taxRate, adjusted) + Payout(hs[|hs| - 1], m, taxRate, adjusted)
  }

  /** What one holding puts into all buckets together. */
  function Paid(h: Holding, taxRate: real, adjusted: bool): real
  {
    if |h.payoutMonths| == 0 then 0.0 else ValidAmount(h.payoutMonths, PerPayout(h, taxRate, adjusted))
  }

  function PaidTotal(hs: seq<Holding>, taxRate: real, adjusted: bool): real
  {
    if hs == [] then 0.0 else PaidTotal(hs[..|hs| - 1], taxRate, adjusted) + Paid(hs[|hs| - 1], taxRate, adjusted)
  }

  lemma {:induction false} SumRealAdd(s: seq<real>, k: nat, d: real)
    requires k < |s|
    ensures SumReal(s[k := s[k] + d]) == SumReal(s) + d
    decreases |s|
  {
    if k > 0 {
      SumRealAdd(s[1..], k - 1, d);
      assert s[k := s[k] + d][1..] == s[1..][k - 1 := s[k] + d];
    }
  }

  lemma {:induction false} SumRealZeros(n: nat)
    ensures SumReal(seq(n, _ => 0.0)) == 0.0
  {
    if n > 0 {
      SumRealZeros(n - 1);
      assert seq(n, _ => 0.0)[1..] == seq(n - 1, _ => 0.0);
    }
  }

  /** The inner loop of `calculateMonthlyDividends`: each listed month in 1..12 receives `d`
      once per listing; the buckets as a whole grow by `d` per valid listing. */
  method AddPayouts(a: array<real>, ms: seq<int>, d: real)
    requires a.Length == 12
    modifies a
    ensures forall k :: 0 <= k < 12 ==> a[k] == old(a[k]) + MonthAmount(ms, k + 1, d)
    ensures SumReal(a[..]) == SumReal(old(a[..])) + ValidAmount(ms, d)
  {
    ghost var start := a[..];
    var j := 0;
    while j < |ms|
      invariant 0 <= j <= |ms|
      invariant forall k :: 0 <= k < 12 ==> a[k] == start[k] + MonthAmount(ms[..j], k + 1, d)
      invariant SumReal(a[..]) == SumReal(start) + ValidAmount(ms[..j], d)
    {
      var month := ms[j];
      assert ms[..j + 1][..j] == ms[..j];
      ghost var before := a[..];
      if 1 <= month <= 12 {
        SumRealAdd(a[..], month - 1, d);
        a[month - 1] := a[month - 1] + d;
        assert a[..] == before[month - 1 := before[month - 1] + d];
      }
      j := j + 1;
    }
    assert ms[..j] == ms;
  }

  /** `calculateMonthlyDividends`: twelve buckets, bucket `k` holding month `k + 1`'s total; the
      buckets add up to what the holdings pay into valid months. */
  method MonthlyDividends(hs: seq<Holding>, taxRate: real, adjusted: bool) returns (monthly: seq<real>)
    ensures |monthly| == 12
    ensures forall k :: 0 <= k < 12 ==> monthly[k] == MonthTotal(hs, k + 1, taxRate, adjusted)
    ensures SumReal(monthly) == PaidTotal(hs, taxRate, adjusted)
  {
    var a := new real[12](_ => 0.0);
    SumRealZeros(12);
    assert a[..] == seq(12, _ => 0.0);
    var i := 0;
    while i < |hs|
      invariant 0 <= i <= |hs|
      invariant forall k :: 0 <= k < 12 ==> a[k] == MonthTotal(hs[..i], k + 1, taxRate, adjusted)
      invariant SumReal(a[..]) == PaidTotal(hs[..i], taxRate, adjusted)
    {
      var h := hs[i];
      assert hs[..i + 1][..i] == hs[..i];
      if |h.payoutMonths| > 0 {
        AddPayouts(a, h.payoutMonths, PerPayout(h, taxRate, adjusted));
      }
      i := i + 1;
    }
    assert hs[..i] == hs;
    monthly := a[..];
  }

  /** With every listed month valid, all of a holding's month list is paid out: the buckets
      receive exactly its annual dividend, after tax when the view is adjusted. */
  lemma AllMonthsValidPaysAnnual(h: Holding, taxRate: real, adjusted: bool)
    requires |h.payoutMonths| > 0
    requires forall j :: 0 <= j < |h.payoutMonths| ==> 1 <= h.payoutMonths[j] <= 12
    ensures Paid(h, taxRate, adjusted) ==
      if adjusted then h.shares * h.annualDividendPerShare * taxRate else h.shares * h.annualDividendPerShare
  {
    AllValid(h.payoutMonths);
    ValidAmountCounts(h.payoutMonths, PerPayout(h, taxRate, adjusted));
    var n := |h.payoutMonths| as real;
    var annual := h.shares * h.annualDividendPerShare;
    assert n * (annual / n) == annual;
  }

  lemma {:induction false} AllValid(ms: seq<int>)
    requires forall j :: 0 <= j < |ms| ==> 1 <= ms[j] <= 12
    ensures ValidMonths(ms) == |ms|
    decreases |ms|
  {
    if ms != [] {
      AllValid(ms[..|ms| - 1]);
    }
  }

  /** The test of the `shortfallMonths` filter. */
  function BelowTarget(target: real): real -> bool
  {
    (v: real) => v < target
  }

  /** `shortfallMonths`: the number of buckets strictly below the target. */
  function ShortfallMonths(monthly: seq<real>, target: real): (n: nat)
    ensures n <= |monthly|
    ensures (forall k :: 0 <= k < |monthly| ==> monthly[k] < target) ==> n == |monthly|
    ensures (forall k :: 0 <= k < |monthly| ==> monthly[k] >= target) ==> n == 0
  {
    var below := Filter(monthly, BelowTarget(target));
    assert (forall k :: 0 <= k < |monthly| ==> monthly[k] >= target) ==> below == [] by {
      if below != [] {
        assert below[0] in monthly;
      }
    }
    |below|
  }

  /** The count goes bucket by bucket: one more bucket adds one exactly when it is below the
      target. */
  lemma ShortfallAppend(monthly: seq<real>, v: real, target: real)
    ensures ShortfallMonths(monthly + [v], target) == ShortfallMonths(monthly, target) + (if v < target then 1 else 0)
  {
    FilterAppend(monthly, [v], BelowTarget(target));
  }

  // ---------------------------------------------------------------------------
  // Payout months

  predicate Sorted(ms: seq<int>)
  {
    forall i, j :: 0 <= i < j < |ms| ==> ms[i] <= ms[j]
  }

  predicate StrictlySorted(ms: seq<int>)
  {
    forall i, j :: 0 <= i < j < |ms| ==> ms[i] < ms[j]
  }

  /** A bound below every element of a sorted list can go in front. */
  lemma SortedCons(x: int, s: seq<int>)
    requires Sorted(s) && forall y :: y in s ==> x <= y
    ensures Sorted([x] + s)
  {
    var r := [x] + s;
    forall i, j | 0 <= i < j < |r| ensures r[i] <= r[j] {
      assert r[j] == s[j - 1] && r[j] in s;
      if i > 0 {
        assert r[i] == s[i - 1];
      }
    }
  }

  /** Inserts `m` after every element not larger than it. */
  function Insert(ms: seq<int>, m: int): (r: seq<int>)
    requires Sorted(ms)
    ensures Sorted(r)
    ensures |r| == |ms| + 1 && multiset(r) == multiset(ms) + multiset{m}
    decreases |ms|
  {
    if ms == [] then [m]
    else if m < ms[0] then
      SortedCons(m, ms);
      [m] + ms
    else
      var rest := Insert(ms[1..], m);
      assert ms == [ms[0]] + ms[1..];
      assert forall x :: x in rest ==> ms[0] <= x by {
        forall x | x in rest ensures ms[0] <= x {
          assert x in multiset(rest);
        }
      }
      SortedCons(ms[0], rest);
      [ms[0]] + rest
  }

  /** `sort((a, b) => a - b)`: ascending order, a permutation of the input. */
  function SortAsc(ms: seq<int>): (r: seq<int>)
    ensures Sorted(r) && multiset(r) == multiset(ms)
    decreases |ms|
  {
    if ms == [] then []
    else
      assert ms == ms[..|ms| - 1] + [ms[|ms| - 1]];
      Insert(SortAsc(ms[..|ms| - 1]), ms[|ms| - 1])
  }

  /** `filter(x => x !== m)`. */
  function Remove(ms: seq<int>, m: int): (r: seq<int>)
    ensures m !in r
    ensures forall x :: x != m ==> (x in r <==> x in ms)
    ensures IsSubsequence(r, ms)
    ensures forall x :: multiset(r)[x] == if x == m then 0 else multiset(ms)[x]
    decreases |ms|
  {
    if ms == [] then []
    else
      var rest := Remove(ms[1..], m);
      assert ms == [ms[0]] + ms[1..];
      assert forall x :: x in ms <==> x == ms[0] || x in ms[1..];
      assert multiset(ms) == multiset{ms[0]} + multiset(ms[1..]);
      if ms[0] == m then rest
      else
        assert multiset([ms[0]] + rest) == multiset{ms[0]} + multiset(rest);
        [ms[0]] + rest
  }

  /** `togglePayoutMonth` on one month list: a listed month is removed (every copy of it); an
      unlisted one is added and the list sorted. */
  function ToggleMonths(ms: seq<int>, m: int): (r: seq<int>)
    ensures m in ms ==> m !in r && forall x :: x != m ==> (x in r <==> x in ms)
    ensures m in ms ==> IsSubsequence(r, ms) && forall x :: multiset(r)[x] == if x == m then 0 else multiset(ms)[x]
    ensures m !in ms ==> Sorted(r) && multiset(r) == multiset(ms) + multiset{m}
  {
    if m in ms then Remove(ms, m) else SortAsc(ms + [m])
  }

  lemma {:induction false} InsertAtEnd(ms: seq<int>, m: int)
    requires Sorted(ms) && forall j :: 0 <= j < |ms| ==> ms[j] <= m
    ensures Insert(ms, m) == ms + [m]
    decreases |ms|
  {
    if ms != [] {
      InsertAtEnd(ms[1..], m);
      assert ms == [ms[0]] + ms[1..];
    }
  }

  /** Sorting an already sorted list changes nothing. */
  lemma {:induction false} SortSorted(ms: seq<int>)
    requires Sorted(ms)
    ensures SortAsc(ms) == ms
    decreases |ms|
  {
    if ms != [] {
      var init, last := ms[..|ms| - 1], ms[|ms| - 1];
      SortedInit(ms);
      calc {
        SortAsc(ms);
        Insert(SortAsc(init), last);
        { SortSorted(init); }
        Insert(init, last);
        { InsertAtEnd(init, last); }
        init + [last];
        { assert init + [last] == ms; }
        ms;
      }
    }
  }

  /** Dropping the last element of an ascending list leaves an ascending list below it. */
  lemma SortedInit(ms: seq<int>)
    requires Sorted(ms) && ms != []
    ensures Sorted(ms[..|ms| - 1])
    ensures forall j :: 0 <= j < |ms| - 1 ==> ms[j] <= ms[|ms| - 1]
  {
  }

  /** A strict bound below every element of a strictly ascending list can go in front. */
  lemma StrictCons(x: int, s: seq<int>)
    requires StrictlySorted(s) && forall y :: y in s ==> x < y
    ensures StrictlySorted([x] + s)
  {
    var r := [x] + s;
    forall i, j | 0 <= i < j < |r| ensures r[i] < r[j] {
      assert r[j] == s[j - 1] && r[j] in s;
      if i > 0 {
        assert r[i] == s[i - 1];
      }
    }
  }

  lemma {:induction false} InsertStrict(ms: seq<int>, m: int)
    requires StrictlySorted(ms) && m !in ms
    ensures StrictlySorted(Insert(ms, m))
    decreases |ms|
  {
    if ms == [] {
    } else if m < ms[0] {
      forall y | y in ms ensures m < y {
        var k :| 0 <= k < |ms| && ms[k] == y;
        assert k == 0 || ms[0] < ms[k];
      }
      StrictCons(m, ms);
    } else {
      var rest := Insert(ms[1..], m);
      InsertStrict(ms[1..], m);
      assert ms == [ms[0]] + ms[1..];
      forall y | y in rest ensures ms[0] < y {
        assert y in multiset(rest);
        assert y == m || y in ms[1..];
      }
      StrictCons(ms[0], rest);
    }
  }

  lemma {:induction false} RemoveStrict(ms: seq<int>, m: int)
    requires StrictlySorted(ms)
    ensures StrictlySorted(Remove(ms, m))
    decreases |ms|
  {
    if ms != [] {
      RemoveStrict(ms[1..], m);
      var rest := Remove(ms[1..], m);
      if ms[0] != m {
        var r := [ms[0]] + rest;
        forall i, j | 0 <= i < j < |r| ensures r[i] < r[j] {
          if i == 0 {
            assert r[j] in rest && r[j] in ms[1..];
          } else {
            assert r[i] == rest[i - 1] && r[j] == rest[j - 1];
          }
        }
      }
    }
  }

  /** Removing a month that was just inserted gives the list back. */
  lemma {:induction false} RemoveInsert(ms: seq<int>, m: int)
    requires StrictlySorted(ms) && m !in ms
    ensures Remove(Insert(ms, m), m) == ms
    decreases |ms|
  {
    if ms == [] {
    } else if m < ms[0] {
      var r := Insert(ms, m);
      assert r[1..] == ms;
      NotInRemove(ms, m);
    } else {
      RemoveInsert(ms[1..], m);
      var r := Insert(ms, m);
      assert r[1..] == Insert(ms[1..], m);
      assert ms == [ms[0]] + ms[1..];
    }
  }

  lemma {:induction false} NotInRemove(ms: seq<int>, m: int)
    requires m !in ms
    ensures Remove(ms, m) == ms
    decreases |ms|
  {
    if ms != [] {
      NotInRemove(ms[1..], m);
      assert ms == [ms[0]] + ms[1..];
    }
  }

  /** Inserting a month that was just removed from a strictly ascending list gives it back. */
  lemma {:induction false} InsertRemove(ms: seq<int>, m: int)
    requires StrictlySorted(ms) && m in ms
    ensures StrictlySorted(Remove(ms, m))
    ensures Insert(Remove(ms, m), m) == ms
    decreases |ms|
  {
    RemoveStrict(ms, m);
    if ms[0] == m {
      assert m !in ms[1..];
      NotInRemove(ms[1..], m);
      assert Remove(ms, m) == ms[1..];
      assert ms == [ms[0]] + ms[1..];
    } else {
      InsertRemove(ms[1..], m);
      assert Remove(ms, m) == [ms[0]] + Remove(ms[1..], m);
      assert ms == [ms[0]] + ms[1..];
    }
  }

  /** On a strictly ascending month list, toggling keeps it strictly ascending, and toggling the
      same month twice gives the list back. */
  lemma ToggleTwice(ms: seq<int>, m: int)
    requires StrictlySorted(ms)
    ensures StrictlySorted(ToggleMonths(ms, m))
    ensures ToggleMonths(ToggleMonths(ms, m), m) == ms
  {
    var sortedMs := ms + [m];
    if m in ms {
      InsertRemove(ms, m);
      var t := Remove(ms, m);
      assert (t + [m])[..|t|] == t;
      SortSorted(t);
      assert SortAsc(t + [m]) == Insert(t, m);
    } else {
      assert (ms + [m])[..|ms|] == ms;
      SortSorted(ms);
      assert ToggleMonths(ms, m) == Insert(ms, m);
      InsertStrict(ms, m);
      assert m in multiset(Insert(ms, m));
      RemoveInsert(ms, m);
    }
  }

  // ---------------------------------------------------------------------------
  // Rows

  /** `addRow`: one blank holding, whose id is the clock value as text, is appended. */
  function AddRow(hs: seq<Holding>, now: nat): (r: seq<Holding>)
    ensures |r| == |hs| + 1 && r[..|hs|] == hs
    ensures var h := r[|hs|];
      h.id == NatToString(now) && h.name == "" && h.ticker.None? && h.shares == 0.0 &&
      h.costPerShare == 0.0 && h.annualDividendPerShare == 0.0 && h.payoutMonths == [] &&
      h.sector.None? && h.memo.None?
  {
    hs + [Holding(NatToString(now), "", None, 0.0, 0.0, 0.0, [], None, None)]
  }

  /** `deleteRow`: removes every holding with the id and keeps the rest in order. */
  function DeleteRow(hs: seq<Holding>, id: string): (r: seq<Holding>)
    ensures forall i :: 0 <= i < |r| ==> r[i].id != id && r[i] in hs
    ensures forall i :: 0 <= i < |hs| && hs[i].id != id ==> hs[i] in r
    ensures IsSubsequence(r, hs)
    ensures forall x :: multiset(r)[x] == if x.id != id then multiset(hs)[x] else 0
  {
    var keep := (h: Holding) => h.id != id;
    FilterCounts(hs, keep);
    Filter(hs, keep)
  }

  /** Deleting a row that was just added, under a fresh id, gives the holdings back. */
  lemma DeleteAddedRow(hs: seq<Holding>, now: nat)
    requires forall i :: 0 <= i < |hs| ==> hs[i].id != NatToString(now)
    ensures DeleteRow(AddRow(hs, now), NatToString(now)) == hs
  {
    var id := NatToString(now);
    var added := AddRow(hs, now);
    FilterAppend(hs, [added[|hs|]], (h: Holding) => h.id != id);
    assert added == hs + [added[|hs|]];
  }

  /** The fields of a holding. */
  datatype Field = IdField | NameField | TickerField | SharesField | CostField | DividendField
                 | MonthsField | SectorField | MemoField

  /** One field set to a new value: `{ ...h, [field]: value }`. */
  datatype Edit = SetId(id: string) | SetName(name: string) | SetTicker(ticker: Option<string>)
                | SetShares(shares: real) | SetCost(cost: real) | SetDividend(dividend: real)
                | SetMonths(months: seq<int>) | SetSector(sector: Option<string>) | SetMemo(memo: Option<string>)

  function FieldOf(e: Edit): Field
  {
    match e
    case SetId(_) => IdField
    case SetName(_) => NameField
    case SetTicker(_) => TickerField
    case SetShares(_) => SharesField
    case SetCost(_) => CostField
    case SetDividend(_) => DividendField
    case SetMonths(_) => MonthsField
    case SetSector(_) => SectorField
    case SetMemo(_) => MemoField
  }

  function Apply(h: Holding, e: Edit): Holding
  {
    match e
    case SetId(v) => h.(id := v)
    case SetName(v) => h.(name := v)
    case SetTicker(v) => h.(ticker := v)
    case SetShares(v) => h.(shares := v)
    case SetCost(v) => h.(costPerShare := v)
    case SetDividend(v) => h.(annualDividendPerShare := v)
    case SetMonths(v) => h.(payoutMonths := v)
    case SetSector(v) => h.(sector := v)
    case SetMemo(v) => h.(memo := v)
  }

  /** The two holdings agree on field `f`. */
  predicate Agree(a: Holding, b: Holding, f: Field)
  {
    match f
    case IdField => a.id == b.id
    case NameField => a.name == b.name
    case TickerField => a.ticker == b.ticker
    case SharesField => a.shares == b.shares
    case CostField => a.costPerShare == b.costPerShare
    case DividendField => a.annualDividendPerShare == b.annualDividendPerShare
    case MonthsField => a.payoutMonths == b.payoutMonths
    case SectorField => a.sector == b.sector
    case MemoField => a.memo == b.memo
  }

  /** An edit writes its own field and leaves every other field as it was. */
  lemma ApplyChangesOneField(h: Holding, e: Edit)
    ensures forall f :: f != FieldOf(e) ==> Agree(Apply(h, e), h, f)
    ensures Apply(h, e) == h <==> Agree(Apply(h, e), h, FieldOf(e))
  {
  }

  /** `updateHolding`: every holding with the id gets the edit; the others are unchanged. */
  function UpdateHolding(hs: seq<Holding>, id: string, e: Edit): (r: seq<Holding>)
    ensures |r| == |hs|
    ensures forall i :: 0 <= i < |hs| && hs[i].id != id ==> r[i] == hs[i]
    ensures forall i :: 0 <= i < |hs| && hs[i].id == id ==>
      (forall f :: f != FieldOf(e) ==> Agree(r[i], hs[i], f)) && r[i] == Apply(hs[i], e)
  {
    seq(|hs|, i requires 0 <= i < |hs| => if hs[i].id == id then Apply(hs[i], e) else hs[i])
  }

  /** The first holding with the id. */
  function FindHolding(hs: seq<Holding>, id: string): (r: Option<Holding>)
    ensures r.None? <==> forall i :: 0 <= i < |hs| ==> hs[i].id != id
    ensures r.Some? ==> r.value in hs && r.value.id == id
    ensures r.Some? ==> exists i :: 0 <= i < |hs| && hs[i] == r.value && forall j :: 0 <= j < i ==> hs[j].id != id
    decreases |hs|
  {
    if hs == [] then None
    else if hs[0].id == id then Some(hs[0])
    else
      var rest := FindHolding(hs[1..], id);
      assert forall i :: 1 <= i < |hs| ==> hs[i] == hs[1..][i - 1];
      if rest.Some? then
        var i :| 0 <= i < |hs[1..]| && hs[1..][i] == rest.value && forall j :: 0 <= j < i ==> hs[1..][j].id != id;
        assert hs[i + 1] == rest.value && forall j :: 0 <= j < i + 1 ==> hs[j].id != id;
        rest
      else rest
  }

  /** `togglePayoutMonth(id, month)`: an unknown id changes nothing; otherwise the first matching
      holding's months are toggled and written to every holding with that id. */
  function TogglePayoutMonth(hs: seq<Holding>, id: string, month: int): (r: seq<Holding>)
    ensures FindHolding(hs, id).None? ==> r == hs
    ensures FindHolding(hs, id).Some? ==>
      r == UpdateHolding(hs, id, SetMonths(ToggleMonths(FindHolding(hs, id).value.payoutMonths, month)))
  {
    match FindHolding(hs, id)
    case None => hs
    case Some(h) => UpdateHolding(hs, id, SetMonths(ToggleMonths(h.payoutMonths, month)))
  }

  // ---------------------------------------------------------------------------
  // Tax presets

  datatype TaxPreset = Domestic | Foreign | Custom

  /** The preset factors: 20.315% withheld at home and abroad, and 1 for a custom rate. */
  function PresetRate(p: TaxPreset): real
  {
    match p
    case Domestic => 0.79685
    case Foreign => 0.7971
    case Custom => 1.0
  }

  /** `handleTaxPresetChange`: the custom preset takes the custom rate; every other preset takes
      its constant, which lies strictly between 0 and 1. */
  function TaxRateFor(p: TaxPreset, customTaxRate: real): (rate: real)
    ensures p == Custom ==> rate == customTaxRate
    ensures p != Custom ==> rate == PresetRate(p) && 0.0 < rate < 1.0
  {
    if p == Custom then customTaxRate else PresetRate(p)
  }

  // ---------------------------------------------------------------------------
  // CSV export and import

  const Bom: char := '\U{FEFF}'

  /** The header line: the eight column titles joined by commas. */
  const HeaderLine: string := "銘柄名,ティッカー,株数,取得単価,年間配当/株,配当月,セクター,メモ"

  /** A line that survives splitting at line breaks and dropping blank lines. */
  predicate CleanLine(line: string)
  {
    '\n' !in line && NotBlank(line)
  }

  /** The header line is neither blank nor broken across lines. */
  lemma HeaderLineClean()
    ensures CleanLine(HeaderLine)
  {
    assert !IsSpace(HeaderLine[0]);
  }

  /** `value || ''`. */
  function OrEmpty(v: Option<string>): string
  {
    if v.Some? then v.value else ""
  }

  /** `value || undefined`: an empty cell is no value. */
  function NonEmpty(s: string): (v: Option<string>)
    ensures v.Some? <==> s != ""
    ensures v.Some? ==> v.value == s
  {
    if s == "" then None else Some(s)
  }

  /** `payoutMonths.map(String)`: one text per month, in order, free of `;`, each reading back
      through `trim` and `parseInt(_, 10)` as its month. */
  function MonthTexts(ms: seq<int>): (ts: seq<string>)
    ensures |ts| == |ms| && forall k :: 0 <= k < |ms| ==> ts[k] == IntToString(ms[k])
    ensures forall k :: 0 <= k < |ms| ==> ';' !in ts[k] && ParseInt(Trim(ts[k])) == Some(ms[k])
  {
    EachMonthTextReadsBack(ms);
    seq(|ms|, k requires 0 <= k < |ms| => IntToString(ms[k]))
  }

  lemma EachMonthTextReadsBack(ms: seq<int>)
    ensures forall k :: 0 <= k < |ms| ==> ';' !in IntToString(ms[k]) && ParseInt(Trim(IntToString(ms[k]))) == Some(ms[k])
  {
    forall k | 0 <= k < |ms|
      ensures ';' !in IntToString(ms[k]) && ParseInt(Trim(IntToString(ms[k]))) == Some(ms[k])
    {
      var t := IntToString(ms[k]);
      assert forall i :: 0 <= i < |t| ==> IsDigit(t[i]) || t[i] == '-';
      MonthTextReadsBack(ms[k]);
    }
  }

  /** One exported row; `fmt` is JavaScript's conversion of a number to text. */
  function ExportRow(h: Holding, fmt: real -> string): seq<string>
  {
    [h.name, OrEmpty(h.ticker), fmt(h.shares), fmt(h.costPerShare), fmt(h.annualDividendPerShare),
     Join(MonthTexts(h.payoutMonths), ';'), OrEmpty(h.sector), OrEmpty(h.memo)]
  }

  /** One exported line: the row's cells joined by commas. */
  function RowLine(h: Holding, fmt: real -> string): string
  {
    Join(ExportRow(h, fmt), ',')
  }

  function RowLines(hs: seq<Holding>, fmt: real -> string): (lines: seq<string>)
    ensures |lines| == |hs| && forall i :: 0 <= i < |hs| ==> lines[i] == RowLine(hs[i], fmt)
  {
    seq(|hs|, i requires 0 <= i < |hs| => RowLine(hs[i], fmt))
  }

  /** The lines of the file: the header, then one line per holding. */
  function ExportLines(header: string, hs: seq<Holding>, fmt: real -> string): seq<string>
  {
    [header] + RowLines(hs, fmt)
  }

  /** A file text: a byte-order mark, the header line, then one line per holding. */
  function ExportFile(header: string, hs: seq<Holding>, fmt: real -> string): string
  {
    [Bom] + Join(ExportLines(header, hs, fmt), '\n')
  }

  /** `exportCSV`'s file text, under the Japanese column titles. */
  function ExportCsv(hs: seq<Holding>, fmt: real -> string): string
  {
    ExportFile(HeaderLine, hs, fmt)
  }

  /** `parseInt(m.trim(), 10)` on each `;`-separated token, dropping the `NaN`s; an empty cell
      has no months. */
  function ParseMonths(cell: string): seq<int>
  {
    if cell == "" then [] else Numbers(Split(cell, ';'))
  }

  function Numbers(tokens: seq<string>): seq<int>
  {
    if tokens == [] then []
    else
      match ParseInt(Trim(tokens[0]))
      case Some(v) => [v] + Numbers(tokens[1..])
      case None => Numbers(tokens[1..])
  }

  /** `parseFloat(cell) || 0`. */
  function NumberCell(cell: string): real
  {
    match ParseFloat(cell)
    case Some(v) => v
    case None => 0.0
  }

  function Cell(cols: seq<string>, k: nat): string
  {
    if k < |cols| then cols[k] else ""
  }

  /** Line `i` of the file as a holding; lines with fewer than six columns are skipped. */
  function ImportRow(line: string, i: nat, now: nat): Option<Holding>
  {
    var cols := Split(line, ',');
    if |cols| < 6 then None
    else Some(Holding(NatToString(now) + NatToString(i), cols[0], NonEmpty(cols[1]),
                      NumberCell(cols[2]), NumberCell(cols[3]), NumberCell(cols[4]),
                      ParseMonths(cols[5]), NonEmpty(Cell(cols, 6)), NonEmpty(Cell(cols, 7))))
  }

  /** `ImportRow` as a function of a line and its number, with the clock read anew for every
      line: `clock(i)` is what `Date.now()` returns while line `i` is being read. */
  function RowParser(clock: nat -> nat): (string, nat) -> Option<Holding>
  {
    (line: string, i: nat) => ImportRow(line, i, clock(i))
  }

  /** What `parse` makes of lines `1..upTo`, keeping the rows it accepts, in order. */
  function Collect(lines: seq<string>, upTo: nat, parse: (string, nat) -> Option<Holding>): seq<Holding>
    requires upTo <= |lines|
  {
    if upTo <= 1 then []
    else
      var before := Collect(lines, upTo - 1, parse);
      match parse(lines[upTo - 1], upTo - 1)
      case Some(h) => before + [h]
      case None => before
  }

  /** The holdings read from every line after the header. */
  function ImportRows(lines: seq<string>, clock: nat -> nat): seq<Holding>
  {
    Collect(lines, |lines|, RowParser(clock))
  }

  predicate NotBlank(line: string)
  {
    !AllSpace(line)
  }

  /** The non-blank lines of the file, without a leading byte-order mark. */
  function Lines(text: string): seq<string>
  {
    var clean := if text != [] && text[0] == Bom then text[1..] else text;
    Filter(Split(clean, '\n'), NotBlank)
  }

  datatype Imported = Unchanged(reason: string) | Loaded(holdings: seq<Holding>)

  /** `importCSV`'s parsing: fewer than two non-blank lines, or no usable row, leaves the holdings
      as they were; otherwise the rows after the header replace them. `clock` gives, per line,
      the clock value its id is built from. */
  method ImportCsv(text: string, clock: nat -> nat) returns (res: Imported)
    ensures |Lines(text)| < 2 ==> res.Unchanged?
    ensures |Lines(text)| >= 2 && ImportRows(Lines(text), clock) == [] ==> res.Unchanged?
    ensures |Lines(text)| >= 2 && ImportRows(Lines(text), clock) != [] ==> res == Loaded(ImportRows(Lines(text), clock))
  {
    var lines := Lines(text);
    if |lines| < 2 {
      return Unchanged("the file is empty");
    }
    var data := ReadRows(lines, RowParser(clock));
    if |data| > 0 {
      return Loaded(data);
    }
    return Unchanged("no rows");
  }

  /** The loop over the lines after the header, keeping the rows that parse. */
  method ReadRows(lines: seq<string>, parse: (string, nat) -> Option<Holding>) returns (data: seq<Holding>)
    requires |lines| >= 1
    ensures data == Collect(lines, |lines|, parse)
  {
    data := [];
    var i := 1;
    while i < |lines|
      invariant 1 <= i <= |lines|
      invariant data == Collect(lines, i, parse)
    {
      var row := parse(lines[i], i);
      if row.Some? {
        data := data + [row.value];
      }
      i := i + 1;
    }
  }

  // ---------------------------------------------------------------------------
  // Export then import

  /** A number `fmt` writes as text that reads back as the same number. */
  predicate ReadsBack(fmt: real -> string, x: real)
  {
    ParseFloat(fmt(x)) == Some(x) && ',' !in fmt(x) && '\n' !in fmt(x)
  }

  /** No text field holds a comma or a line break, and every number reads back. */
  predicate Exportable(h: Holding, fmt: real -> string)
  {
    ',' !in h.name && '\n' !in h.name &&
    ',' !in OrEmpty(h.ticker) && '\n' !in OrEmpty(h.ticker) &&
    ',' !in OrEmpty(h.sector) && '\n' !in OrEmpty(h.sector) &&
    ',' !in OrEmpty(h.memo) && '\n' !in OrEmpty(h.memo) &&
    ReadsBack(fmt, h.shares) && ReadsBack(fmt, h.costPerShare) && ReadsBack(fmt, h.annualDividendPerShare)
  }

  /** What import makes of an exported holding: a new id, and empty texts read as no value. */
  function Reimported(h: Holding, i: nat, now: nat): Holding
  {
    h.(id := NatToString(now) + NatToString(i), ticker := NonEmpty(OrEmpty(h.ticker)),
       sector := NonEmpty(OrEmpty(h.sector)), memo := NonEmpty(OrEmpty(h.memo)))
  }

  /** A character of a joined text comes from a part or is the separator. */
  lemma {:induction false} JoinChars(parts: seq<string>, sep: char, c: char)
    requires c != sep && forall k :: 0 <= k < |parts| ==> c !in parts[k]
    ensures c !in Join(parts, sep)
    decreases |parts|
  {
    if |parts| > 1 {
      JoinChars(parts[1..], sep, c);
    }
  }

  /** One month number written by `String` reads back through trimming and `parseInt`. */
  lemma MonthTextReadsBack(m: int)
    ensures ParseInt(Trim(IntToString(m))) == Some(m)
  {
    var t := IntToString(m);
    assert !IsSpace(t[0]) && !IsSpace(t[|t| - 1]);
    TrimUnspaced(t);
    ParseIntOfIntToString(m);
  }

  lemma {:induction false} NumbersOfTexts(ms: seq<int>)
    ensures Numbers(MonthTexts(ms)) == ms
    decreases |ms|
  {
    if ms != [] {
      var ts := MonthTexts(ms);
      MonthTextReadsBack(ms[0]);
      assert ts[1..] == MonthTexts(ms[1..]);
      NumbersOfTexts(ms[1..]);
    }
  }

  /** An integer month list survives `join(';')` followed by the import's month parsing. */
  lemma MonthsRoundTrip(ms: seq<int>)
    ensures ParseMonths(Join(MonthTexts(ms), ';')) == ms
  {
    var ts := MonthTexts(ms);
    if ms != [] {
      forall k | 0 <= k < |ts| ensures ';' !in ts[k] {
        assert forall i :: 0 <= i < |ts[k]| ==> IsDigit(ts[k][i]) || ts[k][i] == '-';
      }
      SplitJoin(ts, ';');
      assert Join(ts, ';') != "" by {
        if |ts| == 1 { assert Join(ts, ';') == ts[0]; }
      }
      NumbersOfTexts(ms);
    }
  }

  /** Eight comma-free cells joined by commas read back cell by cell. */
  lemma ImportCells(cols: seq<string>, i: nat, now: nat)
    requires |cols| == 8 && forall k :: 0 <= k < 8 ==> ',' !in cols[k]
    ensures ImportRow(Join(cols, ','), i, now) ==
      Some(Holding(NatToString(now) + NatToString(i), cols[0], NonEmpty(cols[1]),
                   NumberCell(cols[2]), NumberCell(cols[3]), NumberCell(cols[4]),
                   ParseMonths(cols[5]), NonEmpty(cols[6]), NonEmpty(cols[7])))
  {
    SplitJoin(cols, ',');
  }

  /** The month cell holds digits, minus signs and semicolons only. */
  lemma MonthCellChars(ms: seq<int>, c: char)
    requires c != ';' && c != '-' && !IsDigit(c)
    ensures c !in Join(MonthTexts(ms), ';')
  {
    var ts := MonthTexts(ms);
    forall k | 0 <= k < |ts| ensures c !in ts[k] {
      assert forall j :: 0 <= j < |ts[k]| ==> IsDigit(ts[k][j]) || ts[k][j] == '-';
    }
    JoinChars(ts, ';', c);
  }

  /** No cell of an exported row holds the character when no text field and no number does. */
  lemma RowCellsWithout(h: Holding, fmt: real -> string, c: char)
    requires c != ';' && c != '-' && !IsDigit(c)
    requires c !in h.name && c !in OrEmpty(h.ticker) && c !in OrEmpty(h.sector) && c !in OrEmpty(h.memo)
    requires c !in fmt(h.shares) && c !in fmt(h.costPerShare) && c !in fmt(h.annualDividendPerShare)
    ensures forall k :: 0 <= k < 8 ==> c !in ExportRow(h, fmt)[k]
  {
    MonthCellChars(h.payoutMonths, c);
  }

  /** An exported row reads back as the same holding, under its new id. */
  lemma RowRoundTrip(h: Holding, fmt: real -> string, i: nat, now: nat)
    requires Exportable(h, fmt)
    ensures ImportRow(RowLine(h, fmt), i, now) == Some(Reimported(h, i, now))
  {
    var cols := ExportRow(h, fmt);
    RowCellsWithout(h, fmt, ',');
    ImportCells(cols, i, now);
    MonthsRoundTrip(h.payoutMonths);
    assert NumberCell(cols[2]) == h.shares && NumberCell(cols[3]) == h.costPerShare &&
           NumberCell(cols[4]) == h.annualDividendPerShare;
  }

  /** A joined line of at least two cells holds the separator, so it is not blank. */
  lemma JoinedNotBlank(cols: seq<string>, sep: char)
    requires |cols| >= 2 && !IsSpace(sep)
    ensures NotBlank(Join(cols, sep))
  {
    var line := Join(cols, sep);
    assert line == cols[0] + [sep] + Join(cols[1..], sep);
    assert line[|cols[0]|] == sep;
  }

  /** A row line holds no line break and is not blank. */
  lemma RowLineClean(h: Holding, fmt: real -> string)
    requires Exportable(h, fmt)
    ensures CleanLine(RowLine(h, fmt))
  {
    var cols := ExportRow(h, fmt);
    RowCellsWithout(h, fmt, '\n');
    JoinChars(cols, ',', '\n');
    JoinedNotBlank(cols, ',');
  }

  lemma ExportLinesClean(header: string, hs: seq<Holding>, fmt: real -> string)
    requires CleanLine(header)
    requires forall i :: 0 <= i < |hs| ==> Exportable(hs[i], fmt)
    ensures forall i :: 0 <= i < |ExportLines(header, hs, fmt)| ==> CleanLine(ExportLines(header, hs, fmt)[i])
  {
    var lines := ExportLines(header, hs, fmt);
    forall i | 0 <= i < |lines| ensures CleanLine(lines[i]) {
      if i > 0 {
        RowLineClean(hs[i - 1], fmt);
      }
    }
  }

  /** Every line of an export is non-blank and free of line breaks, so splitting the file at
      line breaks and dropping blank lines gives the lines back. */
  lemma ExportLinesBack(header: string, hs: seq<Holding>, fmt: real -> string)
    requires CleanLine(header)
    requires forall i :: 0 <= i < |hs| ==> Exportable(hs[i], fmt)
    ensures Lines(ExportFile(header, hs, fmt)) == ExportLines(header, hs, fmt)
  {
    var lines := ExportLines(header, hs, fmt);
    var text := ExportFile(header, hs, fmt);
    ExportLinesClean(header, hs, fmt);
    assert text[0] == Bom && text[1..] == Join(lines, '\n');
    SplitJoin(lines, '\n');
    assert Split(text[1..], '\n') == lines;
    assert forall i :: 0 <= i < |lines| ==> NotBlank(lines[i]);
  }

  /** What import makes of each holding of an export, numbered by its line in the file. */
  function Reimports(hs: seq<Holding>, clock: nat -> nat): (r: seq<Holding>)
    ensures |r| == |hs| && forall i :: 0 <= i < |hs| ==> r[i] == Reimported(hs[i], i + 1, clock(i + 1))
  {
    seq(|hs|, i requires 0 <= i < |hs| => Reimported(hs[i], i + 1, clock(i + 1)))
  }

  /** A header followed by lines that each parse as the given holding, numbered from 1,
      collects as exactly those holdings. */
  lemma {:induction false} CollectAll(header: string, body: seq<string>, rows: seq<Holding>,
                                      parse: (string, nat) -> Option<Holding>, n: nat)
    requires |body| == |rows| && 1 <= n <= |body| + 1
    requires forall k :: 0 <= k < |body| ==> parse(body[k], k + 1) == Some(rows[k])
    ensures Collect([header] + body, n, parse) == rows[..n - 1]
    decreases n
  {
    if n > 1 {
      CollectAll(header, body, rows, parse, n - 1);
      assert ([header] + body)[n - 1] == body[n - 2];
      assert rows[..n - 1] == rows[..n - 2] + [rows[n - 2]];
    }
  }

  /** Every row line of an export reads back as its holding, numbered by its line. */
  lemma RowsReadBack(hs: seq<Holding>, fmt: real -> string, clock: nat -> nat)
    requires forall i :: 0 <= i < |hs| ==> Exportable(hs[i], fmt)
    ensures forall k :: 0 <= k < |hs| ==>
      RowParser(clock)(RowLines(hs, fmt)[k], k + 1) == Some(Reimports(hs, clock)[k])
  {
    forall k | 0 <= k < |hs|
      ensures RowParser(clock)(RowLines(hs, fmt)[k], k + 1) == Some(Reimports(hs, clock)[k])
    {
      RowRoundTripAt(hs, fmt, k, clock);
    }
  }

  lemma RowRoundTripAt(hs: seq<Holding>, fmt: real -> string, k: nat, clock: nat -> nat)
    requires k < |hs|
    requires forall j :: 0 <= j < |hs| ==> Exportable(hs[j], fmt)
    ensures ImportRow(RowLine(hs[k], fmt), k + 1, clock(k + 1)) == Some(Reimported(hs[k], k + 1, clock(k + 1)))
  {
    RowRoundTrip(hs[k], fmt, k + 1, clock(k + 1));
  }

  /** Text whose lines are a header and rows that each parse as the given holdings imports as
      exactly those holdings. */
  lemma ImportsAs(text: string, header: string, body: seq<string>, rows: seq<Holding>, clock: nat -> nat)
    requires Lines(text) == [header] + body && |body| == |rows|
    requires forall k :: 0 <= k < |body| ==> RowParser(clock)(body[k], k + 1) == Some(rows[k])
    ensures ImportRows(Lines(text), clock) == rows
  {
    CollectAll(header, body, rows, RowParser(clock), |body| + 1);
    assert rows[..|body|] == rows;
  }

  /** A file with a clean header line and at least one exportable holding imports as those
      holdings, in order, each under a new id built from the clock reading at its line and its line number. */
  lemma FileReadsBack(header: string, hs: seq<Holding>, fmt: real -> string, clock: nat -> nat)
    requires CleanLine(header) && |hs| >= 1
    requires forall i :: 0 <= i < |hs| ==> Exportable(hs[i], fmt)
    ensures |Lines(ExportFile(header, hs, fmt))| >= 2
    ensures ImportRows(Lines(ExportFile(header, hs, fmt)), clock) == Reimports(hs, clock)
  {
    ExportLinesBack(header, hs, fmt);
    RowsReadBack(hs, fmt, clock);
    ImportsAs(ExportFile(header, hs, fmt), header, RowLines(hs, fmt), Reimports(hs, clock), clock);
  }

  /** Exporting non-empty holdings and importing the file gives the same holdings back, in order,
      each under a new id built from the clock reading at its line and its line number. */
  lemma ExportImport(hs: seq<Holding>, fmt: real -> string, clock: nat -> nat)
    requires |hs| >= 1
    requires forall i :: 0 <= i < |hs| ==> Exportable(hs[i], fmt)
    ensures |Lines(ExportCsv(hs, fmt))| >= 2
    ensures ImportRows(Lines(ExportCsv(hs, fmt)), clock) == Reimports(hs, clock)
  {
    HeaderLineClean();
    FileReadsBack(HeaderLine, hs, fmt, clock);
  }
}

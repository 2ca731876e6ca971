/** The household expense dashboard: filtering the loaded records, the summary totals, the
    per-category and per-store aggregation, the store ranking and table with their pagination,
    and turning mapped CSV rows into records. Amounts are exact reals. */
module Expenses {

  import opened Seqs
  import opened Text

  datatype Record = Record(date: string, store: string, category: string, amount: real, memo: Option<string>)

  /** The filter panel; an empty string means the criterion is not set. */
  datatype Filters = Filters(startDate: string, endDate: string, category: string, searchStore: string)

  const NoFilters: Filters := Filters("", "", "", "")

  const ItemsPerPage: int := 10

  // ---------------------------------------------------------------------------
  // Filtering

  /** JavaScript's `a < b` on strings: lexicographic order of characters. */
  predicate StrLt(a: string, b: string)
    decreases |a|
  {
    if a == [] then b != []
    else if b == [] then false
    else a[0] < b[0] || (a[0] == b[0] && StrLt(a[1..], b[1..]))
  }

  predicate StrLe(a: string, b: string)
  {
    a == b || StrLt(a, b)
  }

  /** A record passes every criterion that is set. */
  predicate Selected(r: Record, f: Filters)
  {
    (f.startDate == "" || StrLe(f.startDate, r.date)) &&
    (f.endDate == "" || StrLe(r.date, f.endDate)) &&
    (f.category == "" || r.category == f.category) &&
    (f.searchStore == "" || Contains(ToLower(r.store), ToLower(f.searchStore)))
  }

  /** The filter panel's criteria as a predicate on records. */
  function Passes(f: Filters): Record -> bool
  {
    (r: Record) => Selected(r, f)
  }

  /** The records passing the filters, in their original order. */
  function Select(s: seq<Record>, f: Filters): (r: seq<Record>)
    ensures |r| <= |s|
    ensures forall i :: 0 <= i < |r| ==> Selected(r[i], f) && r[i] in s
    ensures forall i :: 0 <= i < |s| && Selected(s[i], f) ==> s[i] in r
    ensures IsSubsequence(r, s)
    ensures forall x :: multiset(r)[x] == if Selected(x, f) then multiset(s)[x] else 0
  {
    FilterCounts(s, Passes(f));
    Filter(s, Passes(f))
  }

  /** With no criterion set, every record is kept. */
  lemma {:induction false} SelectNone(s: seq<Record>)
    ensures Select(s, NoFilters) == s
    decreases |s|
  {
    if s != [] {
      SelectNone(s[1..]);
    }
  }

  /** One criterion of the filter panel. */
  datatype Criterion = From(date: string) | Until(date: string) | InCategory(category: string) | StoreHas(text: string)

  predicate Meets(r: Record, c: Criterion)
  {
    match c
    case From(d) => StrLe(d, r.date)
    case Until(d) => StrLe(r.date, d)
    case InCategory(k) => r.category == k
    case StoreHas(t) => Contains(ToLower(r.store), ToLower(t))
  }

  /** `result.filter(...)` for one criterion. */
  function Keep(s: seq<Record>, c: Criterion): (r: seq<Record>)
    ensures |r| <= |s|
    decreases |s|
  {
    if s == [] then []
    else
      var rest := Keep(s[1..], c);
      if Meets(s[0], c) then [s[0]] + rest else rest
  }

  /** Filtering an already filtered list by one more criterion is filtering by the stricter set. */
  lemma {:induction false} KeepNarrows(s: seq<Record>, f: Filters, g: Filters, c: Criterion)
    requires forall r :: Selected(r, g) == (Selected(r, f) && Meets(r, c))
    ensures Keep(Select(s, f), c) == Select(s, g)
    decreases |s|
  {
    if s != [] {
      KeepNarrows(s[1..], f, g, c);
      assert Selected(s[0], g) == (Selected(s[0], f) && Meets(s[0], c));
    }
  }

  /** The filter panel with one more criterion set. */
  function Narrowed(g: Filters, c: Criterion): Filters
  {
    match c
    case From(d) => g.(startDate := d)
    case Until(d) => g.(endDate := d)
    case InCategory(k) => g.(category := k)
    case StoreHas(x) => g.(searchStore := x)
  }

  /** The field a criterion sets is still unset in the panel. */
  predicate Unset(g: Filters, c: Criterion)
  {
    match c
    case From(d) => g.startDate == "" && d != ""
    case Until(d) => g.endDate == "" && d != ""
    case InCategory(k) => g.category == "" && k != ""
    case StoreHas(x) => g.searchStore == "" && x != ""
  }

  /** Setting an unset criterion narrows the selection by exactly that criterion. */
  lemma KeepNarrowsBy(s: seq<Record>, g: Filters, c: Criterion)
    requires Unset(g, c)
    ensures Keep(Select(s, g), c) == Select(s, Narrowed(g, c))
  {
    forall r ensures Selected(r, Narrowed(g, c)) == (Selected(r, g) && Meets(r, c)) {
    }
    KeepNarrows(s, g, Narrowed(g, c), c);
  }

  /** The filter effect: starts from all records, narrows by each criterion that is set, then
      returns to page 1. */
  method ApplyFilters(data: seq<Record>, f: Filters) returns (result: seq<Record>, page: int)
    ensures result == Select(data, f)
    ensures page == 1
  {
    SelectNone(data);
    result := data;
    var g := NoFilters;
    if f.startDate != "" {
      KeepNarrowsBy(data, g, From(f.startDate));
      result := Keep(result, From(f.startDate));
    }
    g := g.(startDate := f.startDate);
    if f.endDate != "" {
      KeepNarrowsBy(data, g, Until(f.endDate));
      result := Keep(result, Until(f.endDate));
    }
    g := g.(endDate := f.endDate);
    if f.category != "" {
      KeepNarrowsBy(data, g, InCategory(f.category));
      result := Keep(result, InCategory(f.category));
    }
    g := g.(category := f.category);
    if f.searchStore != "" {
      KeepNarrowsBy(data, g, StoreHas(f.searchStore));
      result := Keep(result, StoreHas(f.searchStore));
    }
    g := g.(searchStore := f.searchStore);
    assert g == f;
    page := 1;
  }

  // ---------------------------------------------------------------------------
  // Totals

  /** The sum of the amounts, added from the first record to the last. */
  function Total(rs: seq<Record>): real
  {
    if rs == [] then 0.0 else Total(rs[..|rs| - 1]) + rs[|rs| - 1].amount
  }

  datatype Stats = Stats(total: real, count: nat)

  /** `calculateStats()`: zero for no records, otherwise the total and the number of records. */
  function CalculateStats(rs: seq<Record>): (st: Stats)
    ensures rs == [] ==> st == Stats(0.0, 0)
    ensures st.total == Total(rs) && st.count == |rs|
  {
    if |rs| == 0 then Stats(0.0, 0) else Stats(Total(rs), |rs|)
  }

  // ---------------------------------------------------------------------------
  // Aggregation by category or store

  /** The aggregation key: the store name or the category. */
  function Key(r: Record, byStore: bool): string
  {
    if byStore then r.store else r.category
  }

  /** The keys in order of first appearance, without repeats: the key order of a `Map`. */
  function FirstAppearance(ks: seq<string>): (u: seq<string>)
    ensures forall x :: x in u <==> x in ks
    ensures forall i, j :: 0 <= i < j < |u| ==> u[i] != u[j]
    decreases |ks|
  {
    if ks == [] then []
    else
      var u := FirstAppearance(ks[..|ks| - 1]);
      assert forall x :: x in ks <==> x in ks[..|ks| - 1] || x == ks[|ks| - 1] by {
        assert ks == ks[..|ks| - 1] + [ks[|ks| - 1]];
      }
      if ks[|ks| - 1] in u then u else u + [ks[|ks| - 1]]
  }

  function Keys(rs: seq<Record>, byStore: bool): (ks: seq<string>)
    ensures |ks| == |rs| && forall i :: 0 <= i < |rs| ==> ks[i] == Key(rs[i], byStore)
  {
    seq(|rs|, i requires 0 <= i < |rs| => Key(rs[i], byStore))
  }

  /** The summed amount of the records with this key. */
  function AmountOf(rs: seq<Record>, k: string, byStore: bool): real
  {
    if rs == [] then 0.0
    else AmountOf(rs[..|rs| - 1], k, byStore) + (if Key(rs[|rs| - 1], byStore) == k then rs[|rs| - 1].amount else 0.0)
  }

  /** The number of records with this key. */
  function CountOf(rs: seq<Record>, k: string, byStore: bool): nat
  {
    if rs == [] then 0
    else CountOf(rs[..|rs| - 1], k, byStore) + (if Key(rs[|rs| - 1], byStore) == k then 1 else 0)
  }

  /** One aggregated row: a key with its summed amount and record count. */
  datatype Group = Group(key: string, amount: real, count: nat)

  function GroupKeys(gs: seq<Group>): (ks: seq<string>)
    ensures |ks| == |gs| && forall j :: 0 <= j < |gs| ==> ks[j] == gs[j].key
  {
    seq(|gs|, j requires 0 <= j < |gs| => gs[j].key)
  }

  function GroupsAmount(gs: seq<Group>): real
  {
    if gs == [] then 0.0 else gs[0].amount + GroupsAmount(gs[1..])
  }

  function GroupsCount(gs: seq<Group>): int
  {
    if gs == [] then 0 else gs[0].count + GroupsCount(gs[1..])
  }

  lemma {:induction false} GroupsAppend(gs: seq<Group>, g: Group)
    ensures GroupsAmount(gs + [g]) == GroupsAmount(gs) + g.amount
    ensures GroupsCount(gs + [g]) == GroupsCount(gs) + g.count
    decreases |gs|
  {
    if gs != [] {
      assert (gs + [g])[1..] == gs[1..] + [g];
      GroupsAppend(gs[1..], g);
    }
  }

  /** Adding to one group's amount and count adds the same to the totals. */
  lemma {:induction false} GroupsAdd(gs: seq<Group>, j: nat, a: real)
    requires j < |gs|
    ensures var g := gs[j];
      GroupsAmount(gs[j := Group(g.key, g.amount + a, g.count + 1)]) == GroupsAmount(gs) + a &&
      GroupsCount(gs[j := Group(g.key, g.amount + a, g.count + 1)]) == GroupsCount(gs) + 1
    decreases |gs|
  {
    var g := gs[j];
    var hs := gs[j := Group(g.key, g.amount + a, g.count + 1)];
    if j > 0 {
      assert hs[1..] == gs[1..][j - 1 := Group(g.key, g.amount + a, g.count + 1)];
      GroupsAdd(gs[1..], j - 1, a);
    } else {
      assert hs[1..] == gs[1..];
    }
  }

  /** The position of a key among the groups, or |gs| when it has none. */
  function FindGroup(gs: seq<Group>, k: string): (j: nat)
    ensures j <= |gs|
    ensures j < |gs| ==> gs[j].key == k
    ensures j == |gs| ==> k !in GroupKeys(gs)
    decreases |gs|
  {
    if gs == [] then 0
    else if gs[0].key == k then 0
    else
      assert GroupKeys(gs[1..]) == GroupKeys(gs)[1..];
      1 + FindGroup(gs[1..], k)
  }

  /** What one more record does to the first-appearance order and to the total. */
  lemma PrefixKeys(rs: seq<Record>, i: nat, byStore: bool)
    requires i < |rs|
    ensures var k := Key(rs[i], byStore);
      var before := FirstAppearance(Keys(rs[..i], byStore));
      FirstAppearance(Keys(rs[..i + 1], byStore)) == (if k in before then before else before + [k]) &&
      Total(rs[..i + 1]) == Total(rs[..i]) + rs[i].amount
  {
    assert rs[..i + 1][..i] == rs[..i];
    assert Keys(rs[..i + 1], byStore)[..i] == Keys(rs[..i], byStore);
  }

  /** What one more record does to the sums of every key. */
  lemma PrefixSums(rs: seq<Record>, i: nat, byStore: bool)
    requires i < |rs|
    ensures var k := Key(rs[i], byStore);
      (forall x :: AmountOf(rs[..i + 1], x, byStore) == AmountOf(rs[..i], x, byStore) + (if x == k then rs[i].amount else 0.0)) &&
      (forall x :: CountOf(rs[..i + 1], x, byStore) == CountOf(rs[..i], x, byStore) + (if x == k then 1 else 0))
  {
    assert rs[..i + 1][..i] == rs[..i];
  }

  /** The loop invariant of the aggregation after the first `i` records. */
  predicate Aggregated(rs: seq<Record>, i: nat, byStore: bool, gs: seq<Group>)
    requires i <= |rs|
  {
    GroupKeys(gs) == FirstAppearance(Keys(rs[..i], byStore)) &&
    (forall j :: 0 <= j < |gs| ==>
      gs[j].amount == AmountOf(rs[..i], gs[j].key, byStore) && gs[j].count == CountOf(rs[..i], gs[j].key, byStore)) &&
    GroupsAmount(gs) == Total(rs[..i]) &&
    GroupsCount(gs) == i
  }

  /** Adding a record to the group that already has its key keeps the invariant. */
  lemma AggregateFound(rs: seq<Record>, i: nat, byStore: bool, gs: seq<Group>, j: nat)
    requires i < |rs| && Aggregated(rs, i, byStore, gs)
    requires j < |gs| && gs[j].key == Key(rs[i], byStore)
    ensures Aggregated(rs, i + 1, byStore, gs[j := Group(gs[j].key, gs[j].amount + rs[i].amount, gs[j].count + 1)])
  {
    FoundKeys(rs, i, byStore, gs, j);
    FoundTotals(rs, i, byStore, gs, j);
    FoundSums(rs, i, byStore, gs, j);
  }

  /** The key order is unchanged when a record joins an existing group. */
  lemma FoundKeys(rs: seq<Record>, i: nat, byStore: bool, gs: seq<Group>, j: nat)
    requires i < |rs| && GroupKeys(gs) == FirstAppearance(Keys(rs[..i], byStore))
    requires j < |gs| && gs[j].key == Key(rs[i], byStore)
    ensures GroupKeys(gs[j := Group(gs[j].key, gs[j].amount + rs[i].amount, gs[j].count + 1)]) ==
      FirstAppearance(Keys(rs[..i + 1], byStore))
  {
    var hs := gs[j := Group(gs[j].key, gs[j].amount + rs[i].amount, gs[j].count + 1)];
    PrefixKeys(rs, i, byStore);
    var before := FirstAppearance(Keys(rs[..i], byStore));
    assert before[j] == Key(rs[i], byStore);
    assert GroupKeys(hs) == GroupKeys(gs);
  }

  /** The totals grow by the record's amount and by one when it joins an existing group. */
  lemma FoundTotals(rs: seq<Record>, i: nat, byStore: bool, gs: seq<Group>, j: nat)
    requires i < |rs| && GroupsAmount(gs) == Total(rs[..i]) && GroupsCount(gs) == i
    requires j < |gs|
    ensures var hs := gs[j := Group(gs[j].key, gs[j].amount + rs[i].amount, gs[j].count + 1)];
      GroupsAmount(hs) == Total(rs[..i + 1]) && GroupsCount(hs) == i + 1
  {
    GroupsAdd(gs, j, rs[i].amount);
    assert rs[..i + 1][..i] == rs[..i];
  }

  /** The sums of every group after adding a record to the group with its key. */
  lemma FoundSums(rs: seq<Record>, i: nat, byStore: bool, gs: seq<Group>, j: nat)
    requires i < |rs| && Aggregated(rs, i, byStore, gs)
    requires j < |gs| && gs[j].key == Key(rs[i], byStore)
    ensures var hs := gs[j := Group(gs[j].key, gs[j].amount + rs[i].amount, gs[j].count + 1)];
      forall m :: 0 <= m < |hs| ==>
        hs[m].amount == AmountOf(rs[..i + 1], hs[m].key, byStore) && hs[m].count == CountOf(rs[..i + 1], hs[m].key, byStore)
  {
    var k := Key(rs[i], byStore);
    var hs := gs[j := Group(k, gs[j].amount + rs[i].amount, gs[j].count + 1)];
    PrefixSums(rs, i, byStore);
    forall m | 0 <= m < |hs|
      ensures hs[m].amount == AmountOf(rs[..i + 1], hs[m].key, byStore) && hs[m].count == CountOf(rs[..i + 1], hs[m].key, byStore)
    {
      if m != j {
        assert GroupKeys(gs)[m] == gs[m].key && GroupKeys(gs)[j] == k;
        assert hs[m] == gs[m] && gs[m].key != k;
      }
    }
  }

  /** Appending a group for a key not seen before keeps the invariant. */
  lemma AggregateNew(rs: seq<Record>, i: nat, byStore: bool, gs: seq<Group>)
    requires i < |rs| && Aggregated(rs, i, byStore, gs)
    requires Key(rs[i], byStore) !in GroupKeys(gs)
    ensures Aggregated(rs, i + 1, byStore, gs + [Group(Key(rs[i], byStore), rs[i].amount, 1)])
  {
    var g := Group(Key(rs[i], byStore), rs[i].amount, 1);
    NewKeys(rs, i, byStore, gs);
    GroupsAppend(gs, g);
    assert rs[..i + 1][..i] == rs[..i];
    NewSums(rs, i, byStore, gs);
  }

  /** A key not seen before goes to the end of the key order. */
  lemma NewKeys(rs: seq<Record>, i: nat, byStore: bool, gs: seq<Group>)
    requires i < |rs| && GroupKeys(gs) == FirstAppearance(Keys(rs[..i], byStore))
    requires Key(rs[i], byStore) !in GroupKeys(gs)
    ensures GroupKeys(gs + [Group(Key(rs[i], byStore), rs[i].amount, 1)]) == FirstAppearance(Keys(rs[..i + 1], byStore))
  {
    var k := Key(rs[i], byStore);
    PrefixKeys(rs, i, byStore);
    assert GroupKeys(gs + [Group(k, rs[i].amount, 1)]) == GroupKeys(gs) + [k];
  }

  /** The sums of every group after appending a group for a key not seen before. */
  lemma NewSums(rs: seq<Record>, i: nat, byStore: bool, gs: seq<Group>)
    requires i < |rs| && GroupKeys(gs) == FirstAppearance(Keys(rs[..i], byStore))
    requires forall j :: 0 <= j < |gs| ==>
      gs[j].amount == AmountOf(rs[..i], gs[j].key, byStore) && gs[j].count == CountOf(rs[..i], gs[j].key, byStore)
    requires Key(rs[i], byStore) !in GroupKeys(gs)
    ensures var hs := gs + [Group(Key(rs[i], byStore), rs[i].amount, 1)];
      forall m :: 0 <= m < |hs| ==>
        hs[m].amount == AmountOf(rs[..i + 1], hs[m].key, byStore) && hs[m].count == CountOf(rs[..i + 1], hs[m].key, byStore)
  {
    var k := Key(rs[i], byStore);
    PrefixSums(rs, i, byStore);
    forall m | 0 <= m < |gs| ensures gs[m].key != k {
      assert GroupKeys(gs)[m] == gs[m].key;
    }
    assert k !in Keys(rs[..i], byStore);
    NoKeyNoAmount(rs[..i], k, byStore);
  }

  /** A key that no record has sums to nothing. */
  lemma {:induction false} NoKeyNoAmount(rs: seq<Record>, k: string, byStore: bool)
    requires k !in Keys(rs, byStore)
    ensures AmountOf(rs, k, byStore) == 0.0 && CountOf(rs, k, byStore) == 0
    decreases |rs|
  {
    if rs != [] {
      var init := rs[..|rs| - 1];
      assert Keys(rs, byStore)[..|rs| - 1] == Keys(init, byStore);
      assert Keys(rs, byStore)[|rs| - 1] == Key(rs[|rs| - 1], byStore);
      NoKeyNoAmount(init, k, byStore);
    }
  }

  /** One group per distinct key in order of first appearance, with the key's summed amount and
      record count. */
  function Grouped(rs: seq<Record>, byStore: bool): seq<Group>
  {
    var u := FirstAppearance(Keys(rs, byStore));
    seq(|u|, j requires 0 <= j < |u| => Group(u[j], AmountOf(rs, u[j], byStore), CountOf(rs, u[j], byStore)))
  }

  /** The `Map` loop of `getCategoryData`, `getStoreRanking` and `getStoreTableData`: one group per
      distinct key in order of first appearance, each with its key's summed amount and record
      count; the amounts add up to the total and the counts to the number of records. */
  method Aggregate(rs: seq<Record>, byStore: bool) returns (gs: seq<Group>)
    ensures gs == Grouped(rs, byStore)
    ensures GroupKeys(gs) == FirstAppearance(Keys(rs, byStore))
    ensures forall j :: 0 <= j < |gs| ==>
      gs[j].amount == AmountOf(rs, gs[j].key, byStore) && gs[j].count == CountOf(rs, gs[j].key, byStore)
    ensures GroupsAmount(gs) == Total(rs)
    ensures GroupsCount(gs) == |rs|
  {
    gs := [];
    var i := 0;
    while i < |rs|
      invariant 0 <= i <= |rs|
      invariant Aggregated(rs, i, byStore, gs)
    {
      var r := rs[i];
      var k := Key(r, byStore);
      var j := FindGroup(gs, k);
      if j < |gs| {
        AggregateFound(rs, i, byStore, gs, j);
        gs := gs[j := Group(gs[j].key, gs[j].amount + r.amount, gs[j].count + 1)];
      } else {
        AggregateNew(rs, i, byStore, gs);
        gs := gs + [Group(k, r.amount, 1)];
      }
      i := i + 1;
    }
    assert rs[..i] == rs;
    assert forall j :: 0 <= j < |gs| ==> gs[j].key == GroupKeys(gs)[j];
  }

  /** `getCategoryData()`: the chart labels are the categories in order of first appearance and
      each value is that category's summed amount; the values add up to the total. */
  method CategoryData(rs: seq<Record>) returns (labels: seq<string>, values: seq<real>)
    ensures labels == FirstAppearance(Keys(rs, false))
    ensures |values| == |labels| && forall j :: 0 <= j < |labels| ==> values[j] == AmountOf(rs, labels[j], false)
    ensures SumReal(values) == Total(rs)
  {
    var gs := Aggregate(rs, false);
    labels := GroupKeys(gs);
    values := seq(|gs|, j requires 0 <= j < |gs| => gs[j].amount);
    AmountsSum(gs, values);
  }

  /** The amounts listed one by one add up to the groups' total. */
  lemma {:induction false} AmountsSum(gs: seq<Group>, values: seq<real>)
    requires |values| == |gs| && forall j :: 0 <= j < |gs| ==> values[j] == gs[j].amount
    ensures SumReal(values) == GroupsAmount(gs)
    decreases |gs|
  {
    if gs != [] {
      AmountsSum(gs[1..], values[1..]);
    }
  }

  // ---------------------------------------------------------------------------
  // Ranking

  predicate SortedDesc(gs: seq<Group>)
  {
    forall i, j :: 0 <= i < j < |gs| ==> gs[i].amount >= gs[j].amount
  }

  predicate DistinctKeys(gs: seq<Group>)
  {
    forall i, j :: 0 <= i < j < |gs| ==> gs[i].key != gs[j].key
  }

  /** Inserts after every group whose amount is at least as large, so equal amounts keep their
      order of arrival. */
  function InsertDesc(g: Group, s: seq<Group>): (r: seq<Group>)
    requires SortedDesc(s)
    ensures SortedDesc(r)
    ensures |r| == |s| + 1 && forall x :: x in r <==> x in s || x == g
    decreases |s|
  {
    if s == [] then [g]
    else if s[0].amount >= g.amount then
      var rest := InsertDesc(g, s[1..]);
      HeadBounds(g, s, rest);
      SortedDescCons(s[0], rest);
      [s[0]] + rest
    else
      [g] + s
  }

  /** The head of a descending list that is at least `g` bounds the insertion into its tail. */
  lemma HeadBounds(g: Group, s: seq<Group>, rest: seq<Group>)
    requires SortedDesc(s) && s != [] && s[0].amount >= g.amount
    requires forall x :: x in rest <==> x in s[1..] || x == g
    ensures forall m :: 0 <= m < |rest| ==> s[0].amount >= rest[m].amount
    ensures forall x :: x in [s[0]] + rest <==> x in s || x == g
  {
    assert s == [s[0]] + s[1..];
    forall m | 0 <= m < |rest| ensures s[0].amount >= rest[m].amount {
      assert rest[m] in rest;
      if rest[m] != g {
        var t :| 0 <= t < |s[1..]| && s[1..][t] == rest[m];
        assert s[t + 1] == rest[m];
      }
    }
  }

  /** A group at least as large as every group of a descending list can go in front. */
  lemma SortedDescCons(x: Group, rest: seq<Group>)
    requires SortedDesc(rest) && forall m :: 0 <= m < |rest| ==> x.amount >= rest[m].amount
    ensures SortedDesc([x] + rest)
  {
    var r := [x] + rest;
    assert forall i, j :: 0 < i < j < |r| ==> r[i] == rest[i - 1] && r[j] == rest[j - 1];
  }

  /** Inserting one group adds exactly that group to the multiset of groups. */
  lemma {:induction false} InsertDescPermutes(g: Group, s: seq<Group>)
    requires SortedDesc(s)
    ensures multiset(InsertDesc(g, s)) == multiset(s) + multiset{g}
    decreases |s|
  {
    if s != [] && s[0].amount >= g.amount {
      InsertDescPermutes(g, s[1..]);
      assert s == [s[0]] + s[1..];
    }
  }

  /** Inserting one group adds its amount and count to the totals. */
  lemma {:induction false} InsertDescTotals(g: Group, s: seq<Group>)
    requires SortedDesc(s)
    ensures GroupsAmount(InsertDesc(g, s)) == GroupsAmount(s) + g.amount
    ensures GroupsCount(InsertDesc(g, s)) == GroupsCount(s) + g.count
    decreases |s|
  {
    if s != [] && s[0].amount >= g.amount {
      InsertDescTotals(g, s[1..]);
      var r := InsertDesc(g, s);
      assert r[1..] == InsertDesc(g, s[1..]);
    } else if s != [] {
      assert ([g] + s)[1..] == s;
    }
  }

  /** Inserting a group whose key is new keeps the keys distinct. */
  lemma {:induction false} InsertDescDistinct(g: Group, s: seq<Group>)
    requires SortedDesc(s) && DistinctKeys(s)
    requires forall j :: 0 <= j < |s| ==> s[j].key != g.key
    ensures DistinctKeys(InsertDesc(g, s))
    decreases |s|
  {
    var r := InsertDesc(g, s);
    if s != [] && s[0].amount >= g.amount {
      var rest := InsertDesc(g, s[1..]);
      InsertDescDistinct(g, s[1..]);
      assert r == [s[0]] + rest;
      forall i, j | 0 <= i < j < |r| ensures r[i].key != r[j].key {
        if i == 0 {
          assert r[j] in rest;
          if r[j] != g {
            var m :| 0 <= m < |s[1..]| && s[1..][m] == r[j];
            assert s[m + 1] == r[j];
          }
        } else {
          assert r[i] == rest[i - 1] && r[j] == rest[j - 1];
        }
      }
    } else if s != [] {
      assert r == [g] + s;
      forall i, j | 0 <= i < j < |r| ensures r[i].key != r[j].key {
        if i > 0 {
          assert r[i] == s[i - 1] && r[j] == s[j - 1];
        }
      }
    }
  }

  /** The test "has amount `a`", as one value so that filters by it can be compared. */
  function AmountIs(a: real): Group -> bool
  {
    (g: Group) => g.amount == a
  }

  /** Inserting `g` into a descending list puts it after every group of its own amount. */
  lemma {:induction false} InsertDescStable(g: Group, s: seq<Group>, a: real)
    requires SortedDesc(s)
    ensures Filter(InsertDesc(g, s), AmountIs(a)) == Filter(s, AmountIs(a)) + (if g.amount == a then [g] else [])
    decreases |s|
  {
    if s == [] {
    } else if s[0].amount >= g.amount {
      InsertDescStable(g, s[1..], a);
      FilterBehindHead(s, InsertDesc(g, s[1..]), AmountIs(a));
    } else {
      InsertFrontStable(g, s, a);
    }
  }

  /** Filtering a list whose head is kept in front of `rest`, against filtering the list itself. */
  lemma FilterBehindHead(s: seq<Group>, rest: seq<Group>, p: Group -> bool)
    requires s != []
    ensures Filter([s[0]] + rest, p) == Filter([s[0]], p) + Filter(rest, p)
    ensures Filter(s, p) == Filter([s[0]], p) + Filter(s[1..], p)
  {
    assert s == [s[0]] + s[1..];
    FilterAppend([s[0]], rest, p);
    FilterAppend([s[0]], s[1..], p);
  }

  /** A group larger than the head of a descending list goes in front, and no group of the list
      has its amount. */
  lemma InsertFrontStable(g: Group, s: seq<Group>, a: real)
    requires SortedDesc(s) && s != [] && s[0].amount < g.amount
    ensures Filter([g] + s, AmountIs(a)) == Filter(s, AmountIs(a)) + (if g.amount == a then [g] else [])
  {
    var p := AmountIs(a);
    if g.amount == a {
      forall i | 0 <= i < |s| ensures !p(s[i]) {
        assert s[i].amount <= s[0].amount;
      }
      FilterNone(s, p);
    }
    FilterAppend([g], s, p);
  }

  /** Nothing passes a filter that no element meets. */
  lemma {:induction false} FilterNone(s: seq<Group>, p: Group -> bool)
    requires forall i :: 0 <= i < |s| ==> !p(s[i])
    ensures Filter(s, p) == []
    decreases |s|
  {
    if s != [] {
      FilterNone(s[1..], p);
    }
  }

  /** The sort is stable: the groups of any one amount come out in the order they went in. */
  lemma {:induction false} SortDescStable(s: seq<Group>, a: real)
    ensures Filter(SortDesc(s), AmountIs(a)) == Filter(s, AmountIs(a))
    decreases |s|
  {
    if s != [] {
      var init, last := s[..|s| - 1], s[|s| - 1];
      assert s == init + [last];
      SortDescStable(init, a);
      InsertDescStable(last, SortDesc(init), a);
      FilterAppend(init, [last], AmountIs(a));
    }
  }

  /** `sort((a, b) => b.amount - a.amount)`: a stable sort by amount, largest first. */
  function SortDesc(s: seq<Group>): (r: seq<Group>)
    ensures SortedDesc(r)
    ensures |r| == |s| && forall x :: x in r <==> x in s
    decreases |s|
  {
    if s == [] then []
    else
      var init, last := s[..|s| - 1], s[|s| - 1];
      assert forall x :: x in s <==> x in init || x == last by {
        assert s == init + [last];
      }
      InsertDesc(last, SortDesc(init))
  }

  /** Sorting is a permutation. */
  lemma {:induction false} SortDescPermutes(s: seq<Group>)
    ensures multiset(SortDesc(s)) == multiset(s)
    decreases |s|
  {
    if s != [] {
      var init, last := s[..|s| - 1], s[|s| - 1];
      assert s == init + [last];
      SortDescPermutes(init);
      InsertDescPermutes(last, SortDesc(init));
    }
  }

  /** Sorting keeps the totals. */
  lemma {:induction false} SortDescKeeps(s: seq<Group>)
    ensures GroupsAmount(SortDesc(s)) == GroupsAmount(s) && GroupsCount(SortDesc(s)) == GroupsCount(s)
    decreases |s|
  {
    if s != [] {
      var init, last := s[..|s| - 1], s[|s| - 1];
      assert s == init + [last];
      GroupsAppend(init, last);
      SortDescKeeps(init);
      InsertDescTotals(last, SortDesc(init));
    }
  }

  /** Sorting keeps keys distinct. */
  lemma {:induction false} SortDescDistinct(s: seq<Group>)
    ensures DistinctKeys(s) ==> DistinctKeys(SortDesc(s))
    decreases |s|
  {
    if s != [] {
      var init, last := s[..|s| - 1], s[|s| - 1];
      assert s == init + [last];
      var sorted := SortDesc(init);
      SortDescDistinct(init);
      if DistinctKeys(s) {
        assert DistinctKeys(init) by {
          forall i, j | 0 <= i < j < |init| ensures init[i].key != init[j].key {
            assert init[i] == s[i] && init[j] == s[j];
          }
        }
        forall j | 0 <= j < |sorted| ensures sorted[j].key != last.key {
          assert sorted[j] in init;
          var i :| 0 <= i < |init| && init[i] == sorted[j];
          assert s[i] == init[i];
        }
        InsertDescDistinct(last, sorted);
      }
    }
  }

  /** `getStoreTableData()`: one row per distinct store with its summed amount and record count,
      largest amount first; the amounts add up to the total and the counts to the number of
      records. */
  method StoreTable(rs: seq<Record>) returns (table: seq<Group>)
    ensures table == SortDesc(Grouped(rs, true))
    ensures SortedDesc(table)
    ensures DistinctKeys(table)
    ensures |table| == |FirstAppearance(Keys(rs, true))|
    ensures forall j :: 0 <= j < |table| ==>
      table[j].amount == AmountOf(rs, table[j].key, true) && table[j].count == CountOf(rs, table[j].key, true)
    ensures forall x :: x in GroupKeys(table) <==> x in Keys(rs, true)
    ensures GroupsAmount(table) == Total(rs) && GroupsCount(table) == |rs|
  {
    var gs := Aggregate(rs, true);
    assert DistinctKeys(gs) by {
      forall i, j | 0 <= i < j < |gs| ensures gs[i].key != gs[j].key {
        assert GroupKeys(gs)[i] == gs[i].key && GroupKeys(gs)[j] == gs[j].key;
      }
    }
    table := SortDesc(gs);
    SortDescKeeps(gs);
    SortDescDistinct(gs);
    SortDescPermutes(gs);
    forall j | 0 <= j < |table|
      ensures table[j].amount == AmountOf(rs, table[j].key, true) && table[j].count == CountOf(rs, table[j].key, true)
    {
      assert table[j] in gs;
    }
    forall x ensures x in GroupKeys(table) <==> x in GroupKeys(gs) {
      if x in GroupKeys(table) {
        var j :| 0 <= j < |table| && GroupKeys(table)[j] == x;
        assert table[j] in gs;
        var i :| 0 <= i < |gs| && gs[i] == table[j];
        assert GroupKeys(gs)[i] == x;
      }
      if x in GroupKeys(gs) {
        var i :| 0 <= i < |gs| && GroupKeys(gs)[i] == x;
        assert gs[i] in table;
        var j :| 0 <= j < |table| && table[j] == gs[i];
        assert GroupKeys(table)[j] == x;
      }
    }
  }

  /** `getStoreRanking()`: the (at most) ten stores with the largest summed amounts, largest
      first; every store left out has an amount no larger than any store kept. */
  method StoreRanking(rs: seq<Record>) returns (ranking: seq<Group>)
    ensures var sorted := SortDesc(Grouped(rs, true)); ranking == sorted[..if |sorted| < 10 then |sorted| else 10]
    ensures |ranking| == if |FirstAppearance(Keys(rs, true))| < 10 then |FirstAppearance(Keys(rs, true))| else 10
    ensures SortedDesc(ranking) && DistinctKeys(ranking)
    ensures forall j :: 0 <= j < |ranking| ==> ranking[j].amount == AmountOf(rs, ranking[j].key, true)
    ensures forall x :: x in GroupKeys(ranking) ==> x in Keys(rs, true)
    ensures forall x :: x in Keys(rs, true) && x !in GroupKeys(ranking) ==>
      forall j :: 0 <= j < |ranking| ==> AmountOf(rs, x, true) <= ranking[j].amount
  {
    var table := StoreTable(rs);
    var n := if |table| < 10 then |table| else 10;
    ranking := table[..n];
    TopOfTable(rs, table, n);
  }

  /** The first `n` rows of the store table keep its order, its distinct keys and its amounts,
      and outrank every store they leave out. */
  lemma TopOfTable(rs: seq<Record>, table: seq<Group>, n: nat)
    requires n <= |table| && SortedDesc(table) && DistinctKeys(table)
    requires forall j :: 0 <= j < |table| ==> table[j].amount == AmountOf(rs, table[j].key, true)
    requires forall x :: x in GroupKeys(table) <==> x in Keys(rs, true)
    ensures var ranking := table[..n];
      SortedDesc(ranking) && DistinctKeys(ranking) &&
      (forall j :: 0 <= j < |ranking| ==> ranking[j].amount == AmountOf(rs, ranking[j].key, true)) &&
      (forall x :: x in GroupKeys(ranking) ==> x in Keys(rs, true)) &&
      (forall x :: x in Keys(rs, true) && x !in GroupKeys(ranking) ==>
         forall j :: 0 <= j < |ranking| ==> AmountOf(rs, x, true) <= ranking[j].amount)
  {
    var ranking := table[..n];
    forall x | x in GroupKeys(ranking) ensures x in Keys(rs, true) {
      var j :| 0 <= j < |ranking| && GroupKeys(ranking)[j] == x;
      assert GroupKeys(table)[j] == x;
    }
    forall x | x in Keys(rs, true) && x !in GroupKeys(ranking)
      ensures forall j :: 0 <= j < |ranking| ==> AmountOf(rs, x, true) <= ranking[j].amount
    {
      LeftOutBelow(rs, table, n, x);
    }
  }

  /** A store of the table that is not among its first `n` rows has an amount no larger than any
      of those rows. */
  lemma LeftOutBelow(rs: seq<Record>, table: seq<Group>, n: nat, x: string)
    requires SortedDesc(table) && n <= |table|
    requires forall j :: 0 <= j < |table| ==> table[j].amount == AmountOf(rs, table[j].key, true)
    requires x in GroupKeys(table) && x !in GroupKeys(table[..n])
    ensures forall j :: 0 <= j < n ==> AmountOf(rs, x, true) <= table[j].amount
  {
    var m :| 0 <= m < |table| && GroupKeys(table)[m] == x;
    forall j | 0 <= j < n ensures table[j].key != x {
      assert GroupKeys(table[..n])[j] == table[j].key;
    }
    assert m >= n;
  }

  // ---------------------------------------------------------------------------
  // Pagination

  /** `Math.ceil(n / 10)`. */
  function TotalPages(n: nat): (t: nat)
    ensures 10 * t >= n && 10 * (t - 1) < n + (if n == 0 then 10 else 0)
    ensures n == 0 ==> t == 0
  {
    (n + ItemsPerPage - 1) / ItemsPerPage
  }

  /** `rows.slice((page - 1) * 10, page * 10)` for a page number of at least 1. */
  function PageSlice<T>(rows: seq<T>, page: int): (r: seq<T>)
    requires page >= 1
    ensures |r| <= ItemsPerPage && (page - 1) * ItemsPerPage + |r| <= |rows| + (if r == [] then (page - 1) * ItemsPerPage else 0)
    ensures r == [] <==> |rows| <= (page - 1) * ItemsPerPage
    ensures forall i :: 0 <= i < |r| ==> r[i] == rows[(page - 1) * ItemsPerPage + i]
  {
    var lo := (page - 1) * ItemsPerPage;
    var hi := page * ItemsPerPage;
    if lo >= |rows| then [] else rows[lo..if hi < |rows| then hi else |rows|]
  }

  /** Every row lies on exactly one page: row i is entry i % 10 of page i / 10 + 1. */
  lemma RowOnItsPage<T>(rows: seq<T>, i: nat)
    requires i < |rows|
    ensures var p := i / ItemsPerPage + 1;
      1 <= p <= TotalPages(|rows|) && i % ItemsPerPage < |PageSlice(rows, p)| &&
      PageSlice(rows, p)[i % ItemsPerPage] == rows[i]
  {
  }

  /** The "previous" button: never below page 1. */
  function PrevPage(p: int): (q: int)
    ensures q >= 1 && (p > 1 ==> q == p - 1) && (p <= 1 ==> q == 1)
  {
    if 1 > p - 1 then 1 else p - 1
  }

  /** The "next" button: never beyond the last page. */
  function NextPage(p: int, total: int): (q: int)
    ensures q <= total && (p < total ==> q == p + 1) && (p >= total ==> q == total)
  {
    if total < p + 1 then total else p + 1
  }

  /** Starting from page 1, the buttons keep the page between 1 and the last page. */
  lemma PagingStaysInRange(p: int, total: int)
    requires 1 <= p <= total
    ensures 1 <= PrevPage(p) <= total && 1 <= NextPage(p, total) <= total
  {
  }

  // ---------------------------------------------------------------------------
  // Column mapping

  /** The column-mapping dialog; an empty string means the column is not chosen. */
  datatype ColumnMapping = ColumnMapping(date: string, store: string, category: string, amount: string, memo: string)

  datatype MappingResult = Rejected(message: string) | Applied(records: seq<Record>)

  /** `headers.indexOf(name)`: the first position, or -1. */
  function IndexOf(headers: seq<string>, name: string): (i: int)
    ensures -1 <= i < |headers|
    ensures i >= 0 ==> headers[i] == name && forall j :: 0 <= j < i ==> headers[j] != name
    ensures i == -1 ==> name !in headers
    decreases |headers|
  {
    if headers == [] then -1
    else if headers[0] == name then 0
    else
      var j := IndexOf(headers[1..], name);
      if j == -1 then -1 else j + 1
  }

  /** `String(row[i] || '')`: a missing cell reads as the empty string. */
  function CellAt(row: seq<string>, i: int): string
  {
    if 0 <= i < |row| then row[i] else ""
  }

  predicate IsAmountChar(c: char)
  {
    IsDigit(c) || c == '.' || c == '-'
  }

  /** `.replace(/[^\d.-]/g, '')`: keeps digits, dots and minus signs, in order. */
  function CleanAmount(s: string): (r: string)
    ensures forall i :: 0 <= i < |r| ==> IsAmountChar(r[i])
    ensures forall i :: 0 <= i < |s| && IsAmountChar(s[i]) ==> s[i] in r
    ensures IsSubsequence(r, s)
    ensures (forall i :: 0 <= i < |s| ==> IsAmountChar(s[i])) ==> r == s
    ensures forall x :: multiset(r)[x] == if IsAmountChar(x) then multiset(s)[x] else 0
  {
    FilterCounts(s, IsAmountChar);
    Filter(s, IsAmountChar)
  }

  /** `parseFloat(amountStr) || 0`: an unparsable amount, like a zero one, is 0. */
  function AmountFrom(cell: string): real
  {
    var text := if cell == "" then "0" else cell;
    match ParseFloat(CleanAmount(text))
    case Some(v) => v
    case None => 0.0
  }

  /** One data row as a record, by the chosen column positions. */
  function ToRecord(row: seq<string>, di: int, si: int, ci: int, ai: int, mi: int): Record
  {
    Record(CellAt(row, di), CellAt(row, si), CellAt(row, ci), AmountFrom(CellAt(row, ai)),
           if mi >= 0 then Some(CellAt(row, mi)) else None)
  }

  /** The final `.filter(record => record.date && record.store && record.amount !== 0)`. */
  predicate Usable(r: Record)
  {
    r.date != "" && r.store != "" && r.amount != 0.0
  }

  /** `row.length > 0 && row[0]`: the row is not skipped as blank. */
  predicate NonBlank(row: seq<string>)
  {
    |row| > 0 && row[0] != ""
  }

  /** `ToRecord` for the given columns, as one value. */
  function Converter(di: int, si: int, ci: int, ai: int, mi: int): seq<string> -> Record
  {
    (row: seq<string>) => ToRecord(row, di, si, ci, ai, mi)
  }

  /** Every row converted to a record, in order. */
  function Converted(rows: seq<seq<string>>, di: int, si: int, ci: int, ai: int, mi: int): (rs: seq<Record>)
    ensures |rs| == |rows| && forall k :: 0 <= k < |rows| ==> rs[k] == ToRecord(rows[k], di, si, ci, ai, mi)
  {
    MapSeq(rows, Converter(di, si, ci, ai, mi))
  }

  /** The import in one pass over the rows: each non-blank row whose record is usable gives
      that record, in row order. */
  function UsableRecords(rows: seq<seq<string>>, di: int, si: int, ci: int, ai: int, mi: int): seq<Record>
  {
    if rows == [] then []
    else
      var r := ToRecord(rows[0], di, si, ci, ai, mi);
      var rest := UsableRecords(rows[1..], di, si, ci, ai, mi);
      if NonBlank(rows[0]) && Usable(r) then [r] + rest else rest
  }

  lemma ConvertedCons(a: seq<string>, k: seq<seq<string>>, di: int, si: int, ci: int, ai: int, mi: int)
    ensures var c := Converted([a] + k, di, si, ci, ai, mi);
      c == [ToRecord(a, di, si, ci, ai, mi)] + Converted(k, di, si, ci, ai, mi) && c[1..] == Converted(k, di, si, ci, ai, mi)
  {
    MapSeqCons(a, k, Converter(di, si, ci, ai, mi));
    assert ([a] + k)[1..] == k;
  }

  /** Skipping blank rows, converting, then dropping unusable records is the one-pass import. */
  lemma {:induction false} ConvertRowsOnePass(rows: seq<seq<string>>, di: int, si: int, ci: int, ai: int, mi: int)
    ensures Filter(Converted(Filter(rows, NonBlank), di, si, ci, ai, mi), Usable) == UsableRecords(rows, di, si, ci, ai, mi)
    decreases |rows|
  {
    if rows != [] {
      ConvertRowsOnePass(rows[1..], di, si, ci, ai, mi);
      var a, k := rows[0], Filter(rows[1..], NonBlank);
      if NonBlank(a) {
        assert Filter(rows, NonBlank) == [a] + k;
        ConvertedCons(a, k, di, si, ci, ai, mi);
      } else {
        assert Filter(rows, NonBlank) == k;
      }
    }
  }

  /** The rows that are not skipped as blank, converted, and kept when usable, in order. */
  function ConvertRows(rows: seq<seq<string>>, di: int, si: int, ci: int, ai: int, mi: int): (rs: seq<Record>)
    ensures rs == UsableRecords(rows, di, si, ci, ai, mi)
    ensures |rs| <= |rows|
    ensures forall k :: 0 <= k < |rs| ==> Usable(rs[k])
    ensures forall k :: 0 <= k < |rs| ==> exists row :: row in rows && NonBlank(row) && rs[k] == ToRecord(row, di, si, ci, ai, mi)
    ensures forall i :: 0 <= i < |rows| && NonBlank(rows[i]) && Usable(ToRecord(rows[i], di, si, ci, ai, mi)) ==>
      ToRecord(rows[i], di, si, ci, ai, mi) in rs
  {
    var kept := Filter(rows, NonBlank);
    var mapped := Converted(kept, di, si, ci, ai, mi);
    var conv := (row: seq<string>) => ToRecord(row, di, si, ci, ai, mi);
    ConvertedFromRows(rows, kept, mapped, conv);
    RowsConverted(rows, kept, mapped, conv);
    ConvertRowsOnePass(rows, di, si, ci, ai, mi);
    Filter(mapped, Usable)
  }

  /** Every converted record comes from a non-blank row. */
  lemma ConvertedFromRows(rows: seq<seq<string>>, kept: seq<seq<string>>, mapped: seq<Record>, conv: seq<string> -> Record)
    requires kept == Filter(rows, NonBlank)
    requires |mapped| == |kept| && forall k :: 0 <= k < |kept| ==> mapped[k] == conv(kept[k])
    ensures var rs := Filter(mapped, Usable);
      forall k :: 0 <= k < |rs| ==> exists row :: row in rows && NonBlank(row) && rs[k] == conv(row)
  {
    var rs := Filter(mapped, Usable);
    forall k | 0 <= k < |rs| ensures exists row :: row in rows && NonBlank(row) && rs[k] == conv(row) {
      var t :| 0 <= t < |mapped| && mapped[t] == rs[k];
      assert kept[t] in rows && NonBlank(kept[t]);
    }
  }

  /** Every non-blank row whose record is usable is converted. */
  lemma RowsConverted(rows: seq<seq<string>>, kept: seq<seq<string>>, mapped: seq<Record>, conv: seq<string> -> Record)
    requires kept == Filter(rows, NonBlank)
    requires |mapped| == |kept| && forall k :: 0 <= k < |kept| ==> mapped[k] == conv(kept[k])
    ensures forall i :: 0 <= i < |rows| && NonBlank(rows[i]) && Usable(conv(rows[i])) ==> conv(rows[i]) in Filter(mapped, Usable)
  {
    forall i | 0 <= i < |rows| && NonBlank(rows[i]) && Usable(conv(rows[i]))
      ensures conv(rows[i]) in Filter(mapped, Usable)
    {
      var t :| 0 <= t < |kept| && kept[t] == rows[i];
      assert mapped[t] == conv(rows[i]);
    }
  }

  /** `applyColumnMapping()`: without a mapping, or with any of date, store, category or amount
      unmapped, the mapping is rejected and the data stays as it was; otherwise the records are
      the one-pass import of the rows through the mapped columns, each with a date, a store and
      a non-zero amount. */
  function ApplyColumnMapping(mapping: Option<ColumnMapping>, headers: seq<string>, rows: seq<seq<string>>): (res: MappingResult)
    ensures mapping.None? ==> res.Rejected?
    ensures mapping.Some? ==>
      (res.Rejected? <==> (mapping.value.date == "" || mapping.value.store == "" ||
                           mapping.value.category == "" || mapping.value.amount == ""))
    ensures res.Applied? ==> |res.records| <= |rows| && forall k :: 0 <= k < |res.records| ==> Usable(res.records[k])
    ensures res.Applied? ==>
              mapping.Some? &&
              res.records == UsableRecords(rows, IndexOf(headers, mapping.value.date), IndexOf(headers, mapping.value.store),
                                           IndexOf(headers, mapping.value.category), IndexOf(headers, mapping.value.amount),
                                           if mapping.value.memo != "" then IndexOf(headers, mapping.value.memo) else -1)
  {
    match mapping
    case None => Rejected("no column mapping")
    case Some(m) =>
      if m.date == "" || m.store == "" || m.category == "" || m.amount == "" then
        Rejected("date, store, category and amount columns are required")
      else
        var mi := if m.memo != "" then IndexOf(headers, m.memo) else -1;
        Applied(ConvertRows(rows, IndexOf(headers, m.date), IndexOf(headers, m.store),
                            IndexOf(headers, m.category), IndexOf(headers, m.amount), mi))
  }
}

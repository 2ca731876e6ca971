/** The two-list to-do app: open items and done items, moved between the lists by id, and a
    case-insensitive search over both lists. Every handler replaces the state wholesale, so each
    is a function from the old state to the new one. */
module Todo {

  import opened Seqs
  import opened Text

  datatype Item = Item(id: int, text: string, completed: bool)

  /** The open list, the done list, and the contents of the text box. */
  datatype State = State(todos: seq<Item>, done: seq<Item>, input: string)

  const Initial: State := State([], [], "")

  /** Every open item is uncompleted and every done item is completed. */
  predicate Inv(s: State)
  {
    (forall i :: 0 <= i < |s.todos| ==> !s.todos[i].completed) &&
    (forall i :: 0 <= i < |s.done| ==> s.done[i].completed)
  }

  /** No id appears twice across the two lists. */
  predicate UniqueIds(s: State)
  {
    var all := s.todos + s.done;
    forall i, j :: 0 <= i < j < |all| ==> all[i].id != all[j].id
  }

  // ---------------------------------------------------------------------------
  // Lookup and removal by id

  /** The index of the first item with this id, or |items| when there is none. */
  function FirstIndex(items: seq<Item>, id: int): (k: nat)
    ensures k <= |items|
    ensures forall j :: 0 <= j < k ==> items[j].id != id
    ensures k < |items| ==> items[k].id == id
    decreases |items|
  {
    if items == [] then 0
    else if items[0].id == id then 0
    else 1 + FirstIndex(items[1..], id)
  }

  /** `items.find(item => item.id === id)`. */
  function Find(items: seq<Item>, id: int): (r: Option<Item>)
    ensures r.None? <==> forall j :: 0 <= j < |items| ==> items[j].id != id
    ensures r.Some? ==> r.value == items[FirstIndex(items, id)] && r.value.id == id
  {
    var k := FirstIndex(items, id);
    if k < |items| then Some(items[k]) else None
  }

  /** `items.filter(item => item.id !== id)`. */
  function WithoutId(items: seq<Item>, id: int): (r: seq<Item>)
    ensures forall i :: 0 <= i < |r| ==> r[i].id != id && r[i] in items
    ensures forall i :: 0 <= i < |items| && items[i].id != id ==> items[i] in r
    ensures IsSubsequence(r, items)
    ensures (forall i :: 0 <= i < |items| ==> items[i].id != id) ==> r == items
    ensures forall x :: multiset(r)[x] == if x.id != id then multiset(items)[x] else 0
  {
    var keep := (it: Item) => it.id != id;
    FilterCounts(items, keep);
    Filter(items, keep)
  }

  function Occurrences(items: seq<Item>, id: int): nat
  {
    if items == [] then 0 else (if items[0].id == id then 1 else 0) + Occurrences(items[1..], id)
  }

  /** Removing an id shortens the list by the number of items carrying it. */
  lemma {:induction false} WithoutIdLength(items: seq<Item>, id: int)
    ensures |WithoutId(items, id)| + Occurrences(items, id) == |items|
    decreases |items|
  {
    if items != [] {
      WithoutIdLength(items[1..], id);
    }
  }

  /** In a list with distinct ids, an id that is present occurs exactly once. */
  lemma {:induction false} OccursOnce(items: seq<Item>, id: int, k: nat)
    requires forall i, j :: 0 <= i < j < |items| ==> items[i].id != items[j].id
    requires k < |items| && items[k].id == id
    ensures Occurrences(items, id) == 1
    decreases |items|
  {
    if k == 0 {
      NotPresent(items[1..], id);
    } else {
      OccursOnce(items[1..], id, k - 1);
    }
  }

  lemma {:induction false} NotPresent(items: seq<Item>, id: int)
    requires forall i :: 0 <= i < |items| ==> items[i].id != id
    ensures Occurrences(items, id) == 0
    decreases |items|
  {
    if items != [] {
      NotPresent(items[1..], id);
    }
  }

  // ---------------------------------------------------------------------------
  // Handlers

  /** `addTodo()`: a blank input changes nothing; otherwise one open item with the trimmed text is
      appended and the text box is cleared. `now` is the clock value used as the id. */
  function AddTodo(s: State, now: int): (t: State)
    ensures AllSpace(s.input) ==> t == s
    ensures !AllSpace(s.input) ==>
      |t.todos| == |s.todos| + 1 && t.todos[..|s.todos|] == s.todos &&
      t.todos[|s.todos|] == Item(now, Trim(s.input), false) &&
      t.todos[|s.todos|].text != [] && t.done == s.done && t.input == ""
    ensures Inv(s) ==> Inv(t)
  {
    var text := Trim(s.input);
    if text != [] then
      State(s.todos + [Item(now, text, false)], s.done, "")
    else
      s
  }

  /** `deleteTodo(id)`: removes every open item with the id; the done list is untouched. */
  function DeleteTodo(s: State, id: int): (t: State)
    ensures t.todos == WithoutId(s.todos, id) && t.done == s.done && t.input == s.input
    ensures Inv(s) ==> Inv(t)
  {
    s.(todos := WithoutId(s.todos, id))
  }

  /** `deleteDoneItem(id)`: removes every done item with the id; the open list is untouched. */
  function DeleteDoneItem(s: State, id: int): (t: State)
    ensures t.done == WithoutId(s.done, id) && t.todos == s.todos && t.input == s.input
    ensures Inv(s) ==> Inv(t)
  {
    s.(done := WithoutId(s.done, id))
  }

  /** `completeTodo(id)`: an absent id changes nothing; otherwise every open item with the id is
      removed and a completed copy of the first one is appended to the done list. */
  function CompleteTodo(s: State, id: int): (t: State)
    ensures Find(s.todos, id).None? ==> t == s
    ensures Find(s.todos, id).Some? ==>
      var item := Find(s.todos, id).value;
      t.todos == WithoutId(s.todos, id) && t.done == s.done + [Item(item.id, item.text, true)] &&
      t.input == s.input
    ensures Inv(s) ==> Inv(t)
  {
    match Find(s.todos, id)
    case None => s
    case Some(item) => State(WithoutId(s.todos, id), s.done + [item.(completed := true)], s.input)
  }

  /** `incompleteTodo(id)`: the mirror image, from the done list back to the end of the open list. */
  function IncompleteTodo(s: State, id: int): (t: State)
    ensures Find(s.done, id).None? ==> t == s
    ensures Find(s.done, id).Some? ==>
      var item := Find(s.done, id).value;
      t.done == WithoutId(s.done, id) && t.todos == s.todos + [Item(item.id, item.text, false)] &&
      t.input == s.input
    ensures Inv(s) ==> Inv(t)
  {
    match Find(s.done, id)
    case None => s
    case Some(item) => State(s.todos + [item.(completed := false)], WithoutId(s.done, id), s.input)
  }

  /** With distinct ids, completing or un-completing an item moves it and loses nothing. */
  lemma MovesKeepCount(s: State, id: int)
    requires UniqueIds(s)
    ensures var t := CompleteTodo(s, id); |t.todos| + |t.done| == |s.todos| + |s.done|
    ensures var t := IncompleteTodo(s, id); |t.todos| + |t.done| == |s.todos| + |s.done|
  {
    ListsDistinct(s);
    MoveKeepsCount(s.todos, id);
    MoveKeepsCount(s.done, id);
  }

  /** In a list of distinct ids, taking out the item with the id found drops exactly one item. */
  lemma MoveKeepsCount(items: seq<Item>, id: int)
    requires forall i, j :: 0 <= i < j < |items| ==> items[i].id != items[j].id
    ensures Find(items, id).Some? ==> |WithoutId(items, id)| + 1 == |items|
    ensures Find(items, id).None? ==> |WithoutId(items, id)| == |items|
  {
    WithoutIdLength(items, id);
    var k := FirstIndex(items, id);
    if k < |items| {
      OccursOnce(items, id, k);
    }
  }

  /** Distinct ids across both lists give distinct ids within each list. */
  lemma ListsDistinct(s: State)
    requires UniqueIds(s)
    ensures forall i, j :: 0 <= i < j < |s.todos| ==> s.todos[i].id != s.todos[j].id
    ensures forall i, j :: 0 <= i < j < |s.done| ==> s.done[i].id != s.done[j].id
  {
    var all := s.todos + s.done;
    forall i, j | 0 <= i < j < |s.todos| ensures s.todos[i].id != s.todos[j].id {
      assert all[i] == s.todos[i] && all[j] == s.todos[j];
    }
    forall i, j | 0 <= i < j < |s.done| ensures s.done[i].id != s.done[j].id {
      assert all[|s.todos| + i] == s.done[i] && all[|s.todos| + j] == s.done[j];
    }
  }

  /** Removing the id from a list where only the appended last item carries it gives the list
      before the append. */
  lemma WithoutLastId(items: seq<Item>, last: Item, id: int)
    requires last.id == id && forall j :: 0 <= j < |items| ==> items[j].id != id
    ensures WithoutId(items + [last], id) == items
  {
    FilterAppend(items, [last], (it: Item) => it.id != id);
  }

  /** Completing an open item whose id is unique and then un-completing it puts the same item
      back, at the end of the open list. */
  lemma CompleteThenIncomplete(s: State, id: int)
    requires Inv(s) && UniqueIds(s)
    requires Find(s.todos, id).Some?
    ensures var item := Find(s.todos, id).value;
      IncompleteTodo(CompleteTodo(s, id), id) == s.(todos := WithoutId(s.todos, id) + [item])
  {
    var item := Find(s.todos, id).value;
    var k := FirstIndex(s.todos, id);
    var all := s.todos + s.done;
    forall j | 0 <= j < |s.done| ensures s.done[j].id != id {
      assert all[k] == s.todos[k] && all[|s.todos| + j] == s.done[j];
    }
    var t := CompleteTodo(s, id);
    assert t.done == s.done + [item.(completed := true)];
    assert t.done[|s.done|].id == id;
    assert forall j :: 0 <= j < |s.done| ==> t.done[j].id != id;
    assert FirstIndex(t.done, id) == |s.done|;
    WithoutLastId(s.done, item.(completed := true), id);
    assert item.(completed := true).(completed := false) == item by {
      assert !s.todos[k].completed;
    }
  }

  // ---------------------------------------------------------------------------
  // Search

  /** The item's lower-cased text contains the lower-cased query. */
  predicate Matches(item: Item, query: string)
  {
    Contains(ToLower(item.text), ToLower(query))
  }

  /** The search filter applied to either list. */
  function Search(items: seq<Item>, query: string): (r: seq<Item>)
    ensures forall i :: 0 <= i < |r| ==> Matches(r[i], query) && r[i] in items
    ensures forall i :: 0 <= i < |items| && Matches(items[i], query) ==> items[i] in r
    ensures IsSubsequence(r, items)
    ensures forall x :: multiset(r)[x] == if Matches(x, query) then multiset(items)[x] else 0
  {
    var keep := (it: Item) => Matches(it, query);
    FilterCounts(items, keep);
    Filter(items, keep)
  }

  /** An empty query keeps every item, in order. */
  lemma SearchEmptyQuery(items: seq<Item>)
    ensures Search(items, "") == items
  {
    forall i | 0 <= i < |items| ensures Matches(items[i], "") {
      assert ToLower("") == "";
    }
  }
}

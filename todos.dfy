/** The task list of the to-do component: its records and the list operations
    `toggleTodo`, `deleteTodo`, `saveEdit`'s rewrite, `clearCompleted`, and the
    items-left and progress figures. */
module Todos {
  import opened Text
  import opened Seqs
  import opened Options

  /** The id the component takes from Date.now(); nothing makes it unique. */
  type Id = int

  /** The three options of the priority selector. */
  datatype Priority = Low | Medium | High

  /** The string the component stores for a priority. */
  function Label(p: Priority): string {
    match p
    case Low => "Low"
    case Medium => "Medium"
    case High => "High"
  }

  /** One to-do item; `dueDate` is the date input's text, "" when none. */
  datatype Todo = Todo(id: Id, title: string, dueDate: string, priority: Priority,
                       category: string, completed: bool)

  /** The four editable fields, as held by the new-task inputs and by the
      working copy of an edit session. */
  datatype Fields = Fields(title: string, dueDate: string, priority: Priority, category: string)

  /** What the inputs are reset to: '', '', 'Low', ''. */
  const EmptyFields := Fields("", "", Low, "")

  function FieldsOf(t: Todo): Fields {
    Fields(t.title, t.dueDate, t.priority, t.category)
  }

  /** The item `addTodo` appends: the inputs verbatim (title not trimmed), not completed. */
  function NewTodo(id: Id, f: Fields): (t: Todo)
    ensures t.id == id && FieldsOf(t) == f && !t.completed
  {
    Todo(id, f.title, f.dueDate, f.priority, f.category, false)
  }

  predicate IsActive(t: Todo) {
    !t.completed
  }

  predicate IsDone(t: Todo) {
    t.completed
  }

  /** The id test of `toggleTodo`, `deleteTodo` and `saveEdit`: every item
      with that id matches, however many there are. */
  predicate HasId(t: Todo, id: Id) {
    t.id == id
  }

  /** toggleTodo: flips `completed` on every item whose id is `id`. */
  function Toggle(s: seq<Todo>, id: Id): (r: seq<Todo>)
    ensures |r| == |s|
    ensures forall i :: 0 <= i < |s| ==>
              r[i].(completed := s[i].completed) == s[i] &&
              (r[i].completed <==> (s[i].completed != HasId(s[i], id)))
    decreases |s|
  {
    if s == [] then []
    else
      var head := if HasId(s[0], id) then s[0].(completed := !s[0].completed) else s[0];
      [head] + Toggle(s[1..], id)
  }

  /** Toggling the same id twice restores the list. */
  lemma {:induction false} ToggleTwice(s: seq<Todo>, id: Id)
    ensures Toggle(Toggle(s, id), id) == s
    decreases |s|
  {
    if s != [] {
      ToggleTwice(s[1..], id);
    }
  }

  /** Toggling an id no item has changes nothing. */
  lemma {:induction false} ToggleAbsent(s: seq<Todo>, id: Id)
    requires forall t :: t in s ==> !HasId(t, id)
    ensures Toggle(s, id) == s
    decreases |s|
  {
    if s != [] {
      ToggleAbsent(s[1..], id);
    }
  }

  /** The filter test of `deleteTodo`. */
  function OtherId(id: Id): Todo -> bool {
    t => !HasId(t, id)
  }

  /** deleteTodo: the items whose id is not `id`, in their order. */
  function Delete(s: seq<Todo>, id: Id): (r: seq<Todo>)
    ensures IsSubsequence(r, s)
    ensures forall t :: multiset(r)[t] == if HasId(t, id) then 0 else multiset(s)[t]
  {
    Filter(s, OtherId(id))
  }

  /** Deleting an id no item has changes nothing. */
  lemma DeleteAbsent(s: seq<Todo>, id: Id)
    requires forall t :: t in s ==> !HasId(t, id)
    ensures Delete(s, id) == s
  {
    FilterKeepsAll(s, OtherId(id));
  }

  /** A second delete of the same id changes nothing. */
  lemma DeleteIdempotent(s: seq<Todo>, id: Id)
    ensures Delete(Delete(s, id), id) == Delete(s, id)
  {
    FilterIdempotent(s, OtherId(id));
  }

  /** The item with its four editable fields replaced, `id` and `completed` kept. */
  function WithFields(t: Todo, f: Fields): (u: Todo)
    ensures FieldsOf(u) == f && u.id == t.id && u.completed == t.completed
  {
    t.(title := f.title, dueDate := f.dueDate, priority := f.priority, category := f.category)
  }

  /** saveEdit's rewrite of the list: every item whose id is the session's
      target gets the working fields; with no target (null) nothing matches. */
  function Update(s: seq<Todo>, target: Option<Id>, f: Fields): (r: seq<Todo>)
    ensures |r| == |s|
    ensures forall i :: 0 <= i < |s| ==>
              r[i].id == s[i].id && r[i].completed == s[i].completed &&
              FieldsOf(r[i]) == (if target == Some(s[i].id) then f else FieldsOf(s[i]))
    decreases |s|
  {
    if s == [] then []
    else
      var head := if target == Some(s[0].id) then WithFields(s[0], f) else s[0];
      [head] + Update(s[1..], target, f)
  }

  /** Saving with no target leaves the list as it was. */
  lemma {:induction false} UpdateNoTarget(s: seq<Todo>, f: Fields)
    ensures Update(s, None, f) == s
    decreases |s|
  {
    if s != [] {
      UpdateNoTarget(s[1..], f);
    }
  }

  /** clearCompleted: the active items, in their order. */
  function ClearCompleted(s: seq<Todo>): (r: seq<Todo>)
    ensures IsSubsequence(r, s)
    ensures forall t :: t in r ==> IsActive(t)
    ensures forall t :: IsActive(t) ==> multiset(r)[t] == multiset(s)[t]
  {
    Filter(s, IsActive)
  }

  /** Clearing twice is clearing once. */
  lemma ClearCompletedIdempotent(s: seq<Todo>)
    ensures ClearCompleted(ClearCompleted(s)) == ClearCompleted(s)
  {
    FilterIdempotent(s, IsActive);
  }

  /** The footer's "items left": how many items are not completed. */
  function ItemsLeft(s: seq<Todo>): (n: nat)
    ensures n <= |s|
    ensures n == |s| <==> forall t :: t in s ==> !t.completed
  {
    var active := Filter(s, IsActive);
    SubsequenceShorter(active, s);
    assert |active| == |s| ==> active == s by {
      if |active| == |s| { SubsequenceSameLength(active, s); }
    }
    assert active == s <== (forall t :: t in s ==> !t.completed) by {
      if forall t :: t in s ==> !t.completed { FilterKeepsAll(s, IsActive); }
    }
    |active|
  }

  /** How many items are completed. */
  function CompletedCount(s: seq<Todo>): (n: nat)
    ensures n + ItemsLeft(s) == |s|
  {
    FilterSplitsLength(s, IsDone, IsActive);
    |Filter(s, IsDone)|
  }

  /** clearCompleted leaves the items-left figure as it was. */
  lemma ClearCompletedKeepsItemsLeft(s: seq<Todo>)
    ensures ItemsLeft(ClearCompleted(s)) == ItemsLeft(s)
  {
    FilterIdempotent(s, IsActive);
  }

  /** Math.round(done / total * 100) on exact rationals: the nearest whole
      percentage, a half rounded up. */
  function Percentage(done: nat, total: nat): (r: nat)
    requires 0 < total && done <= total
    ensures 2 * total * r <= 200 * done + total < 2 * total * (r + 1)
    ensures r <= 100
    ensures done == 0 ==> r == 0
    ensures done == total ==> r == 100
  {
    var r := (200 * done + total) / (2 * total);
    DivBounds(200 * done + total, 2 * total);
    RoundedAtMost100(done, total, r);
    RoundedZero(done, total, r);
    RoundedFull(done, total, r);
    r
  }

  lemma DivBounds(a: nat, b: nat)
    requires b > 0
    ensures b * (a / b) <= a < b * (a / b + 1)
  {
  }

  lemma RoundedAtMost100(done: nat, total: nat, r: nat)
    requires 0 < total && done <= total
    requires 2 * total * r <= 200 * done + total
    ensures r <= 100
  {
    var m := 2 * total;
    assert m * r <= 201 * total;
    MulMonotone(m, 101, r);
    assert m * 101 == 202 * total;
  }

  lemma RoundedZero(done: nat, total: nat, r: nat)
    requires 0 < total
    requires 2 * total * r <= 200 * done + total
    ensures done == 0 ==> r == 0
  {
    var m := 2 * total;
    MulMonotone(m, 1, r);
  }

  lemma RoundedFull(done: nat, total: nat, r: nat)
    requires 0 < total
    requires 200 * done + total < 2 * total * (r + 1)
    ensures done == total ==> r >= 100
  {
    var m := 2 * total;
    MulMonotone(m, r + 1, 100);
    assert m * 100 == 200 * total;
  }

  /** The value shown as "Progress: …%", where the list is empty included. */
  datatype Percent = NaN | Value(n: nat)

  /** The progress figure as written: Math.round(done / total * 100), whose
      0 / 0 at an empty list is NaN. */
  function ProgressAsWritten(s: seq<Todo>): (p: Percent)
    ensures p.NaN? <==> s == []
    ensures p.Value? ==> p.n == Progress(s)
  {
    if s == [] then NaN else Value(Percentage(CompletedCount(s), |s|))
  }

  /** An empty list shows "Progress: NaN%". */
  lemma EmptyListShowsNaN()
    ensures ProgressAsWritten([]) == NaN
  {
  }

  /** The progress percentage: the completed share of the list as a whole
      percentage; an empty list counts as 0%. */
  function Progress(s: seq<Todo>): (r: nat)
    ensures r <= 100
    ensures CompletedCount(s) == 0 ==> r == 0
    ensures s != [] && ItemsLeft(s) == 0 ==> r == 100
    ensures s != [] ==> r == Percentage(CompletedCount(s), |s|)
  {
    if s == [] then 0 else Percentage(CompletedCount(s), |s|)
  }

  /** Multiplying by a positive factor keeps the order in both directions. */
  lemma MulMonotone(k: nat, a: nat, b: nat)
    requires k > 0
    ensures a <= b <==> k * a <= k * b
  {
  }

  /** Two items, one completed: 50%. */
  lemma HalfDoneIsFifty(a: Todo, b: Todo)
    requires a.completed && !b.completed
    ensures Progress([a, b]) == 50
  {
    assert Filter([a, b], IsDone) == [a];
  }
}

/** The displayed list: `getFilteredTodos` (status filter, then title search)
    followed by the render's sort on `b.priority.localeCompare(a.priority)`. */
module View {
  import opened Text
  import opened Seqs
  import opened Todos
  import opened Options

  /** The status buttons: 'all', 'active', 'completed'. */
  datatype StatusFilter = All | Active | Completed

  predicate PassesStatus(f: StatusFilter, t: Todo) {
    match f
    case All => true
    case Active => !t.completed
    case Completed => t.completed
  }

  /** Case-insensitive title match: the lower-cased title includes the
      lower-cased search text. */
  predicate MatchesSearch(q: string, t: Todo) {
    Includes(ToLower(t.title), ToLower(q))
  }

  /** The search step's filter test. */
  function SearchFor(q: string): Todo -> bool {
    t => MatchesSearch(q, t)
  }

  /** An empty search text matches every item. */
  lemma EmptySearchMatchesAll(t: Todo)
    ensures MatchesSearch("", t)
  {
    IncludesEmpty(ToLower(t.title));
  }

  /** getFilteredTodos: the items passing the status filter and, when the
      search text is not empty, the title search, in list order. */
  function FilteredTodos(s: seq<Todo>, f: StatusFilter, q: string): (r: seq<Todo>)
    ensures IsSubsequence(r, s)
    ensures forall t :: multiset(r)[t] ==
              if PassesStatus(f, t) && MatchesSearch(q, t) then multiset(s)[t] else 0
  {
    var byStatus :=
      match f
      case All => s
      case Active => Filter(s, IsActive)
      case Completed => Filter(s, IsDone);
    SubsequenceRefl(s);
    if q == "" then
      assert forall t :: MatchesSearch(q, t) by {
        forall t { EmptySearchMatchesAll(t); }
      }
      byStatus
    else
      var r := Filter(byStatus, SearchFor(q));
      SubsequenceTrans(r, byStatus, s);
      r
  }

  /** The position of a priority in the displayed order. The comparator sorts
      by label in descending string order, "Medium" > "Low" > "High". */
  function Rank(p: Priority): nat {
    match p
    case Medium => 0
    case Low => 1
    case High => 2
  }

  /** The rank agrees with the comparator: `a` goes before `b` exactly when
      b's label sorts before a's. */
  lemma RankFollowsLabels(a: Priority, b: Priority)
    ensures Rank(a) < Rank(b) <==> LessThan(Label(b), Label(a))
  {
    assert Label(Low)[0] == 'L' && Label(Medium)[0] == 'M' && Label(High)[0] == 'H';
  }

  function WithPriority(p: Priority): Todo -> bool {
    (t: Todo) => t.priority == p
  }

  /** Items of lower rank come first. */
  predicate SortedByRank(s: seq<Todo>) {
    forall i, j :: 0 <= i < j < |s| ==> Rank(s[i].priority) <= Rank(s[j].priority)
  }

  /** The render's stable sort by priority: the Medium items, then the Low,
      then the High, each group in its order in `s`. */
  function SortByPriority(s: seq<Todo>): (r: seq<Todo>)
    ensures SortedByRank(r)
    ensures multiset(r) == multiset(s)
    ensures forall p :: Filter(r, WithPriority(p)) == Filter(s, WithPriority(p))
  {
    var m, l, h := Filter(s, WithPriority(Medium)), Filter(s, WithPriority(Low)),
                   Filter(s, WithPriority(High));
    GroupsSorted(m, l, h);
    GroupsPermutation(s);
    forall p ensures Filter(m + l + h, WithPriority(p)) == Filter(s, WithPriority(p)) {
      PriorityGroup(s, p);
    }
    m + l + h
  }

  /** Medium items, then Low items, then High items are in rank order. */
  lemma GroupsSorted(m: seq<Todo>, l: seq<Todo>, h: seq<Todo>)
    requires forall t :: t in m ==> t.priority == Medium
    requires forall t :: t in l ==> t.priority == Low
    requires forall t :: t in h ==> t.priority == High
    ensures SortedByRank(m + l + h)
  {
    var r := m + l + h;
    forall k | 0 <= k < |r|
      ensures Rank(r[k].priority) == if k < |m| then 0 else if k < |m| + |l| then 1 else 2
    {
      if k < |m| {
        assert r[k] == m[k];
      } else if k < |m| + |l| {
        assert r[k] == l[k - |m|];
      } else {
        assert r[k] == h[k - |m| - |l|];
      }
    }
  }

  /** The three priority groups together hold every item once. */
  lemma GroupsPermutation(s: seq<Todo>)
    ensures multiset(Filter(s, WithPriority(Medium)) + Filter(s, WithPriority(Low))
                     + Filter(s, WithPriority(High))) == multiset(s)
  {
    var m, l, h := Filter(s, WithPriority(Medium)), Filter(s, WithPriority(Low)),
                   Filter(s, WithPriority(High));
    forall t ensures multiset(m + l + h)[t] == multiset(s)[t] {
      assert multiset(m + l + h)[t] == multiset(m)[t] + multiset(l)[t] + multiset(h)[t];
    }
    assert multiset(m + l + h) == multiset(s);
  }

  /** Filtering the sorted list by one priority gives that priority's group. */
  lemma PriorityGroup(s: seq<Todo>, p: Priority)
    ensures var r := Filter(s, WithPriority(Medium)) + Filter(s, WithPriority(Low))
                     + Filter(s, WithPriority(High));
            Filter(r, WithPriority(p)) == Filter(s, WithPriority(p))
  {
    var m, l, h := Filter(s, WithPriority(Medium)), Filter(s, WithPriority(Low)),
                   Filter(s, WithPriority(High));
    FilterConcat(m + l, h, WithPriority(p));
    FilterConcat(m, l, WithPriority(p));
    GroupFilter(s, Medium, p);
    GroupFilter(s, Low, p);
    GroupFilter(s, High, p);
  }

  /** Filtering a priority group by a priority keeps all of it or none. */
  lemma GroupFilter(s: seq<Todo>, g: Priority, p: Priority)
    ensures Filter(Filter(s, WithPriority(g)), WithPriority(p)) ==
            if g == p then Filter(s, WithPriority(g)) else []
  {
    if g == p {
      FilterIdempotent(s, WithPriority(g));
    } else {
      FilterKeepsNone(Filter(s, WithPriority(g)), WithPriority(p));
    }
  }

  /** The displayed list. */
  function DisplayList(s: seq<Todo>, f: StatusFilter, q: string): (r: seq<Todo>)
    ensures SortedByRank(r)
    ensures forall t :: multiset(r)[t] ==
              if PassesStatus(f, t) && MatchesSearch(q, t) then multiset(s)[t] else 0
    ensures forall p :: Filter(r, WithPriority(p)) == Filter(FilteredTodos(s, f, q), WithPriority(p))
  {
    SortByPriority(FilteredTodos(s, f, q))
  }

  /** A list's Medium group, then its Low group, then its High group. */
  function Groups(t: seq<Todo>): seq<Todo> {
    Filter(t, WithPriority(Medium)) + Filter(t, WithPriority(Low)) + Filter(t, WithPriority(High))
  }

  /** A list in rank order is its three priority groups one after the other. */
  lemma {:induction false} SortedSplits(t: seq<Todo>)
    requires SortedByRank(t)
    ensures t == Groups(t)
    decreases |t|
  {
    if t != [] {
      var x, rest := t[0], t[1..];
      assert t == [x] + rest;
      SortedTail(t);
      SortedSplits(rest);
      GroupsCons(x, rest);
      assert Groups(t) == [x] + Groups(rest);
    }
  }

  lemma SortedTail(t: seq<Todo>)
    requires SortedByRank(t) && t != []
    ensures SortedByRank(t[1..])
    ensures forall y :: y in t[1..] ==> Rank(t[0].priority) <= Rank(y.priority)
  {
    var rest := t[1..];
    forall i, j | 0 <= i < j < |rest| ensures Rank(rest[i].priority) <= Rank(rest[j].priority) {
      assert rest[i] == t[i + 1] && rest[j] == t[j + 1];
    }
    forall y | y in rest ensures Rank(t[0].priority) <= Rank(y.priority) {
      var j :| 0 <= j < |rest| && rest[j] == y;
      assert t[j + 1] == y;
    }
  }

  /** An item of the lowest rank put in front of a list goes in front of its groups. */
  lemma GroupsCons(x: Todo, rest: seq<Todo>)
    requires forall y :: y in rest ==> Rank(x.priority) <= Rank(y.priority)
    ensures Groups([x] + rest) == [x] + Groups(rest)
  {
    var t := [x] + rest;
    FilterCons(x, rest, WithPriority(Medium));
    FilterCons(x, rest, WithPriority(Low));
    FilterCons(x, rest, WithPriority(High));
    if x.priority == Low {
      FilterKeepsNone(rest, WithPriority(Medium));
    } else if x.priority == High {
      FilterKeepsNone(rest, WithPriority(Medium));
      FilterKeepsNone(rest, WithPriority(Low));
    }
    PrependToGroup(x, Filter(rest, WithPriority(Medium)), Filter(rest, WithPriority(Low)),
      Filter(rest, WithPriority(High)), Filter(t, WithPriority(Medium)),
      Filter(t, WithPriority(Low)), Filter(t, WithPriority(High)));
  }

  lemma PrependToGroup(x: Todo, m: seq<Todo>, l: seq<Todo>, h: seq<Todo>,
                       m': seq<Todo>, l': seq<Todo>, h': seq<Todo>)
    requires || (m' == [x] + m && l' == l && h' == h)
             || (m == [] && m' == [] && l' == [x] + l && h' == h)
             || (m == [] && l == [] && m' == [] && l' == [] && h' == [x] + h)
    ensures m' + l' + h' == [x] + (m + l + h)
  {
  }

  /** The sort is the only stable order by rank: a list in rank order whose
      priority groups are those of `s` is SortByPriority(s). */
  lemma SortUnique(s: seq<Todo>, t: seq<Todo>)
    requires SortedByRank(t)
    requires forall p :: Filter(t, WithPriority(p)) == Filter(s, WithPriority(p))
    ensures t == SortByPriority(s)
  {
    SortedSplits(t);
  }

  /** Sorting a sorted list changes nothing. */
  lemma SortIdempotent(s: seq<Todo>)
    ensures SortByPriority(SortByPriority(s)) == SortByPriority(s)
  {
    SortUnique(SortByPriority(s), SortByPriority(s));
  }

  /** Filtering by status and search commutes with picking one priority group. */
  lemma FilteredCommutes(s: seq<Todo>, f: StatusFilter, q: string, p: Priority)
    ensures Filter(FilteredTodos(s, f, q), WithPriority(p)) ==
            FilteredTodos(Filter(s, WithPriority(p)), f, q)
  {
    var w := WithPriority(p);
    match f
    case All =>
      if q != "" { FilterCommute(s, SearchFor(q), w); }
    case Active =>
      FilterCommute(s, IsActive, w);
      if q != "" { FilterCommute(Filter(s, IsActive), SearchFor(q), w); }
    case Completed =>
      FilterCommute(s, IsDone, w);
      if q != "" { FilterCommute(Filter(s, IsDone), SearchFor(q), w); }
  }

  /** Reordering the list by the sort never shows on screen: every filter and
      search displays the same list before and after. */
  lemma SortedStoreDisplaysAlike(s: seq<Todo>, f: StatusFilter, q: string)
    ensures DisplayList(SortByPriority(s), f, q) == DisplayList(s, f, q)
  {
    var u, v := FilteredTodos(SortByPriority(s), f, q), FilteredTodos(s, f, q);
    forall p ensures Filter(SortByPriority(u), WithPriority(p)) == Filter(v, WithPriority(p)) {
      FilteredCommutes(SortByPriority(s), f, q, p);
      FilteredCommutes(s, f, q, p);
    }
    SortUnique(v, SortByPriority(u));
  }

  /** The list as it stands after a render, as written: with filter 'all' and
      no search, getFilteredTodos returns the state array itself, and the
      render's in-place sort reorders it. */
  function StoreAfterRender(s: seq<Todo>, f: StatusFilter, q: string): (r: seq<Todo>)
    ensures multiset(r) == multiset(s)
    ensures (f != All || q != "") ==> r == s
    ensures f == All && q == "" ==> r == SortByPriority(s)
    ensures forall f', q' :: DisplayList(r, f', q') == DisplayList(s, f', q')
  {
    if f == All && q == "" then
      forall f', q' ensures DisplayList(SortByPriority(s), f', q') == DisplayList(s, f', q') {
        SortedStoreDisplaysAlike(s, f', q');
      }
      SortByPriority(s)
    else s
  }

  /** A High item added before a Low one: one render with filter 'all' and
      no search swaps them in the list itself. */
  lemma RenderReordersStore()
    ensures var a := Todo(1, "Pay rent", "", High, "", false);
            var b := Todo(2, "Buy milk", "", Low, "", false);
            StoreAfterRender([a, b], All, "") == [b, a] != [a, b]
  {
    var a := Todo(1, "Pay rent", "", High, "", false);
    var b := Todo(2, "Buy milk", "", Low, "", false);
    TwoItemOrder(a, b);
  }

  /** As written, the reordering shows once a save moves an item into another
      priority group. A High item `h`, a Low item `l` and a Medium item `m`
      are rendered once under 'all' with no search, then `h` is saved as Low:
      the stored list has it after `l`, so the display does too, while the
      list in insertion order displays it before. For instance "Pay rent"
      (High), "Buy milk" (Low), "Call mom" (Medium), then "Pay rent" saved as
      Low. */
  lemma EditAfterRenderShows(h: Todo, l: Todo, m: Todo, e: Fields)
    requires h.priority == High && l.priority == Low && m.priority == Medium
    requires h.id == 1 && l.id != 1 && m.id != 1 && e.priority == Low
    ensures DisplayList(Update(StoreAfterRender([h, l, m], All, ""), Some(1), e), All, "") !=
            DisplayList(Update([h, l, m], Some(1), e), All, "")
  {
    var h' := WithFields(h, e);
    SavedAfterRender(h, l, m, e);
    UpdateOne(h, l, m, e);
    LowGroupsDiffer(m, l, h');
  }

  /** The stored list after the render and the save: the render moved `h`
      last, and the save gave it the new fields there. */
  lemma SavedAfterRender(h: Todo, l: Todo, m: Todo, e: Fields)
    requires h.priority == High && l.priority == Low && m.priority == Medium
    requires h.id == 1 && l.id != 1 && m.id != 1
    ensures Update(StoreAfterRender([h, l, m], All, ""), Some(1), e) == [m, l, WithFields(h, e)]
  {
    ThreeItemOrder(h, l, m);
    UpdateOne(m, l, h, e);
  }

  /** A Medium item and two Low ones: the two Low ones display in the order
      they stand in, so the two lists display differently. */
  lemma LowGroupsDiffer(m: Todo, l: Todo, h': Todo)
    requires m.priority == Medium && l.priority == Low && h'.priority == Low && l != h'
    ensures DisplayList([m, l, h'], All, "") != DisplayList([h', l, m], All, "")
  {
    DisplayAllIsSort([m, l, h']);
    DisplayAllIsSort([h', l, m]);
    LowGroupAfterMedium(m, l, h');
    LowGroupBeforeMedium(h', l, m);
    assert Filter(SortByPriority([m, l, h']), WithPriority(Low)) == [l, h'];
    assert Filter(SortByPriority([h', l, m]), WithPriority(Low)) == [h', l];
  }

  /** Saving fields under id 1 in a three-item list. */
  lemma UpdateOne(a: Todo, b: Todo, c: Todo, e: Fields)
    ensures var u := Update([a, b, c], Some(1), e);
            u == [if a.id == 1 then WithFields(a, e) else a,
                  if b.id == 1 then WithFields(b, e) else b,
                  if c.id == 1 then WithFields(c, e) else c]
  {
  }

  /** The render's sort of a High, a Low and a Medium item. */
  lemma ThreeItemOrder(h: Todo, l: Todo, m: Todo)
    requires h.priority == High && l.priority == Low && m.priority == Medium
    ensures SortByPriority([h, l, m]) == [m, l, h]
  {
    GroupLast(h, l, m, Medium);
    GroupMiddle(h, l, m, Low);
    GroupFirst(h, l, m, High);
  }

  /** A group of a three-item list holding only its first item. */
  lemma GroupFirst(a: Todo, b: Todo, c: Todo, p: Priority)
    requires a.priority == p && b.priority != p && c.priority != p
    ensures Filter([a, b, c], WithPriority(p)) == [a]
  {
    FirstOfThree(a, b, c, p);
    assert [b, c][1..] == [c];
  }

  /** A group of a three-item list holding only its middle item. */
  lemma GroupMiddle(a: Todo, b: Todo, c: Todo, p: Priority)
    requires a.priority != p && b.priority == p && c.priority != p
    ensures Filter([a, b, c], WithPriority(p)) == [b]
  {
    FirstOfThree(a, b, c, p);
    assert [b, c][1..] == [c];
  }

  /** A group of a three-item list holding only its last item. */
  lemma GroupLast(a: Todo, b: Todo, c: Todo, p: Priority)
    requires a.priority != p && b.priority != p && c.priority == p
    ensures Filter([a, b, c], WithPriority(p)) == [c]
  {
    FirstOfThree(a, b, c, p);
    assert [b, c][1..] == [c];
  }

  /** One priority group of a three-item list: the first item, if it has
      that priority, then the group of the other two. */
  lemma FirstOfThree(a: Todo, b: Todo, c: Todo, p: Priority)
    ensures Filter([a, b, c], WithPriority(p)) ==
            if a.priority == p then [a] + Filter([b, c], WithPriority(p))
            else Filter([b, c], WithPriority(p))
  {
    assert [a, b, c][1..] == [b, c];
  }

  /** Under 'all' with no search the display is the sort of the whole list. */
  lemma DisplayAllIsSort(s: seq<Todo>)
    ensures DisplayList(s, All, "") == SortByPriority(s)
  {
  }

  /** The Low group of a Medium item followed by two Low ones. */
  lemma LowGroupAfterMedium(a: Todo, b: Todo, c: Todo)
    requires a.priority == Medium && b.priority == Low && c.priority == Low
    ensures Filter([a, b, c], WithPriority(Low)) == [b, c]
  {
    FirstOfThree(a, b, c, Low);
    assert [b, c][1..] == [c];
  }

  /** The Low group of two Low items followed by a Medium one. */
  lemma LowGroupBeforeMedium(a: Todo, b: Todo, c: Todo)
    requires a.priority == Low && b.priority == Low && c.priority == Medium
    ensures Filter([a, b, c], WithPriority(Low)) == [a, b]
  {
    FirstOfThree(a, b, c, Low);
    assert [b, c][1..] == [c];
  }

  /** "Buy milk" (Low) and "Pay rent" (High), added in that order, show in
      that order: Low sorts before High. */
  lemma LowShownBeforeHigh(a: Todo, b: Todo)
    requires a.priority == Low && b.priority == High
    ensures DisplayList([a, b], All, "") == [a, b]
  {
    TwoItemOrder(b, a);
  }

  lemma TwoItemOrder(a: Todo, b: Todo)
    requires a.priority == High && b.priority == Low
    ensures SortByPriority([a, b]) == [b, a] && SortByPriority([b, a]) == [b, a]
  {
    assert [a, b][1..] == [b] && [b, a][1..] == [a];
  }
}

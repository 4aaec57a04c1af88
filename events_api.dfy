/** The in-memory event query engine: `getEvents` (a fixed chain of filters over the fixture array,
    then a sort by date) and the lookups beside it (`getEventBySlug`, `getFeaturedEvents`,
    `getCategories`, `getLocations`). */
module EventsApi {

  import opened Wrappers
  import opened Strings
  import opened EventTypes

  // ================================================================ filter criteria

  /** What one `events.filter(...)` call of the module keeps. */
  datatype Criterion =
    | Search(term: string)
    | InCategory(name: string)
    | Near(place: string)
    | NotBefore(start: int)
    | NotAfter(finish: int)
    | FreeEntry
    | PaidEntry
    | Featured

  /** `event.tags.some(tag => tag.toLowerCase().includes(q))`. */
  predicate AnyTagIncludes(tags: seq<string>, q: string) {
    exists i :: 0 <= i < |tags| && Includes(Lower(tags[i]), q)
  }

  /** The predicate each filter call passes to `Array.prototype.filter`. */
  predicate Holds(c: Criterion, e: Event) {
    match c
    case Search(term) =>
      var q := Lower(term);
      || Includes(Lower(e.title), q)
      || Includes(Lower(e.description), q)
      || AnyTagIncludes(e.tags, q)
      || Includes(Lower(e.category), q)
    case InCategory(name) => e.category == name
    case Near(place) =>
      var q := Lower(place);
      || Includes(Lower(e.location.city), q)
      || Includes(Lower(e.location.country), q)
      || Includes(Lower(e.location.venue), q)
    case NotBefore(start) => e.date >= start
    case NotAfter(finish) => e.date <= finish
    case FreeEntry => e.price == Free
    case PaidEntry => e.price != Free
    case Featured => e.featured
  }

  /** `s.filter(e => Holds(c, e))`: the elements that satisfy `c`, in their order. */
  function Select(s: seq<Event>, c: Criterion): seq<Event> {
    if |s| == 0 then []
    else Select(s[..|s| - 1], c) + (if Holds(c, s[|s| - 1]) then [s[|s| - 1]] else [])
  }

  /** Selection keeps every satisfying element as often as it occurs, and nothing else. */
  lemma {:induction false} SelectMultiset(s: seq<Event>, c: Criterion)
    ensures forall e :: multiset(Select(s, c))[e] == if Holds(c, e) then multiset(s)[e] else 0
  {
    if |s| > 0 {
      SelectMultiset(s[..|s| - 1], c);
      assert s == s[..|s| - 1] + [s[|s| - 1]];
    }
  }

  /** Selection distributes over concatenation: it keeps the order of the input. */
  lemma {:induction false} SelectConcat(a: seq<Event>, b: seq<Event>, c: Criterion)
    ensures Select(a + b, c) == Select(a, c) + Select(b, c)
    decreases |b|
  {
    if |b| == 0 {
      assert a + b == a;
    } else {
      var b' := b[..|b| - 1];
      SelectConcat(a, b', c);
      assert (a + b)[..|a + b| - 1] == a + b';
    }
  }

  /** Two criteria that agree on every event select the same elements. */
  lemma {:induction false} SelectAgree(s: seq<Event>, c: Criterion, d: Criterion)
    requires forall e :: Holds(c, e) == Holds(d, e)
    ensures Select(s, c) == Select(s, d)
  {
    if |s| > 0 {
      SelectAgree(s[..|s| - 1], c, d);
    }
  }

  // ================================================================ the filter chain of getEvents

  /** `if (filters?.x)`: present and not the empty string. */
  predicate Given(o: Option<string>) {
    o.Some? && o.value != ""
  }

  function SearchStep(f: EventFilters): Option<Criterion> {
    if Given(f.search) then Some(Search(f.search.value)) else None
  }

  function CategoryStep(f: EventFilters): Option<Criterion> {
    if Given(f.category) && f.category.value != "all" then Some(InCategory(f.category.value)) else None
  }

  function LocationStep(f: EventFilters): Option<Criterion> {
    if Given(f.location) then Some(Near(f.location.value)) else None
  }

  function StartStep(f: EventFilters): Option<Criterion> {
    if f.startDate.Some? then Some(NotBefore(f.startDate.value)) else None
  }

  function EndStep(f: EventFilters): Option<Criterion> {
    if f.endDate.Some? then Some(NotAfter(f.endDate.value)) else None
  }

  function PriceStep(f: EventFilters): Option<Criterion> {
    if f.priceRange == Some(FreeOnly) then Some(FreeEntry)
    else if f.priceRange == Some(PaidOnly) then Some(PaidEntry)
    else None
  }

  /** One `if (...) { events = events.filter(...) }` block: an inactive block leaves the list alone. */
  function Narrow(s: seq<Event>, step: Option<Criterion>): seq<Event> {
    if step.None? then s else Select(s, step.value)
  }

  /** The working list after the six filter blocks, in the order the module runs them. */
  function Restrict(s: seq<Event>, f: EventFilters): seq<Event> {
    var s1 := Narrow(s, SearchStep(f));
    var s2 := Narrow(s1, CategoryStep(f));
    var s3 := Narrow(s2, LocationStep(f));
    var s4 := Narrow(s3, StartStep(f));
    var s5 := Narrow(s4, EndStep(f));
    Narrow(s5, PriceStep(f))
  }

  /** Some filter block runs, so the working list is no longer the fixture itself. */
  predicate Narrows(f: EventFilters) {
    || SearchStep(f).Some? || CategoryStep(f).Some? || LocationStep(f).Some?
    || StartStep(f).Some? || EndStep(f).Some? || PriceStep(f).Some?
  }

  predicate Admits(step: Option<Criterion>, e: Event) {
    step.None? || Holds(step.value, e)
  }

  /** The reference reading of the filter chain: an event passes iff it satisfies every active filter. */
  predicate Matches(f: EventFilters, e: Event) {
    && Admits(SearchStep(f), e)
    && Admits(CategoryStep(f), e)
    && Admits(LocationStep(f), e)
    && Admits(StartStep(f), e)
    && Admits(EndStep(f), e)
    && Admits(PriceStep(f), e)
  }

  lemma NarrowMultiset(s: seq<Event>, step: Option<Criterion>)
    ensures forall e :: multiset(Narrow(s, step))[e] == if Admits(step, e) then multiset(s)[e] else 0
  {
    if step.Some? {
      SelectMultiset(s, step.value);
    }
  }

  lemma NarrowConcat(a: seq<Event>, b: seq<Event>, step: Option<Criterion>)
    ensures Narrow(a + b, step) == Narrow(a, step) + Narrow(b, step)
  {
    if step.Some? {
      SelectConcat(a, b, step.value);
    }
  }

  /** The chain keeps exactly the events that satisfy every active filter, each as often as it occurs. */
  lemma RestrictMultiset(s: seq<Event>, f: EventFilters)
    ensures forall e :: multiset(Restrict(s, f))[e] == if Matches(f, e) then multiset(s)[e] else 0
  {
    var s1 := Narrow(s, SearchStep(f));
    var s2 := Narrow(s1, CategoryStep(f));
    var s3 := Narrow(s2, LocationStep(f));
    var s4 := Narrow(s3, StartStep(f));
    var s5 := Narrow(s4, EndStep(f));
    NarrowMultiset(s, SearchStep(f));
    NarrowMultiset(s1, CategoryStep(f));
    NarrowMultiset(s2, LocationStep(f));
    NarrowMultiset(s3, StartStep(f));
    NarrowMultiset(s4, EndStep(f));
    NarrowMultiset(s5, PriceStep(f));
  }

  /** The chain is an order-preserving filter: it distributes over concatenation. */
  lemma RestrictKeepsOrder(a: seq<Event>, b: seq<Event>, f: EventFilters)
    ensures Restrict(a + b, f) == Restrict(a, f) + Restrict(b, f)
  {
    var a1, b1 := Narrow(a, SearchStep(f)), Narrow(b, SearchStep(f));
    var a2, b2 := Narrow(a1, CategoryStep(f)), Narrow(b1, CategoryStep(f));
    var a3, b3 := Narrow(a2, LocationStep(f)), Narrow(b2, LocationStep(f));
    var a4, b4 := Narrow(a3, StartStep(f)), Narrow(b3, StartStep(f));
    var a5, b5 := Narrow(a4, EndStep(f)), Narrow(b4, EndStep(f));
    NarrowConcat(a, b, SearchStep(f));
    NarrowConcat(a1, b1, CategoryStep(f));
    NarrowConcat(a2, b2, LocationStep(f));
    NarrowConcat(a3, b3, StartStep(f));
    NarrowConcat(a4, b4, EndStep(f));
    NarrowConcat(a5, b5, PriceStep(f));
  }

  lemma NarrowSingle(e: Event, step: Option<Criterion>)
    ensures Narrow([e], step) == if Admits(step, e) then [e] else []
    ensures Narrow([], step) == []
  {
    if step.Some? {
      assert [e][..0] == [];
      assert Select([e], step.value) == Select([], step.value) + (if Holds(step.value, e) then [e] else []);
    }
  }

  /** The chain keeps a single event exactly when the event passes every active filter; with
      `RestrictKeepsOrder` this fixes the result of any list, element by element. */
  lemma RestrictSingle(e: Event, f: EventFilters)
    ensures Restrict([e], f) == if Matches(f, e) then [e] else []
  {
    NarrowSingle(e, SearchStep(f));
    NarrowSingle(e, CategoryStep(f));
    NarrowSingle(e, LocationStep(f));
    NarrowSingle(e, StartStep(f));
    NarrowSingle(e, EndStep(f));
    NarrowSingle(e, PriceStep(f));
  }

  // ================================================================ the sort by date

  predicate SortedByDate(s: seq<Event>) {
    forall i, j :: 0 <= i < j < |s| ==> s[i].date <= s[j].date
  }

  /** One step of a stable insertion sort: `x` goes after every element dated no later than it. */
  function Insert(t: seq<Event>, x: Event): seq<Event> {
    if |t| == 0 then [x]
    else if t[|t| - 1].date <= x.date then t + [x]
    else Insert(t[..|t| - 1], x) + [t[|t| - 1]]
  }

  /** `events.sort((a, b) => date(a) - date(b))`: ascending by date, ties in input order
      (`Array.prototype.sort` is stable). */
  function SortByDate(s: seq<Event>): seq<Event> {
    if |s| == 0 then [] else Insert(SortByDate(s[..|s| - 1]), s[|s| - 1])
  }

  /** The events of `s` on date `d`, in order: used to state stability. */
  ghost function OnDate(s: seq<Event>, d: int): seq<Event> {
    if |s| == 0 then []
    else OnDate(s[..|s| - 1], d) + (if s[|s| - 1].date == d then [s[|s| - 1]] else [])
  }

  lemma {:induction false} InsertMultiset(t: seq<Event>, x: Event)
    ensures multiset(Insert(t, x)) == multiset(t) + multiset{x}
  {
    if |t| > 0 && t[|t| - 1].date > x.date {
      InsertMultiset(t[..|t| - 1], x);
      assert t == t[..|t| - 1] + [t[|t| - 1]];
    }
  }

  lemma {:induction false} InsertSorted(t: seq<Event>, x: Event)
    requires SortedByDate(t)
    ensures SortedByDate(Insert(t, x))
  {
    if |t| > 0 && t[|t| - 1].date > x.date {
      var t', last := t[..|t| - 1], t[|t| - 1];
      InsertSorted(t', x);
      InsertMultiset(t', x);
      var r := Insert(t', x);
      forall i | 0 <= i < |r| ensures r[i].date <= last.date {
        assert r[i] in multiset(r);
        assert r[i] in multiset(t') || r[i] == x;
      }
    }
  }

  lemma OnDateSnoc(s: seq<Event>, x: Event, d: int)
    ensures OnDate(s + [x], d) == OnDate(s, d) + (if x.date == d then [x] else [])
  {
    assert (s + [x])[..|s|] == s;
  }

  lemma {:induction false} InsertOnDate(t: seq<Event>, x: Event, d: int)
    ensures OnDate(Insert(t, x), d) == OnDate(t, d) + (if x.date == d then [x] else [])
  {
    if |t| == 0 {
      OnDateSnoc([], x, d);
      assert [] + [x] == [x];
    } else if t[|t| - 1].date <= x.date {
      OnDateSnoc(t, x, d);
    } else {
      var t', last := t[..|t| - 1], t[|t| - 1];
      InsertOnDate(t', x, d);
      OnDateSnoc(Insert(t', x), last, d);
      OnDateSnoc(t', last, d);
      assert t == t' + [last];
    }
  }

  /** The sort is a permutation of its input. */
  lemma {:induction false} SortByDatePermutation(s: seq<Event>)
    ensures multiset(SortByDate(s)) == multiset(s)
  {
    if |s| > 0 {
      SortByDatePermutation(s[..|s| - 1]);
      InsertMultiset(SortByDate(s[..|s| - 1]), s[|s| - 1]);
      assert s == s[..|s| - 1] + [s[|s| - 1]];
    }
  }

  /** The sort orders by non-decreasing date. */
  lemma {:induction false} SortByDateSorted(s: seq<Event>)
    ensures SortedByDate(SortByDate(s))
  {
    if |s| > 0 {
      SortByDateSorted(s[..|s| - 1]);
      InsertSorted(SortByDate(s[..|s| - 1]), s[|s| - 1]);
    }
  }

  /** The sort is stable: the events that share a date keep their relative input order. */
  lemma {:induction false} SortByDateStable(s: seq<Event>, d: int)
    ensures OnDate(SortByDate(s), d) == OnDate(s, d)
  {
    if |s| > 0 {
      SortByDateStable(s[..|s| - 1], d);
      InsertOnDate(SortByDate(s[..|s| - 1]), s[|s| - 1], d);
    }
  }

  // ================================================================ getEvents

  /** What `getEvents(filters)` returns for a fixture whose current contents are `s`. */
  function Query(s: seq<Event>, f: EventFilters): seq<Event> {
    SortByDate(Restrict(s, f))
  }

  /** `events = events.filter(...)`: a fresh array holding the kept elements. */
  method FilterArray(a: array<Event>, c: Criterion) returns (b: array<Event>)
    ensures fresh(b) && b[..] == Select(a[..], c)
  {
    var kept: seq<Event> := [];
    for i := 0 to a.Length
      invariant kept == Select(a[..i], c)
    {
      assert a[..i + 1][..i] == a[..i];
      if Holds(c, a[i]) {
        kept := kept + [a[i]];
      }
    }
    assert a[..a.Length] == a[..];
    b := new Event[|kept|](k requires 0 <= k < |kept| => kept[k]);
  }

  /** `Insert` puts `x` right after the last element dated no later than it. */
  lemma {:induction false} InsertIsSplice(t: seq<Event>, x: Event, j: int)
    requires 0 <= j <= |t|
    requires j == 0 || t[j - 1].date <= x.date
    requires forall k :: j <= k < |t| ==> t[k].date > x.date
    ensures Insert(t, x) == t[..j] + [x] + t[j..]
  {
    if j < |t| {
      var t' := t[..|t| - 1];
      InsertIsSplice(t', x, j);
      assert t'[..j] == t[..j];
      assert t[j..] == t'[j..] + [t[|t| - 1]];
    } else {
      assert t[..j] == t;
    }
  }

  /** One pass of the insertion sort: `a[i]` moves left into the sorted prefix `a[..i]`. */
  method InsertInPlace(a: array<Event>, i: int)
    requires 0 <= i < a.Length
    modifies a
    ensures a[..i + 1] == Insert(old(a[..i]), old(a[i]))
    ensures forall k :: i < k < a.Length ==> a[k] == old(a[k])
  {
    var x := a[i];
    ghost var t := a[..i];
    var j := i;
    while j > 0 && a[j - 1].date > x.date
      invariant 0 <= j <= i
      invariant forall k :: 0 <= k < j ==> a[k] == t[k]
      invariant forall k :: j < k <= i ==> a[k] == t[k - 1]
      invariant forall k :: i < k < a.Length ==> a[k] == old(a[k])
      invariant forall k :: j <= k < i ==> t[k].date > x.date
    {
      a[j] := a[j - 1];
      j := j - 1;
    }
    a[j] := x;
    InsertIsSplice(t, x, j);
    ghost var spliced := t[..j] + [x] + t[j..];
    assert forall k :: 0 <= k <= i ==> a[k] == spliced[k];
    assert a[..i + 1] == spliced;
  }

  /** `events.sort(...)` in place: an insertion sort, which is stable like `Array.prototype.sort`. */
  method SortInPlace(a: array<Event>)
    modifies a
    ensures a[..] == SortByDate(old(a[..]))
  {
    ghost var orig := a[..];
    for i := 0 to a.Length
      invariant a[..i] == SortByDate(orig[..i])
      invariant forall k :: i <= k < a.Length ==> a[k] == orig[k]
    {
      assert orig[..i + 1][..i] == orig[..i];
      InsertInPlace(a, i);
    }
    assert a[..] == a[..a.Length] && orig == orig[..a.Length];
  }

  /** One filter block: `if (active) { events = events.filter(...) }`. */
  method ApplyStep(events: array<Event>, step: Option<Criterion>) returns (r: array<Event>)
    ensures r[..] == Narrow(events[..], step)
    ensures step.None? ==> r == events
    ensures step.Some? ==> fresh(r)
  {
    r := events;
    if step.Some? {
      r := FilterArray(events, step.value);
    }
  }

  /** `getEvents(filters)` over the module's fixture array. Each active filter allocates a new
      array; when none is active the working array is the fixture itself, and the sort reorders it. */
  method GetEvents(fixture: array<Event>, filters: EventFilters) returns (events: array<Event>)
    modifies fixture
    ensures events[..] == Query(old(fixture[..]), filters)
    ensures !Narrows(filters) ==> events == fixture
    ensures Narrows(filters) ==> fresh(events) && fixture[..] == old(fixture[..])
  {
    events := fixture;
    events := ApplyStep(events, SearchStep(filters));
    events := ApplyStep(events, CategoryStep(filters));
    events := ApplyStep(events, LocationStep(filters));
    events := ApplyStep(events, StartStep(filters));
    events := ApplyStep(events, EndStep(filters));
    events := ApplyStep(events, PriceStep(filters));
    SortInPlace(events);
  }

  // ================================================================ properties of getEvents

  /** A result holds exactly the fixture events that pass every active filter, each as often as in
      the fixture: nothing foreign, nothing that fails a filter. */
  lemma QueryMembers(s: seq<Event>, f: EventFilters)
    ensures forall e :: multiset(Query(s, f))[e] == if Matches(f, e) then multiset(s)[e] else 0
    ensures forall e :: e in Query(s, f) <==> e in s && Matches(f, e)
  {
    RestrictMultiset(s, f);
    SortByDatePermutation(Restrict(s, f));
    forall e ensures e in Query(s, f) <==> e in s && Matches(f, e) {
      assert e in Query(s, f) <==> multiset(Query(s, f))[e] > 0;
      assert e in s <==> multiset(s)[e] > 0;
    }
  }

  /** Every result is in non-decreasing date order. */
  lemma QuerySorted(s: seq<Event>, f: EventFilters)
    ensures SortedByDate(Query(s, f))
  {
    SortByDateSorted(Restrict(s, f));
  }

  /** Events of the same date appear in the order the filter chain left them, which is fixture order. */
  lemma QueryTiesKeepFixtureOrder(s: seq<Event>, f: EventFilters, d: int)
    ensures OnDate(Query(s, f), d) == OnDate(Restrict(s, f), d)
  {
    SortByDateStable(Restrict(s, f), d);
  }

  /** Without filters, or with only empty and `'all'` values, the result is the whole fixture,
      sorted: a permutation of it. */
  lemma QueryUnfiltered(s: seq<Event>, f: EventFilters)
    requires f.search.None? || f.search == Some("")
    requires f.category.None? || f.category == Some("") || f.category == Some("all")
    requires f.location.None? || f.location == Some("")
    requires f.startDate.None? && f.endDate.None?
    requires f.priceRange.None? || f.priceRange == Some(AllPrices)
    ensures !Narrows(f)
    ensures Query(s, f) == SortByDate(s)
    ensures multiset(Query(s, f)) == multiset(s)
  {
    assert SearchStep(f).None? && CategoryStep(f).None? && LocationStep(f).None?;
    assert StartStep(f).None? && EndStep(f).None? && PriceStep(f).None?;
    assert Restrict(s, f) == s;
    SortByDatePermutation(s);
  }

  /** Search ignores case: two terms that lower-case alike give identical results. */
  lemma QuerySearchIgnoresCase(s: seq<Event>, f: EventFilters, a: string, b: string)
    requires Lower(a) == Lower(b)
    ensures Query(s, f.(search := Some(a))) == Query(s, f.(search := Some(b)))
  {
    var fa, fb := f.(search := Some(a)), f.(search := Some(b));
    assert |a| == |Lower(a)| == |Lower(b)| == |b|;
    if a != "" {
      SelectAgree(s, Search(a), Search(b));
    }
    assert Narrow(s, SearchStep(fa)) == Narrow(s, SearchStep(fb));
  }

  /** A term gives the same result as its lower-cased form: the engine compares lower-cased
      texts only, and lower-casing the term again changes nothing. */
  lemma QuerySearchLowered(s: seq<Event>, f: EventFilters, a: string)
    ensures Query(s, f.(search := Some(a))) == Query(s, f.(search := Some(Lower(a))))
  {
    LowerIdempotent(a);
    QuerySearchIgnoresCase(s, f, a, Lower(a));
  }

  lemma QuerySearchTechExample(s: seq<Event>, f: EventFilters)
    ensures Query(s, f.(search := Some("TECH"))) == Query(s, f.(search := Some("tech")))
  {
    assert Lower("TECH") == "tech" by {
      assert Lower("TECH") == [LowerChar('T'), LowerChar('E'), LowerChar('C'), LowerChar('H')];
    }
    assert Lower("tech") == "tech";
    QuerySearchIgnoresCase(s, f, "TECH", "tech");
  }

  /** The category filter is exact, case-sensitive equality. */
  lemma QueryCategoryExact(s: seq<Event>, f: EventFilters)
    requires Given(f.category) && f.category.value != "all"
    ensures forall e :: e in Query(s, f) ==> e.category == f.category.value
  {
    RestrictMultiset(s, f);
    SortByDatePermutation(Restrict(s, f));
    forall e | e in Query(s, f) ensures e.category == f.category.value {
      assert multiset(Query(s, f))[e] > 0;
      assert Admits(CategoryStep(f), e);
    }
  }

  /** Two filter sets whose six blocks agree give the same result. */
  lemma SameSteps(s: seq<Event>, f: EventFilters, g: EventFilters)
    requires SearchStep(f) == SearchStep(g) && CategoryStep(f) == CategoryStep(g)
    requires LocationStep(f) == LocationStep(g) && StartStep(f) == StartStep(g)
    requires EndStep(f) == EndStep(g) && PriceStep(f) == PriceStep(g)
    ensures Query(s, f) == Query(s, g)
  {
  }

  /** `'all'` and an empty category are no filter at all. */
  lemma QueryCategorySentinels(s: seq<Event>, f: EventFilters)
    ensures Query(s, f.(category := Some("all"))) == Query(s, f.(category := None))
    ensures Query(s, f.(category := Some(""))) == Query(s, f.(category := None))
  {
    SameSteps(s, f.(category := Some("all")), f.(category := None));
    SameSteps(s, f.(category := Some("")), f.(category := None));
  }

  /** Date bounds are inclusive at both ends: every kept event lies within the supplied bounds. */
  lemma QueryDateBounds(s: seq<Event>, f: EventFilters)
    ensures forall e :: e in Query(s, f) ==>
      (f.startDate.Some? ==> f.startDate.value <= e.date) && (f.endDate.Some? ==> e.date <= f.endDate.value)
  {
    QueryMembers(s, f);
    forall e | e in Query(s, f)
      ensures (f.startDate.Some? ==> f.startDate.value <= e.date) && (f.endDate.Some? ==> e.date <= f.endDate.value)
    {
      assert Admits(StartStep(f), e) && Admits(EndStep(f), e);
    }
  }

  /** The filter chain with the price block set to `range`. */
  function WithPrice(f: EventFilters, range: Option<PriceRange>): EventFilters {
    f.(priceRange := range)
  }

  /** The price block is the last one: it selects from what the other five blocks kept. */
  lemma PriceBlockIsLast(s: seq<Event>, f: EventFilters)
    ensures Restrict(s, WithPrice(f, Some(FreeOnly))) == Select(Restrict(s, WithPrice(f, None)), FreeEntry)
    ensures Restrict(s, WithPrice(f, Some(PaidOnly))) == Select(Restrict(s, WithPrice(f, None)), PaidEntry)
    ensures Restrict(s, WithPrice(f, Some(AllPrices))) == Restrict(s, WithPrice(f, None))
  {
  }

  /** Free and paid entry split any list into two parts. */
  lemma FreePaidSplit(t: seq<Event>)
    ensures multiset(Select(t, FreeEntry)) + multiset(Select(t, PaidEntry)) == multiset(t)
  {
    SelectMultiset(t, FreeEntry);
    SelectMultiset(t, PaidEntry);
    assert forall e :: (multiset(Select(t, FreeEntry)) + multiset(Select(t, PaidEntry)))[e] == multiset(t)[e];
  }

  /** Sorting the two price parts keeps them a split of the sorted whole. */
  lemma SortedFreePaidSplit(t: seq<Event>)
    ensures multiset(SortByDate(Select(t, FreeEntry))) + multiset(SortByDate(Select(t, PaidEntry)))
         == multiset(SortByDate(t))
    ensures forall e :: e in SortByDate(Select(t, FreeEntry)) ==> e.price == Free
    ensures forall e :: e in SortByDate(Select(t, PaidEntry)) ==> e.price != Free
  {
    var free, paid := Select(t, FreeEntry), Select(t, PaidEntry);
    FreePaidSplit(t);
    SortByDatePermutation(free);
    SortByDatePermutation(paid);
    SortByDatePermutation(t);
    SelectMultiset(t, FreeEntry);
    SelectMultiset(t, PaidEntry);
    forall e | e in SortByDate(free) ensures e.price == Free {
      assert multiset(free)[e] > 0;
    }
    forall e | e in SortByDate(paid) ensures e.price != Free {
      assert multiset(paid)[e] > 0;
    }
  }

  /** `'free'` and `'paid'` split the `'all'` result into two parts: free keeps exactly the
      free events, paid exactly the others; `'all'` is no filter. */
  lemma QueryPricePartition(s: seq<Event>, f: EventFilters)
    ensures multiset(Query(s, WithPrice(f, Some(FreeOnly)))) + multiset(Query(s, WithPrice(f, Some(PaidOnly))))
         == multiset(Query(s, WithPrice(f, Some(AllPrices))))
    ensures forall e :: e in Query(s, WithPrice(f, Some(FreeOnly))) ==> e.price == Free
    ensures forall e :: e in Query(s, WithPrice(f, Some(PaidOnly))) ==> e.price != Free
    ensures Query(s, WithPrice(f, Some(AllPrices))) == Query(s, WithPrice(f, None))
  {
    PriceBlockIsLast(s, f);
    SortedFreePaidSplit(Restrict(s, WithPrice(f, None)));
  }

  /** Applied to the same fixture, the free and the paid results have no event in common. */
  lemma QueryFreePaidDisjoint(s: seq<Event>, f: EventFilters)
    ensures forall e :: !(e in Query(s, WithPrice(f, Some(FreeOnly))) && e in Query(s, WithPrice(f, Some(PaidOnly))))
  {
    QueryPricePartition(s, f);
  }

  // ================================================================ lookups

  /** `getEventBySlug(slug)`: the first event whose slug equals the input, or null. */
  function GetEventBySlug(s: seq<Event>, slug: string): (r: Option<Event>)
    ensures r.None? <==> forall i :: 0 <= i < |s| ==> s[i].slug != slug
    ensures r.Some? ==> exists k :: (0 <= k < |s| && s[k] == r.value && s[k].slug == slug
                                     && forall j :: 0 <= j < k ==> s[j].slug != slug)
  {
    if |s| == 0 then None
    else if s[0].slug == slug then Some(s[0])
    else
      var r := GetEventBySlug(s[1..], slug);
      assert forall i :: 1 <= i < |s| ==> s[i] == s[1..][i - 1];
      if r.Some? then
        var k :| 0 <= k < |s[1..]| && s[1..][k] == r.value && s[1..][k].slug == slug
          && forall j :: 0 <= j < k ==> s[1..][j].slug != slug;
        assert s[k + 1] == r.value && forall j :: 0 <= j < k + 1 ==> s[j].slug != slug;
        r
      else r
  }

  /** `getFeaturedEvents()`. */
  function GetFeaturedEvents(s: seq<Event>): seq<Event> {
    Select(s, Featured)
  }

  /** Exactly the featured events, each as often as in the fixture, in fixture order. */
  lemma FeaturedEventsExactly(s: seq<Event>, t: seq<Event>)
    ensures forall e :: multiset(GetFeaturedEvents(s))[e] == if e.featured then multiset(s)[e] else 0
    ensures GetFeaturedEvents(s + t) == GetFeaturedEvents(s) + GetFeaturedEvents(t)
  {
    SelectMultiset(s, Featured);
    SelectConcat(s, t, Featured);
  }

  // ---------------------------------------------------------------- distinct sorted listings

  /** `[...new Set(xs)]`: the first occurrence of each value, in order. */
  function Distinct(xs: seq<string>): seq<string> {
    if |xs| == 0 then []
    else
      var d := Distinct(xs[..|xs| - 1]);
      if xs[|xs| - 1] in d then d else d + [xs[|xs| - 1]]
  }

  /** One insertion step of `.sort()` on strings. */
  function InsertLex(t: seq<string>, x: string): seq<string> {
    if |t| == 0 then [x]
    else if !LexLess(t[0], x) then [x] + t
    else [t[0]] + InsertLex(t[1..], x)
  }

  /** `.sort()` with the default string order. */
  function SortStrings(xs: seq<string>): seq<string> {
    if |xs| == 0 then [] else InsertLex(SortStrings(xs[..|xs| - 1]), xs[|xs| - 1])
  }

  predicate StrictlyIncreasing(s: seq<string>) {
    forall i, j :: 0 <= i < j < |s| ==> LexLess(s[i], s[j])
  }

  predicate NoDuplicates(s: seq<string>) {
    forall i, j :: 0 <= i < j < |s| ==> s[i] != s[j]
  }

  lemma {:induction false} DistinctProperties(xs: seq<string>)
    ensures NoDuplicates(Distinct(xs))
    ensures forall x :: x in Distinct(xs) <==> x in xs
  {
    if |xs| > 0 {
      DistinctProperties(xs[..|xs| - 1]);
      assert xs == xs[..|xs| - 1] + [xs[|xs| - 1]];
    }
  }

  lemma {:induction false} InsertLexProperties(t: seq<string>, x: string)
    requires StrictlyIncreasing(t) && x !in t
    ensures StrictlyIncreasing(InsertLex(t, x))
    ensures forall y :: y in InsertLex(t, x) <==> y in t || y == x
  {
    if |t| == 0 {
    } else if !LexLess(t[0], x) {
      LexLessTotal(t[0], x);
      forall j | 0 <= j < |t| ensures LexLess(x, t[j]) {
        if j > 0 {
          LexLessTransitive(x, t[0], t[j]);
        }
      }
    } else {
      InsertLexProperties(t[1..], x);
      assert t == [t[0]] + t[1..];
      var r := InsertLex(t[1..], x);
      forall j | 0 <= j < |r| ensures LexLess(t[0], r[j]) {
        assert r[j] in r;
      }
    }
  }

  lemma {:induction false} SortStringsProperties(xs: seq<string>)
    requires NoDuplicates(xs)
    ensures StrictlyIncreasing(SortStrings(xs))
    ensures forall x :: x in SortStrings(xs) <==> x in xs
  {
    if |xs| > 0 {
      var p, last := xs[..|xs| - 1], xs[|xs| - 1];
      SortStringsProperties(p);
      assert last !in p;
      InsertLexProperties(SortStrings(p), last);
      assert xs == p + [last];
    }
  }

  /** `[...new Set(xs)].sort()`. */
  function SortedUnique(xs: seq<string>): seq<string> {
    SortStrings(Distinct(xs))
  }

  /** A strictly increasing list repeats nothing, since no string precedes itself. */
  lemma IncreasingHasNoDuplicates(s: seq<string>)
    requires StrictlyIncreasing(s)
    ensures NoDuplicates(s)
  {
    forall i, j | 0 <= i < j < |s| ensures s[i] != s[j] {
      LexLessIrreflexive(s[i]);
    }
  }

  lemma SortedUniqueProperties(xs: seq<string>)
    ensures StrictlyIncreasing(SortedUnique(xs))
    ensures NoDuplicates(SortedUnique(xs))
    ensures forall x :: x in SortedUnique(xs) <==> x in xs
  {
    DistinctProperties(xs);
    SortStringsProperties(Distinct(xs));
    IncreasingHasNoDuplicates(SortedUnique(xs));
  }

  /** `getCategories()`. */
  function GetCategories(s: seq<Event>): seq<string> {
    SortedUnique(seq(|s|, i requires 0 <= i < |s| => s[i].category))
  }

  /** `getLocations()`: the cities. */
  function GetLocations(s: seq<Event>): seq<string> {
    SortedUnique(seq(|s|, i requires 0 <= i < |s| => s[i].location.city))
  }

  /** The categories come sorted, without repetition, and are exactly those of the fixture. */
  lemma CategoriesSortedUnique(s: seq<Event>)
    ensures StrictlyIncreasing(GetCategories(s)) && NoDuplicates(GetCategories(s))
    ensures forall c :: c in GetCategories(s) <==> exists i :: 0 <= i < |s| && s[i].category == c
  {
    var xs := seq(|s|, i requires 0 <= i < |s| => s[i].category);
    SortedUniqueProperties(xs);
    forall c ensures c in xs <==> exists i :: 0 <= i < |s| && s[i].category == c {
      if c in xs {
        var i :| 0 <= i < |xs| && xs[i] == c;
        assert s[i].category == c;
      }
      if i :| 0 <= i < |s| && s[i].category == c {
        assert xs[i] == c;
      }
    }
  }

  /** The cities come sorted, without repetition, and are exactly those of the fixture. */
  lemma LocationsSortedUnique(s: seq<Event>)
    ensures StrictlyIncreasing(GetLocations(s)) && NoDuplicates(GetLocations(s))
    ensures forall c :: c in GetLocations(s) <==> exists i :: 0 <= i < |s| && s[i].location.city == c
  {
    var xs := seq(|s|, i requires 0 <= i < |s| => s[i].location.city);
    SortedUniqueProperties(xs);
    forall c ensures c in xs <==> exists i :: 0 <= i < |s| && s[i].location.city == c {
      if c in xs {
        var i :| 0 <= i < |xs| && xs[i] == c;
        assert s[i].location.city == c;
      }
      if i :| 0 <= i < |s| && s[i].location.city == c {
        assert xs[i] == c;
      }
    }
  }
}

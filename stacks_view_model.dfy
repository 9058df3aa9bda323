/**
 * `StacksView.ViewModel`: the list of stacks the Stacks screen displays, the
 * loading state it shows, and when its empty-list placeholder appears.
 *
 * The store contents, the two preferences, the selected endpoint and the
 * search query are explicit inputs. The locale-aware text operations
 * (`localizedCaseInsensitiveContains`, `localizedCaseInsensitiveCompare`,
 * `isReallyEmpty`) and the text of a `StackItem`'s identifier are supplied by
 * the caller in a `Text` value. A task is reduced to its `isCancelled` flag.
 */
module StacksViewModel {
  import opened Wrappers

  // ---------------------------------------------------------------------------
  // Inputs

  /** A stack the store has fetched. `endpointID` is the endpoint it was deployed to, when known. */
  datatype Stack = Stack(id: int, name: string, endpointID: Option<int>)

  /** A container, as far as this screen looks at it: the stack it claims to belong to. */
  datatype Container = Container(stack: Option<string>)

  /** An entry of the list: a real stack, or a "limited" stack known only by the name containers refer to. */
  datatype StackItem = Real(stack: Stack) | Limited(stackName: string)

  function Name(item: StackItem): string {
    match item
    case Real(s) => s.name
    case Limited(stackName) => stackName
  }

  /** `item.stack?.endpointID`: a limited item has no stack and so no endpoint. */
  function EndpointOf(item: StackItem): Option<int> {
    match item
    case Real(s) => s.endpointID
    case Limited(_) => None
  }

  /** The state of the store and the preferences the list is computed from. */
  datatype Inputs = Inputs(
    stacks: seq<Stack>,
    containers: seq<Container>,
    selectedEndpointID: Option<int>,
    includeLimitedStacks: bool,
    filterByActiveEndpoint: bool,
    query: string)

  /**
   * The text operations the list depends on: `contains(haystack, needle)` is
   * `localizedCaseInsensitiveContains`, `ascending(a, b)` is
   * `localizedCaseInsensitiveCompare(a, b) == .orderedAscending`,
   * `isReallyEmpty` is the query's blankness test, and `idDescription` is
   * `item.id.description`.
   */
  datatype Text = Text(
    contains: (string, string) -> bool,
    ascending: (string, string) -> bool,
    isReallyEmpty: string -> bool,
    idDescription: StackItem -> string)

  // ---------------------------------------------------------------------------
  // Sequence helpers

  predicate Distinct<T(==)>(xs: seq<T>) {
    forall i, j :: 0 <= i < j < |xs| ==> xs[i] != xs[j]
  }

  /** Mapping an injective function over a list carries each element's count over to its image. */
  lemma {:induction false} CountOfImage<A, B>(xs: seq<A>, ys: seq<B>, f: A -> B, x: A)
    requires |ys| == |xs| && forall i :: 0 <= i < |xs| ==> ys[i] == f(xs[i])
    requires forall a, b :: f(a) == f(b) ==> a == b
    ensures multiset(ys)[f(x)] == multiset(xs)[x]
  {
    if xs != [] {
      assert xs == [xs[0]] + xs[1..];
      assert ys == [ys[0]] + ys[1..];
      CountOfImage(xs[1..], ys[1..], f, x);
    }
  }

  /** `filter`: keeps the elements `keep` accepts, each as often as it occurs. */
  function Filter<T(==,!new)>(xs: seq<T>, keep: T -> bool): (r: seq<T>)
    ensures |r| <= |xs|
    ensures forall x :: multiset(r)[x] == if keep(x) then multiset(xs)[x] else 0
    ensures forall i :: 0 <= i < |r| ==> keep(r[i])
    ensures forall x :: x in r <==> x in xs && keep(x)
  {
    if xs == [] then []
    else
      assert xs == [xs[0]] + xs[1..];
      (if keep(xs[0]) then [xs[0]] else []) + Filter(xs[1..], keep)
  }

  /** `Set(xs)` listed once per element; the order a Swift `Set` enumerates in is unspecified. */
  function Dedup<T(==,!new)>(xs: seq<T>): (r: seq<T>)
    ensures |r| <= |xs|
    ensures Distinct(r)
    ensures forall x :: x in r <==> x in xs
  {
    if xs == [] then []
    else
      var rest := Dedup(xs[1..]);
      if xs[0] in rest then rest else [xs[0]] + rest
  }

  /** In a sequence without repetitions every element occurs exactly once. */
  lemma {:induction false} DistinctCount<T>(xs: seq<T>, x: T)
    requires Distinct(xs)
    ensures multiset(xs)[x] == if x in xs then 1 else 0
  {
    if xs != [] {
      assert xs == [xs[0]] + xs[1..];
      assert Distinct(xs[1..]) by {
        forall i, j | 0 <= i < j < |xs[1..]| ensures xs[1..][i] != xs[1..][j] {
          assert xs[1..][i] == xs[i + 1] && xs[1..][j] == xs[j + 1];
        }
      }
      DistinctCount(xs[1..], x);
      assert xs[0] !in xs[1..] by {
        forall k | 0 <= k < |xs[1..]| ensures xs[1..][k] != xs[0] {
          assert xs[1..][k] == xs[k + 1];
        }
      }
    }
  }

  // ---------------------------------------------------------------------------
  // The display pipeline

  /** `portainerStore.stacks.map(StackItem.init)`. */
  function RealItems(stacks: seq<Stack>): (r: seq<StackItem>)
    ensures |r| == |stacks| && forall i :: 0 <= i < |r| ==> r[i] == Real(stacks[i])
    ensures forall s :: multiset(r)[Real(s)] == multiset(stacks)[s]
    ensures forall n :: multiset(r)[Limited(n)] == 0
  {
    var r := seq(|stacks|, i requires 0 <= i < |stacks| => Real(stacks[i]));
    assert forall s :: multiset(r)[Real(s)] == multiset(stacks)[s] by {
      forall s ensures multiset(r)[Real(s)] == multiset(stacks)[s] {
        CountOfImage(stacks, r, (t: Stack) => Real(t), s);
      }
    }
    r
  }

  /** `containers.compactMap(\.stack)`: the stack names containers refer to, one per such container. */
  function ContainerStackNames(containers: seq<Container>): (r: seq<string>)
    ensures |r| <= |containers|
    ensures forall n :: n in r <==> Container(Some(n)) in containers
  {
    if containers == [] then []
    else
      assert containers == [containers[0]] + containers[1..];
      match containers[0].stack
      case None => ContainerStackNames(containers[1..])
      case Some(n) => [n] + ContainerStackNames(containers[1..])
  }

  /** `Set(items.map(\.name))`. */
  function Names(items: seq<StackItem>): set<string> {
    set item | item in items :: Name(item)
  }

  /** The names of the limited stacks to add: referred to by a container, not a real stack's name, each once. */
  function LimitedStackNames(realNames: set<string>, containers: seq<Container>): (r: seq<string>)
    ensures Distinct(r)
    ensures forall n :: n in r <==> Container(Some(n)) in containers && n !in realNames
  {
    Dedup(Filter(ContainerStackNames(containers), (n: string) => n !in realNames))
  }

  /** `names.map { StackItem(label: $0) }`. */
  function LimitedItems(names: seq<string>): (r: seq<StackItem>)
    ensures |r| == |names| && forall i :: 0 <= i < |r| ==> r[i] == Limited(names[i])
    ensures forall n :: multiset(r)[Limited(n)] == multiset(names)[n]
    ensures forall s :: multiset(r)[Real(s)] == 0
  {
    var r := seq(|names|, i requires 0 <= i < |names| => Limited(names[i]));
    assert forall n :: multiset(r)[Limited(n)] == multiset(names)[n] by {
      forall n ensures multiset(r)[Limited(n)] == multiset(names)[n] {
        CountOfImage(names, r, (t: string) => Limited(t), n);
      }
    }
    r
  }

  /** The `svIncludeLimitedStacks` step: appends one limited item per container stack name no real stack has. */
  function WithLimited(items: seq<StackItem>, containers: seq<Container>, includeLimited: bool): (r: seq<StackItem>)
    ensures |items| <= |r| && r[..|items|] == items
    ensures !includeLimited ==> |r| == |items|
    ensures forall i :: |items| <= i < |r| ==>
      r[i].Limited? && Container(Some(r[i].stackName)) in containers && r[i].stackName !in Names(items)
    ensures Distinct(r[|items|..])
  {
    if includeLimited then items + LimitedItems(LimitedStackNames(Names(items), containers)) else items
  }

  /** An item stays on the active endpoint's list when it has no endpoint of its own or has the selected one. */
  predicate OnEndpoint(item: StackItem, selected: int)
    ensures item.Limited? ==> OnEndpoint(item, selected)
  {
    EndpointOf(item).None? || EndpointOf(item) == Some(selected)
  }

  /** The `svFilterByActiveEndpoint` step; it applies only when an endpoint is selected. */
  function FilterByEndpoint(items: seq<StackItem>, enabled: bool, selected: Option<int>): (r: seq<StackItem>)
    ensures !(enabled && selected.Some?) ==> r == items
    ensures enabled && selected.Some? ==> forall i :: 0 <= i < |r| ==> OnEndpoint(r[i], selected.value)
    ensures forall item :: multiset(r)[item] == if enabled && selected.Some? && !OnEndpoint(item, selected.value) then 0 else multiset(items)[item]
  {
    if enabled && selected.Some? then Filter(items, (item: StackItem) => OnEndpoint(item, selected.value))
    else items
  }

  /** The search predicate: the query occurs in the item's name or in the text of its identifier. */
  predicate MatchesQuery(item: StackItem, query: string, text: Text) {
    text.contains(Name(item), query) || text.contains(text.idDescription(item), query)
  }

  /** The search step; a blank query removes nothing. */
  function FilterByQuery(items: seq<StackItem>, query: string, text: Text): (r: seq<StackItem>)
    ensures text.isReallyEmpty(query) ==> r == items
    ensures !text.isReallyEmpty(query) ==> forall i :: 0 <= i < |r| ==> MatchesQuery(r[i], query, text)
    ensures forall item :: multiset(r)[item] == if !text.isReallyEmpty(query) && !MatchesQuery(item, query, text) then 0 else multiset(items)[item]
  {
    if !text.isReallyEmpty(query) then Filter(items, (item: StackItem) => MatchesQuery(item, query, text))
    else items
  }

  /** Inserts `x` in front of the first element it does not come after. */
  function Insert(x: StackItem, s: seq<StackItem>, ascending: (string, string) -> bool): (r: seq<StackItem>)
    ensures multiset(r) == multiset(s) + multiset{x}
  {
    if s == [] then [x]
    else if !ascending(Name(s[0]), Name(x)) then [x] + s
    else
      assert s == [s[0]] + s[1..];
      [s[0]] + Insert(x, s[1..], ascending)
  }

  /** `sorted { ascending($0.name, $1.name) }`, by insertion. */
  function SortByName(xs: seq<StackItem>, ascending: (string, string) -> bool): (r: seq<StackItem>)
    ensures multiset(r) == multiset(xs)
  {
    if xs == [] then []
    else
      assert xs == [xs[0]] + xs[1..];
      Insert(xs[0], SortByName(xs[1..], ascending), ascending)
  }

  /** The computed property `stacks`: the list the screen displays. */
  function Displayed(inputs: Inputs, text: Text): (r: seq<StackItem>)
    ensures |r| <= |inputs.stacks| + |inputs.containers|
  {
    var realItems := RealItems(inputs.stacks);
    var all := WithLimited(realItems, inputs.containers, inputs.includeLimitedStacks);
    var onEndpoint := FilterByEndpoint(all, inputs.filterByActiveEndpoint, inputs.selectedEndpointID);
    var matching := FilterByQuery(onEndpoint, inputs.query, text);
    assert |LimitedStackNames(Names(realItems), inputs.containers)| <= |inputs.containers| by {
      var names := ContainerStackNames(inputs.containers);
      assert |Filter(names, (n: string) => n !in Names(realItems))| <= |names|;
    }
    assert |all| <= |inputs.stacks| + |inputs.containers|;
    SortByName(matching, text.ascending)
  }

  // ---------------------------------------------------------------------------
  // What the displayed list contains

  /** Some real stack is called `n`. */
  predicate NamesAStack(stacks: seq<Stack>, n: string) {
    exists s :: s in stacks && s.name == n
  }

  /** The names the real items carry are the names of the stacks. */
  lemma NamesOfRealItems(stacks: seq<Stack>, n: string)
    ensures n in Names(RealItems(stacks)) <==> NamesAStack(stacks, n)
  {
    var items := RealItems(stacks);
    if n in Names(items) {
      var item :| item in items && Name(item) == n;
      var i :| 0 <= i < |items| && items[i] == item;
      assert stacks[i] in stacks && stacks[i].name == n;
    }
    if NamesAStack(stacks, n) {
      var s :| s in stacks && s.name == n;
      var i :| 0 <= i < |stacks| && stacks[i] == s;
      assert items[i] in items && Name(items[i]) == n;
    }
  }

  /** How many copies of `item` the list holds before filtering. */
  function Supplied(inputs: Inputs, item: StackItem): nat {
    match item
    case Real(s) => multiset(inputs.stacks)[s]
    case Limited(n) =>
      if inputs.includeLimitedStacks && Container(Some(n)) in inputs.containers && !NamesAStack(inputs.stacks, n) then 1 else 0
  }

  /** `item` survives both filters. */
  predicate Selected(inputs: Inputs, text: Text, item: StackItem) {
    && (inputs.filterByActiveEndpoint && inputs.selectedEndpointID.Some? ==> OnEndpoint(item, inputs.selectedEndpointID.value))
    && (!text.isReallyEmpty(inputs.query) ==> MatchesQuery(item, inputs.query, text))
  }

  /** The limited items added to `items`: exactly one per qualifying name, none otherwise. */
  lemma WithLimitedCount(items: seq<StackItem>, containers: seq<Container>, includeLimited: bool, n: string)
    ensures multiset(WithLimited(items, containers, includeLimited))[Limited(n)]
         == multiset(items)[Limited(n)] + (if includeLimited && Container(Some(n)) in containers && n !in Names(items) then 1 else 0)
  {
    if includeLimited {
      var names := LimitedStackNames(Names(items), containers);
      DistinctCount(names, n);
    }
  }

  /**
   * The reference description of the display list: each item occurs in it as
   * often as the store supplies it if it passes the active filters, and not at
   * all otherwise.
   */
  lemma DisplayedCount(inputs: Inputs, text: Text, item: StackItem)
    ensures multiset(Displayed(inputs, text))[item] == if Selected(inputs, text, item) then Supplied(inputs, item) else 0
  {
    var realItems := RealItems(inputs.stacks);
    var all := WithLimited(realItems, inputs.containers, inputs.includeLimitedStacks);
    var onEndpoint := FilterByEndpoint(all, inputs.filterByActiveEndpoint, inputs.selectedEndpointID);
    var matching := FilterByQuery(onEndpoint, inputs.query, text);
    assert multiset(all)[item] == Supplied(inputs, item) by {
      match item
      case Real(s) =>
        if inputs.includeLimitedStacks {
          var limited := LimitedItems(LimitedStackNames(Names(realItems), inputs.containers));
          assert multiset(all) == multiset(realItems) + multiset(limited);
        }
      case Limited(n) =>
        WithLimitedCount(realItems, inputs.containers, inputs.includeLimitedStacks, n);
        NamesOfRealItems(inputs.stacks, n);
    }
    assert multiset(Displayed(inputs, text)) == multiset(matching);
  }

  /** Both filters only remove: the list is part of the real items and the limited items together. */
  lemma DisplayedIsSubMultiset(inputs: Inputs, text: Text)
    ensures multiset(Displayed(inputs, text)) <= multiset(WithLimited(RealItems(inputs.stacks), inputs.containers, inputs.includeLimitedStacks))
  {
    var all := WithLimited(RealItems(inputs.stacks), inputs.containers, inputs.includeLimitedStacks);
    forall item ensures multiset(Displayed(inputs, text))[item] <= multiset(all)[item] {
      DisplayedCount(inputs, text, item);
      match item
      case Real(s) =>
      case Limited(n) =>
        WithLimitedCount(RealItems(inputs.stacks), inputs.containers, inputs.includeLimitedStacks, item.stackName);
    }
  }

  /** With limited stacks switched off, every displayed item is a real stack. */
  lemma NoLimitedItemsWhenOff(inputs: Inputs, text: Text)
    requires !inputs.includeLimitedStacks
    ensures forall i :: 0 <= i < |Displayed(inputs, text)| ==> Displayed(inputs, text)[i].Real?
  {
    var r := Displayed(inputs, text);
    forall i | 0 <= i < |r| ensures r[i].Real? {
      DisplayedCount(inputs, text, r[i]);
      assert r[i] in multiset(r);
    }
  }

  /**
   * With limited stacks switched on, a container stack name that no real stack
   * has becomes exactly one limited item, and a real stack's name never does.
   */
  lemma LimitedItemsAreUniqueAndFresh(inputs: Inputs, n: string)
    requires inputs.includeLimitedStacks
    ensures var all := WithLimited(RealItems(inputs.stacks), inputs.containers, true);
      multiset(all)[Limited(n)] == if Container(Some(n)) in inputs.containers && !NamesAStack(inputs.stacks, n) then 1 else 0
    ensures NamesAStack(inputs.stacks, n) ==> Limited(n) !in WithLimited(RealItems(inputs.stacks), inputs.containers, true)
  {
    WithLimitedCount(RealItems(inputs.stacks), inputs.containers, true, n);
    NamesOfRealItems(inputs.stacks, n);
  }

  /** The endpoint filter never drops a limited item: it has no endpoint of its own. */
  lemma EndpointFilterKeepsLimited(items: seq<StackItem>, selected: int, stackName: string)
    ensures multiset(FilterByEndpoint(items, true, Some(selected)))[Limited(stackName)] == multiset(items)[Limited(stackName)]
  {
  }

  /** The endpoint filter keeps a real stack exactly when its endpoint is unknown or the selected one. */
  lemma EndpointFilterKeepsReal(items: seq<StackItem>, selected: int, s: Stack)
    ensures Real(s) in FilterByEndpoint(items, true, Some(selected)) <==> Real(s) in items && (s.endpointID.None? || s.endpointID == Some(selected))
  {
    var r := FilterByEndpoint(items, true, Some(selected));
    assert Real(s) in r <==> multiset(r)[Real(s)] > 0;
    assert Real(s) in items <==> multiset(items)[Real(s)] > 0;
  }

  /**
   * The list depends on the stacks only as a multiset and on the containers
   * only through the set of names they refer to: reordering either input does
   * not change which items are displayed.
   */
  lemma DisplayedIgnoresInputOrder(a: Inputs, b: Inputs, text: Text)
    requires multiset(a.stacks) == multiset(b.stacks)
    requires forall n :: Container(Some(n)) in a.containers <==> Container(Some(n)) in b.containers
    requires SameSettings(a, b)
    ensures multiset(Displayed(a, text)) == multiset(Displayed(b, text))
  {
    forall item ensures multiset(Displayed(a, text))[item] == multiset(Displayed(b, text))[item] {
      CountIgnoresInputOrder(a, b, text, item);
    }
  }

  lemma CountIgnoresInputOrder(a: Inputs, b: Inputs, text: Text, item: StackItem)
    requires multiset(a.stacks) == multiset(b.stacks)
    requires forall n :: Container(Some(n)) in a.containers <==> Container(Some(n)) in b.containers
    requires SameSettings(a, b)
    ensures multiset(Displayed(a, text))[item] == multiset(Displayed(b, text))[item]
  {
    DisplayedCount(a, text, item);
    DisplayedCount(b, text, item);
    SuppliedIgnoresInputOrder(a, b, item);
    assert Selected(a, text, item) == Selected(b, text, item);
  }

  /** The two inputs differ at most in their stacks and containers. */
  predicate SameSettings(a: Inputs, b: Inputs) {
    && a.selectedEndpointID == b.selectedEndpointID
    && a.includeLimitedStacks == b.includeLimitedStacks
    && a.filterByActiveEndpoint == b.filterByActiveEndpoint
    && a.query == b.query
  }

  lemma SuppliedIgnoresInputOrder(a: Inputs, b: Inputs, item: StackItem)
    requires multiset(a.stacks) == multiset(b.stacks)
    requires forall n :: Container(Some(n)) in a.containers <==> Container(Some(n)) in b.containers
    requires SameSettings(a, b)
    ensures Supplied(a, item) == Supplied(b, item)
  {
    if item.Limited? {
      var n := item.stackName;
      if NamesAStack(a.stacks, n) {
        var s :| s in a.stacks && s.name == n;
        assert s in multiset(b.stacks);
      }
      if NamesAStack(b.stacks, n) {
        var s :| s in b.stacks && s.name == n;
        assert s in multiset(a.stacks);
      }
    }
  }

  // ---------------------------------------------------------------------------
  // Order of the displayed list

  /** The contract `sorted(by:)` places on its comparator. */
  ghost predicate StrictWeakOrder(ascending: (string, string) -> bool) {
    && (forall a :: !ascending(a, a))
    && (forall a, b, c :: ascending(a, b) && ascending(b, c) ==> ascending(a, c))
    && (forall a, b, c :: !ascending(a, b) && !ascending(b, c) ==> !ascending(a, c))
  }

  /** No item comes after a later one. */
  predicate SortedByName(s: seq<StackItem>, ascending: (string, string) -> bool) {
    forall i, j :: 0 <= i < j < |s| ==> !ascending(Name(s[j]), Name(s[i]))
  }

  /** A sorted list stays sorted when an item that comes after none of it goes in front. */
  lemma PrependKeepsSorted(x: StackItem, s: seq<StackItem>, ascending: (string, string) -> bool)
    requires StrictWeakOrder(ascending)
    requires SortedByName(s, ascending)
    requires s != [] && !ascending(Name(s[0]), Name(x))
    ensures SortedByName([x] + s, ascending)
  {
    var r := [x] + s;
    forall k | 0 < k < |s| ensures !ascending(Name(s[k]), Name(x)) {
      assert !ascending(Name(s[k]), Name(s[0]));
    }
    forall i, j | 0 <= i < j < |r| ensures !ascending(Name(r[j]), Name(r[i])) {
      if i > 0 {
        assert r[i] == s[i - 1] && r[j] == s[j - 1];
      } else {
        assert r[j] == s[j - 1];
      }
    }
  }

  /** The tail of a sorted list is sorted. */
  lemma TailSorted(s: seq<StackItem>, ascending: (string, string) -> bool)
    requires s != [] && SortedByName(s, ascending)
    ensures SortedByName(s[1..], ascending)
  {
    forall i, j | 0 <= i < j < |s[1..]| ensures !ascending(Name(s[1..][j]), Name(s[1..][i])) {
      assert s[1..][i] == s[i + 1] && s[1..][j] == s[j + 1];
    }
  }

  /** Putting `head` in front of a sorted list of items none of which precedes it keeps it sorted. */
  lemma ConsKeepsSorted(head: StackItem, t: seq<StackItem>, ascending: (string, string) -> bool)
    requires SortedByName(t, ascending)
    requires forall k :: 0 <= k < |t| ==> !ascending(Name(t[k]), Name(head))
    ensures SortedByName([head] + t, ascending)
  {
    var r := [head] + t;
    forall i, j | 0 <= i < j < |r| ensures !ascending(Name(r[j]), Name(r[i])) {
      if i > 0 {
        assert r[i] == t[i - 1] && r[j] == t[j - 1];
      } else {
        assert r[j] == t[j - 1];
      }
    }
  }

  lemma {:induction false} InsertKeepsSorted(x: StackItem, s: seq<StackItem>, ascending: (string, string) -> bool)
    requires StrictWeakOrder(ascending)
    requires SortedByName(s, ascending)
    ensures SortedByName(Insert(x, s, ascending), ascending)
  {
    if s == [] {
    } else if !ascending(Name(s[0]), Name(x)) {
      PrependKeepsSorted(x, s, ascending);
    } else {
      TailSorted(s, ascending);
      InsertKeepsSorted(x, s[1..], ascending);
      var t := Insert(x, s[1..], ascending);
      forall k | 0 <= k < |t| ensures !ascending(Name(t[k]), Name(s[0])) {
        assert t[k] in multiset(t);
        if t[k] != x {
          assert t[k] in multiset(s[1..]);
          var m :| 0 <= m < |s[1..]| && s[1..][m] == t[k];
          assert s[m + 1] == t[k];
        }
      }
      ConsKeepsSorted(s[0], t, ascending);
    }
  }

  lemma {:induction false} SortByNameIsSorted(xs: seq<StackItem>, ascending: (string, string) -> bool)
    requires StrictWeakOrder(ascending)
    ensures SortedByName(SortByName(xs, ascending), ascending)
  {
    if xs != [] {
      SortByNameIsSorted(xs[1..], ascending);
      InsertKeepsSorted(xs[0], SortByName(xs[1..], ascending), ascending);
    }
  }

  /** The displayed list is in ascending name order, given a comparator `sorted(by:)` accepts. */
  lemma DisplayedIsSorted(inputs: Inputs, text: Text)
    requires StrictWeakOrder(text.ascending)
    ensures SortedByName(Displayed(inputs, text), text.ascending)
  {
    var realItems := RealItems(inputs.stacks);
    var all := WithLimited(realItems, inputs.containers, inputs.includeLimitedStacks);
    var onEndpoint := FilterByEndpoint(all, inputs.filterByActiveEndpoint, inputs.selectedEndpointID);
    SortByNameIsSorted(FilterByQuery(onEndpoint, inputs.query, text), text.ascending);
  }

  // ---------------------------------------------------------------------------
  // View state

  /** A task as the view model sees it. */
  datatype Task = Task(isCancelled: bool)

  /** `!(task?.isCancelled ?? true)`: a task that exists and has not been cancelled. */
  predicate InFlight(task: Option<Task>) {
    task.Some? && !task.value.isCancelled
  }

  datatype ViewState<T, E> = Loading | Reloading(value: T) | Success(value: T) | Failure(error: E)

  predicate IsLoading<T, E>(state: ViewState<T, E>) {
    state.Loading? || state.Reloading?
  }

  /**
   * The computed property `viewState`. A fetch of this screen in flight wins;
   * then a store refresh in flight; then a recorded error; otherwise success.
   * Every state that carries stacks carries the store's current ones.
   */
  function ComputeViewState<E>(fetchTask: Option<Task>, storeTask: Option<Task>, fetchError: Option<E>, stacks: seq<Stack>): (r: ViewState<seq<Stack>, E>)
    ensures r.Loading? <==> !InFlight(fetchTask) && InFlight(storeTask) && stacks == []
    ensures r.Reloading? <==> InFlight(fetchTask) || (InFlight(storeTask) && stacks != [])
    ensures r.Failure? <==> !InFlight(fetchTask) && !InFlight(storeTask) && fetchError.Some?
    ensures r.Success? <==> !InFlight(fetchTask) && !InFlight(storeTask) && fetchError.None?
    ensures (r.Reloading? || r.Success?) ==> r.value == stacks
    ensures r.Failure? ==> Some(r.error) == fetchError
  {
    if InFlight(fetchTask) then Reloading(stacks)
    else if InFlight(storeTask) then (if |stacks| == 0 then Loading else Reloading(stacks))
    else if fetchError.Some? then ViewState.Failure(fetchError.value)
    else ViewState.Success(stacks)
  }

  /** `isBackgroundPlaceholderVisible`: only a successful, settled state with nothing to show displays it. */
  function IsBackgroundPlaceholderVisible<E>(state: ViewState<seq<Stack>, E>, displayed: seq<StackItem>): (r: bool)
    ensures r <==> state.Success? && displayed == []
  {
    match state
    case Loading => false
    case Reloading(_) => false
    case Success(_) => !IsLoading(state) && |displayed| == 0
    case Failure(_) => false
  }

  /**
   * The placeholder shows exactly when nothing is being fetched, no error is
   * recorded and the filtered list is empty, whether or not the store holds
   * stacks.
   */
  lemma PlaceholderVisibleIff<E>(fetchTask: Option<Task>, storeTask: Option<Task>, fetchError: Option<E>, inputs: Inputs, text: Text)
    ensures IsBackgroundPlaceholderVisible(ComputeViewState(fetchTask, storeTask, fetchError, inputs.stacks), Displayed(inputs, text))
        <==> !InFlight(fetchTask) && !InFlight(storeTask) && fetchError.None? && Displayed(inputs, text) == []
  {
  }
}

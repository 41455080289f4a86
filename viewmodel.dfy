/** The query engine (`MainViewModel.filterAndSort`) and the view state the
    screen renders (`MainViewModel.UiState`). */
module ViewModel {
  import opened Wrappers
  import opened Model
  import opened Seqs
  import opened Repository
  import Text

  datatype Tab = ACTIVE | DISMISSED

  datatype SortBy = TIME_DESC | TIME_ASC | APP_NAME

  datatype UiState = UiState(
    activeNotifications: seq<SavedNotification>,
    dismissedNotifications: seq<SavedNotification>,
    filterQuery: string,
    selectedTab: Tab,
    sortBy: SortBy)

  /** `UiState()` with every default. */
  const DEFAULT_UI_STATE: UiState := UiState([], [], "", ACTIVE, TIME_DESC)

  // ---------------------------------------------------------------------------
  // Filtering
  // ---------------------------------------------------------------------------

  /** The query occurs, ignoring case, in the app name, the title or the text.
      Sub-text and expanded text are not searched. */
  predicate MatchesQuery(n: SavedNotification, query: string) {
    || Text.ContainsIgnoreCase(n.appName, query)
    || (n.title.Some? && Text.ContainsIgnoreCase(n.title.value, query))
    || (n.text.Some? && Text.ContainsIgnoreCase(n.text.value, query))
  }

  function QueryMatcher(query: string): SavedNotification -> bool {
    (n: SavedNotification) => MatchesQuery(n, query)
  }

  /** The filter step: a blank query keeps the list as it is. */
  function FilterByQuery(s: seq<SavedNotification>, query: string): seq<SavedNotification> {
    if Text.IsBlank(query) then s else Filter(s, QueryMatcher(query))
  }

  /** A blank query passes the list through unchanged; any other query keeps,
      in order, exactly the records that match it. */
  lemma FilterByQueryProperties(s: seq<SavedNotification>, query: string)
    ensures Text.IsBlank(query) ==> FilterByQuery(s, query) == s
    ensures IsSubsequence(FilterByQuery(s, query), s)
    ensures !Text.IsBlank(query) ==>
      forall x :: x in FilterByQuery(s, query) <==> x in s && MatchesQuery(x, query)
  {
    FilterIsSubsequence(s, QueryMatcher(query));
    if Text.IsBlank(query) {
      SubsequenceReflexive(s);
    }
  }

  /** Sub-text and expanded text never decide whether a record matches. */
  lemma MatchIgnoresSubTextAndBigText(n: SavedNotification, query: string, subText: Option<string>, bigText: Option<string>)
    ensures MatchesQuery(n.(subText := subText, bigText := bigText), query) == MatchesQuery(n, query)
  {
  }

  /** A record whose only occurrence of a non-blank query is in its sub-text or
      expanded text is filtered out. */
  lemma SubTextOnlyMatchIsExcluded(s: seq<SavedNotification>, n: SavedNotification, query: string)
    requires !Text.IsBlank(query)
    requires !Text.ContainsIgnoreCase(n.appName, query)
    requires n.title.None? || !Text.ContainsIgnoreCase(n.title.value, query)
    requires n.text.None? || !Text.ContainsIgnoreCase(n.text.value, query)
    ensures n !in FilterByQuery(s, query)
  {
  }

  // ---------------------------------------------------------------------------
  // Sorting
  // ---------------------------------------------------------------------------

  /** `a` may come before `b` in the chosen order. */
  predicate InOrder(order: SortBy, a: SavedNotification, b: SavedNotification) {
    match order
    case TIME_DESC => a.timestamp >= b.timestamp
    case TIME_ASC => a.timestamp <= b.timestamp
    case APP_NAME => Text.LexLe(a.appName, b.appName)
  }

  lemma InOrderTotal(order: SortBy, a: SavedNotification, b: SavedNotification)
    ensures InOrder(order, a, b) || InOrder(order, b, a)
  {
    if order == APP_NAME {
      Text.LexLeTotal(a.appName, b.appName);
    }
  }

  lemma InOrderTransitive(order: SortBy, a: SavedNotification, b: SavedNotification, c: SavedNotification)
    requires InOrder(order, a, b) && InOrder(order, b, c)
    ensures InOrder(order, a, c)
  {
    if order == APP_NAME {
      Text.LexLeTransitive(a.appName, b.appName, c.appName);
    }
  }

  /** Neighbours are in order. */
  predicate Sorted(order: SortBy, s: seq<SavedNotification>) {
    forall i :: 0 < i < |s| ==> InOrder(order, s[i - 1], s[i])
  }

  /** Every pair is in order, not only neighbours. */
  lemma {:induction false} SortedPairwise(order: SortBy, s: seq<SavedNotification>)
    requires Sorted(order, s)
    ensures forall i, j :: 0 <= i < j < |s| ==> InOrder(order, s[i], s[j])
  {
    if |s| > 1 {
      SortedPairwise(order, s[1..]);
      forall j | 1 < j < |s| ensures InOrder(order, s[0], s[j]) {
        assert s[1..][j - 1] == s[j];
        InOrderTransitive(order, s[0], s[1], s[j]);
      }
    }
  }

  /** Inserts `x` before the first element it may precede. */
  function Insert(order: SortBy, x: SavedNotification, s: seq<SavedNotification>): (r: seq<SavedNotification>)
    requires Sorted(order, s)
    ensures Sorted(order, r)
    ensures multiset(r) == multiset(s) + multiset{x}
    ensures |r| == |s| + 1
    ensures r[0] == x || (s != [] && r[0] == s[0])
  {
    if s == [] then [x]
    else if InOrder(order, x, s[0]) then [x] + s
    else
      InOrderTotal(order, x, s[0]);
      assert s == [s[0]] + s[1..];
      [s[0]] + Insert(order, x, s[1..])
  }

  /** `sortedBy` / `sortedByDescending`: an insertion sort, stable (`SortIsStable`). */
  function Sort(order: SortBy, s: seq<SavedNotification>): (r: seq<SavedNotification>)
    ensures Sorted(order, r)
    ensures multiset(r) == multiset(s)
    ensures |r| == |s|
  {
    if s == [] then []
    else
      assert s == [s[0]] + s[1..];
      Insert(order, s[0], Sort(order, s[1..]))
  }

  /** filterAndSort: the filtered records, in the chosen order. */
  function FilterAndSort(s: seq<SavedNotification>, query: string, order: SortBy): (r: seq<SavedNotification>)
    ensures Sorted(order, r)
    ensures multiset(r) == multiset(FilterByQuery(s, query))
  {
    Sort(order, FilterByQuery(s, query))
  }

  // ---------------------------------------------------------------------------
  // Stability: records with equal keys keep their order
  // ---------------------------------------------------------------------------

  /** The records whose sort key equals `y`'s: each may come before the other. */
  function TiedWith(order: SortBy, y: SavedNotification): SavedNotification -> bool {
    (n: SavedNotification) => InOrder(order, n, y) && InOrder(order, y, n)
  }

  /** Two records tied with the same record may come in either order. */
  lemma TiedAreInOrder(order: SortBy, y: SavedNotification, a: SavedNotification, b: SavedNotification)
    ensures TiedWith(order, y)(a) && TiedWith(order, y)(b) ==> InOrder(order, a, b)
  {
    if TiedWith(order, y)(a) && TiedWith(order, y)(b) {
      InOrderTransitive(order, a, y, b);
    }
  }

  /** Insertion puts `x` before every element it ties with, and keeps
      those in their order. */
  lemma {:induction false} InsertKeepsTieOrder(order: SortBy, x: SavedNotification, t: seq<SavedNotification>, y: SavedNotification)
    requires Sorted(order, t)
    ensures Filter(Insert(order, x, t), TiedWith(order, y)) ==
            (if TiedWith(order, y)(x) then [x] else []) + Filter(t, TiedWith(order, y))
    decreases |t|
  {
    if t != [] {
      if InOrder(order, x, t[0]) {
        FilterCons(x, t, TiedWith(order, y));
      } else {
        InsertKeepsTieOrder(order, x, t[1..], y);
        TiedAreInOrder(order, y, x, t[0]);
        assert t == [t[0]] + t[1..];
        FilterPastHead(TiedWith(order, y), t[0], x, Insert(order, x, t[1..]), t[1..]);
      }
    }
  }

  /** `sortedBy`/`sortedByDescending` are stable: the records tied with any
      `y` appear in the result in the order they had in the input. */
  lemma {:induction false} SortIsStable(order: SortBy, s: seq<SavedNotification>, y: SavedNotification)
    ensures Filter(Sort(order, s), TiedWith(order, y)) == Filter(s, TiedWith(order, y))
  {
    if s != [] {
      SortIsStable(order, s[1..], y);
      InsertKeepsTieOrder(order, s[0], Sort(order, s[1..]), y);
    }
  }

  /** The view keeps tied records in the order the filter left them; under
      APP_NAME this is the store order (newest first) within one app. */
  lemma FilterAndSortIsStable(s: seq<SavedNotification>, query: string, order: SortBy, y: SavedNotification)
    ensures Filter(FilterAndSort(s, query, order), TiedWith(order, y)) == Filter(FilterByQuery(s, query), TiedWith(order, y))
  {
    SortIsStable(order, FilterByQuery(s, query), y);
  }

  /** Under APP_NAME every record with `y`'s app name is tied with `y`. */
  lemma SameAppNameIsTied(y: SavedNotification, n: SavedNotification)
    requires n.appName == y.appName
    ensures TiedWith(APP_NAME, y)(n)
  {
    Text.LexLeTotal(n.appName, y.appName);
  }

  /** Records posted at 100, 200 and 150 show newest first by time
      descending. */
  lemma SortExample(a: SavedNotification, b: SavedNotification, c: SavedNotification)
    requires a.timestamp == 100 && b.timestamp == 200 && c.timestamp == 150
    ensures Sort(TIME_DESC, [a, b, c]) == [b, c, a]
  {
    assert [a, b, c][0] == a && [a, b, c][1..] == [b, c];
    SortExampleTail(b, c);
    SortExampleInsert(a, b, c);
  }

  lemma SortExampleTail(b: SavedNotification, c: SavedNotification)
    requires b.timestamp == 200 && c.timestamp == 150
    ensures Sort(TIME_DESC, [b, c]) == [b, c]
  {
    assert [b, c][0] == b && [b, c][1..] == [c];
    assert [c][1..] == [];
    assert Sort(TIME_DESC, [c]) == [c];
  }

  lemma SortExampleInsert(a: SavedNotification, b: SavedNotification, c: SavedNotification)
    requires a.timestamp == 100 && b.timestamp == 200 && c.timestamp == 150
    ensures Insert(TIME_DESC, a, [b, c]) == [b, c, a]
  {
    assert [b, c][0] == b && [b, c][1..] == [c] && [c][1..] == [];
    assert Insert(TIME_DESC, a, [c]) == [c, a];
  }

  // ---------------------------------------------------------------------------
  // Descending is ascending reversed, when no two timestamps tie
  // ---------------------------------------------------------------------------

  /** Two records with the same timestamp are the same record. */
  predicate NoTimestampTies(s: seq<SavedNotification>) {
    forall x, y :: x in s && y in s && x.timestamp == y.timestamp ==> x == y
  }

  predicate AscendingPairwise(s: seq<SavedNotification>) {
    forall i, j :: 0 <= i < j < |s| ==> s[i].timestamp <= s[j].timestamp
  }

  /** Without ties, the ascending order of a collection is unique. */
  lemma {:induction false} AscendingIsUnique(a: seq<SavedNotification>, b: seq<SavedNotification>)
    requires AscendingPairwise(a) && AscendingPairwise(b)
    requires multiset(a) == multiset(b)
    requires NoTimestampTies(a)
    ensures a == b
  {
    if a == [] {
      assert |multiset(b)| == 0;
    } else {
      SameFirst(a, b);
      MultisetOfTail(a);
      MultisetOfTail(b);
      assert NoTimestampTies(a[1..]) by {
        forall x | x in a[1..] ensures x in a { }
      }
      AscendingIsUnique(a[1..], b[1..]);
    }
  }

  /** Both start with the earliest record, which is unique. */
  lemma SameFirst(a: seq<SavedNotification>, b: seq<SavedNotification>)
    requires AscendingPairwise(a) && AscendingPairwise(b)
    requires multiset(a) == multiset(b)
    requires NoTimestampTies(a)
    requires a != []
    ensures b != [] && a[0] == b[0]
  {
    assert a[0] in multiset(b);
    assert b[0] in multiset(a);
    var k :| 0 <= k < |a| && a[k] == b[0];
    var m :| 0 <= m < |b| && b[m] == a[0];
    assert a[0].timestamp <= b[0].timestamp by {
      if k > 0 { assert a[0].timestamp <= a[k].timestamp; }
    }
    assert b[0].timestamp <= a[0].timestamp by {
      if m > 0 { assert b[0].timestamp <= b[m].timestamp; }
    }
    assert a[0] in a && b[0] in a;
  }

  lemma ReverseOfDescendingIsAscending(d: seq<SavedNotification>)
    requires Sorted(TIME_DESC, d)
    ensures Sorted(TIME_ASC, Reverse(d))
  {
  }

  /** Sorting by time descending yields the ascending result reversed when no
      two records share a timestamp. */
  lemma TimeDescIsReversedTimeAsc(s: seq<SavedNotification>)
    requires NoTimestampTies(s)
    ensures Sort(TIME_DESC, s) == Reverse(Sort(TIME_ASC, s))
  {
    var a, d := Sort(TIME_ASC, s), Sort(TIME_DESC, s);
    AscendingIsReversedDescending(s, a, d);
    ReverseInvolution(d);
  }

  lemma AscendingIsReversedDescending(s: seq<SavedNotification>, a: seq<SavedNotification>, d: seq<SavedNotification>)
    requires NoTimestampTies(s)
    requires Sorted(TIME_ASC, a) && multiset(a) == multiset(s)
    requires Sorted(TIME_DESC, d) && multiset(d) == multiset(s)
    ensures a == Reverse(d)
  {
    var r := Reverse(d);
    ReverseOfDescendingIsAscending(d);
    ReversePermutes(d);
    SortedPairwise(TIME_ASC, a);
    SortedPairwise(TIME_ASC, r);
    assert AscendingPairwise(a) && AscendingPairwise(r);
    NoTiesTransfer(s, a);
    AscendingIsUnique(a, r);
  }

  lemma NoTiesTransfer(s: seq<SavedNotification>, a: seq<SavedNotification>)
    requires NoTimestampTies(s) && multiset(a) == multiset(s)
    ensures NoTimestampTies(a)
  {
    forall x | x in a ensures x in s {
      assert x in multiset(a);
    }
  }

  // ---------------------------------------------------------------------------
  // The two tabs
  // ---------------------------------------------------------------------------

  /** The active tab shows only non-dismissed records and the dismissed tab
      only dismissed ones, each drawn from the snapshot and sorted; with a
      blank query together they show every record once. */
  lemma TabsProperties(ns: seq<SavedNotification>, query: string, order: SortBy)
    ensures forall x :: x in FilterAndSort(ActiveOf(ns), query, order) ==> x in ns && !x.isDismissed
    ensures forall x :: x in FilterAndSort(DismissedOf(ns), query, order) ==> x in ns && x.isDismissed
    ensures Text.IsBlank(query) ==>
      multiset(FilterAndSort(ActiveOf(ns), query, order)) + multiset(FilterAndSort(DismissedOf(ns), query, order)) == multiset(ns)
  {
    ViewDrawsFrom(ActiveOf(ns), query, order);
    ViewDrawsFrom(DismissedOf(ns), query, order);
    ActiveDismissedPartition(ns);
  }

  /** Everything a view shows comes from its input list. */
  lemma ViewDrawsFrom(s: seq<SavedNotification>, query: string, order: SortBy)
    ensures forall x :: x in FilterAndSort(s, query, order) ==> x in s
  {
    var v := FilterAndSort(s, query, order);
    forall x | x in v ensures x in s {
      assert x in multiset(FilterByQuery(s, query));
    }
  }

  // ---------------------------------------------------------------------------
  // The view model
  // ---------------------------------------------------------------------------

  class MainViewModel {
    const repository: NotificationStore
    var uiState: UiState

    constructor(repository: NotificationStore)
      ensures this.repository == repository && uiState == DEFAULT_UI_STATE
    {
      this.repository := repository;
      uiState := DEFAULT_UI_STATE;
    }

    /** updateNotifications: a new snapshot from the store replaces both lists,
        filtered and sorted with the current query and order. */
    method UpdateNotifications(notifications: seq<SavedNotification>)
      modifies this
      ensures uiState == old(uiState).(
        activeNotifications := FilterAndSort(ActiveOf(notifications), old(uiState).filterQuery, old(uiState).sortBy),
        dismissedNotifications := FilterAndSort(DismissedOf(notifications), old(uiState).filterQuery, old(uiState).sortBy))
    {
      var currentState := uiState;
      var active := ActiveOf(notifications);
      var dismissed := DismissedOf(notifications);
      uiState := currentState.(
        activeNotifications := FilterAndSort(active, currentState.filterQuery, currentState.sortBy),
        dismissedNotifications := FilterAndSort(dismissed, currentState.filterQuery, currentState.sortBy));
    }

    /** setSelectedTab */
    method SetSelectedTab(tab: Tab)
      modifies this
      ensures uiState == old(uiState).(selectedTab := tab)
    {
      uiState := uiState.(selectedTab := tab);
    }

    /** setFilterQuery: re-reads the store's active and dismissed records. */
    method SetFilterQuery(query: string)
      modifies this
      ensures uiState == old(uiState).(
        filterQuery := query,
        activeNotifications := FilterAndSort(ActiveOf(repository.notifications), query, old(uiState).sortBy),
        dismissedNotifications := FilterAndSort(DismissedOf(repository.notifications), query, old(uiState).sortBy))
    {
      var currentState := uiState;
      var active := repository.GetActiveNotifications();
      var dismissed := repository.GetDismissedNotifications();
      uiState := currentState.(
        filterQuery := query,
        activeNotifications := FilterAndSort(active, query, currentState.sortBy),
        dismissedNotifications := FilterAndSort(dismissed, query, currentState.sortBy));
    }

    /** setSortBy: re-reads the store's active and dismissed records. */
    method SetSortBy(sortBy: SortBy)
      modifies this
      ensures uiState == old(uiState).(
        sortBy := sortBy,
        activeNotifications := FilterAndSort(ActiveOf(repository.notifications), old(uiState).filterQuery, sortBy),
        dismissedNotifications := FilterAndSort(DismissedOf(repository.notifications), old(uiState).filterQuery, sortBy))
    {
      var currentState := uiState;
      var active := repository.GetActiveNotifications();
      var dismissed := repository.GetDismissedNotifications();
      uiState := currentState.(
        sortBy := sortBy,
        activeNotifications := FilterAndSort(active, currentState.filterQuery, sortBy),
        dismissedNotifications := FilterAndSort(dismissed, currentState.filterQuery, sortBy));
    }

    /** deleteNotification: forwarded to the store. */
    method DeleteNotification(id: Long)
      requires repository.Valid()
      modifies repository
      ensures repository.Valid()
      ensures repository.notifications == WithoutId(old(repository.notifications), id)
    {
      repository.DeleteNotification(id);
    }

    /** clearAll: forwarded to the store. */
    method ClearAll()
      requires repository.Valid()
      modifies repository
      ensures repository.Valid() && repository.notifications == []
    {
      repository.ClearAll();
    }

    /** clearDismissed: forwarded to the store. */
    method ClearDismissed()
      requires repository.Valid()
      modifies repository
      ensures repository.Valid()
      ensures repository.notifications == ActiveOf(old(repository.notifications))
    {
      repository.ClearDismissed();
    }
  }
}

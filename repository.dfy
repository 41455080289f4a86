/** The bounded, de-duplicating notification store (`NotificationRepository`).
    Each operation holds the store's mutex for its whole body in the source;
    here each is one sequential method on the store object. */
module Repository {
  import opened Wrappers
  import opened Model
  import opened Seqs
  import Text

  /** `maxNotifications`: the store keeps at most this many records. */
  const MAX_NOTIFICATIONS: nat := 100

  /** No two records share an `id`. */
  predicate UniqueIds(s: seq<SavedNotification>) {
    forall i, j :: 0 <= i < j < |s| ==> s[i].id != s[j].id
  }

  // ---------------------------------------------------------------------------
  // Removal keys
  // ---------------------------------------------------------------------------

  /** `"${packageName}_${id}_${time}"`. */
  function Key(packageName: string, id: int, time: int): string {
    packageName + "_" + Text.IntToString(id) + "_" + Text.IntToString(time)
  }

  /** The key the store derives from a stored record to find it again. */
  function RecordKey(n: SavedNotification): string {
    Key(n.packageName, n.id, n.timestamp)
  }

  /** Although package names may contain `_`, the key is unambiguous: the two
      numbers after the last two separators cannot contain one. */
  lemma KeyInjective(p1: string, i1: int, t1: int, p2: string, i2: int, t2: int)
    requires Key(p1, i1, t1) == Key(p2, i2, t2)
    ensures p1 == p2 && i1 == i2 && t1 == t2
  {
    var a1, a2 := Text.IntToString(i1), Text.IntToString(i2);
    var b1, b2 := Text.IntToString(t1), Text.IntToString(t2);
    assert Key(p1, i1, t1) == (p1 + "_" + a1) + ['_'] + b1;
    assert Key(p2, i2, t2) == (p2 + "_" + a2) + ['_'] + b2;
    Text.SplitAtLastSeparator(p1 + "_" + a1, b1, p2 + "_" + a2, b2, '_');
    assert p1 + "_" + a1 == p1 + ['_'] + a1;
    assert p2 + "_" + a2 == p2 + ['_'] + a2;
    Text.SplitAtLastSeparator(p1, a1, p2, a2, '_');
    Text.IntToStringInjective(i1, i2);
    Text.IntToStringInjective(t1, t2);
  }

  // ---------------------------------------------------------------------------
  // Specification of the operations, on values
  // ---------------------------------------------------------------------------

  /** The test `it.id != id`. */
  function OtherId(id: Long): SavedNotification -> bool {
    (n: SavedNotification) => n.id != id
  }

  /** `filter { it.id != id }` (also what `removeAll { it.id == id }` leaves). */
  function WithoutId(s: seq<SavedNotification>, id: Long): seq<SavedNotification> {
    Filter(s, OtherId(id))
  }

  predicate IsActive(n: SavedNotification) {
    !n.isDismissed
  }

  predicate IsDismissed(n: SavedNotification) {
    n.isDismissed
  }

  /** `filter { !it.isDismissed }`. */
  function ActiveOf(s: seq<SavedNotification>): seq<SavedNotification> {
    Filter(s, IsActive)
  }

  /** `filter { it.isDismissed }`. */
  function DismissedOf(s: seq<SavedNotification>): seq<SavedNotification> {
    Filter(s, IsDismissed)
  }

  /** The list after saving `n`: earlier records with its id removed, `n` at
      the head, cut to the capacity. */
  function Saved(s: seq<SavedNotification>, n: SavedNotification): seq<SavedNotification> {
    Take([n] + WithoutId(s, n.id), MAX_NOTIFICATIONS)
  }

  /** The test `key == "${packageName}_${id}_${timestamp}"` on a record. */
  function HasKey(key: string): SavedNotification -> bool {
    (n: SavedNotification) => RecordKey(n) == key
  }

  /** `indexOfFirst` on the record key: the first index whose key is `key`. */
  function FirstMatch(s: seq<SavedNotification>, key: string): (r: Option<nat>)
    ensures r.None? ==> forall j :: 0 <= j < |s| ==> RecordKey(s[j]) != key
    ensures r.Some? ==> r.value < |s| && RecordKey(s[r.value]) == key
    ensures r.Some? ==> forall j :: 0 <= j < r.value ==> RecordKey(s[j]) != key
  {
    FirstWhere(s, HasKey(key))
  }

  /** The list after a removal event with `key`: the first matching record
      marked dismissed, or the same list when nothing matches. */
  function MarkDismissed(s: seq<SavedNotification>, key: string): seq<SavedNotification> {
    match FirstMatch(s, key)
    case None => s
    case Some(i) => s[i := s[i].(isDismissed := true)]
  }

  // ---------------------------------------------------------------------------
  // Properties of saving
  // ---------------------------------------------------------------------------

  /** Filtering never creates a duplicate id. */
  lemma {:induction false} FilterKeepsUniqueIds(s: seq<SavedNotification>, p: SavedNotification -> bool)
    requires UniqueIds(s)
    ensures UniqueIds(Filter(s, p))
  {
    if s != [] {
      FilterKeepsUniqueIds(s[1..], p);
      var f := Filter(s[1..], p);
      forall j | 0 <= j < |f| ensures f[j].id != s[0].id {
        assert f[j] in s[1..];
      }
    }
  }

  /** What saving `n` promises: the capacity, `n` at the head, no other record
      with its id, the tail being the old list without that id (order kept)
      cut to capacity minus one, and unique ids preserved. */
  lemma SavedProperties(s: seq<SavedNotification>, n: SavedNotification)
    ensures |Saved(s, n)| <= MAX_NOTIFICATIONS
    ensures Saved(s, n)[0] == n
    ensures forall i :: 1 <= i < |Saved(s, n)| ==> Saved(s, n)[i].id != n.id
    ensures Saved(s, n)[1..] == Take(WithoutId(s, n.id), MAX_NOTIFICATIONS - 1)
    ensures IsSubsequence(Saved(s, n)[1..], s)
    ensures UniqueIds(s) ==> UniqueIds(Saved(s, n))
  {
    var w := WithoutId(s, n.id);
    var r := Saved(s, n);
    assert r[1..] == Take(w, MAX_NOTIFICATIONS - 1);
    FilterIsSubsequence(s, OtherId(n.id));
    TakeIsSubsequence(w, MAX_NOTIFICATIONS - 1);
    SubsequenceTransitive(r[1..], w, s);
    if UniqueIds(s) {
      FilterKeepsUniqueIds(s, OtherId(n.id));
    }
  }

  /** Saving a record whose id is new, into a list with room, loses nothing. */
  lemma SavedFreshIdKeepsAll(s: seq<SavedNotification>, n: SavedNotification)
    requires |s| < MAX_NOTIFICATIONS
    requires forall i :: 0 <= i < |s| ==> s[i].id != n.id
    ensures Saved(s, n) == [n] + s
  {
    FilterKeepsAll(s, OtherId(n.id));
  }

  /** A record built with its defaults is not dismissed, so once saved it
      heads the active list. */
  lemma DefaultRecordHeadsActiveList(s: seq<SavedNotification>, idNow: Long, timestampNow: Long,
                                     packageName: string, appName: string, title: Option<string>,
                                     text: Option<string>, subText: Option<string>, bigText: Option<string>)
    ensures
      var r := NewSavedNotification(idNow, timestampNow, packageName, appName, title, text, subText, bigText);
      ActiveOf(Saved(s, r)) != [] && ActiveOf(Saved(s, r))[0] == r
  {
    var r := NewSavedNotification(idNow, timestampNow, packageName, appName, title, text, subText, bigText);
    var saved := Saved(s, r);
    SavedProperties(s, r);
    assert saved == [r] + saved[1..];
    FilterCons(r, saved[1..], IsActive);
  }

  /** The list after saving each record of `ns` in turn. */
  function SaveAll(s: seq<SavedNotification>, ns: seq<SavedNotification>): seq<SavedNotification> {
    if ns == [] then s else Saved(SaveAll(s, ns[..|ns| - 1]), ns[|ns| - 1])
  }

  /** However many records are saved, the store never exceeds its capacity
      and never holds two records with the same id. */
  lemma {:induction false} SaveAllBounded(s: seq<SavedNotification>, ns: seq<SavedNotification>)
    requires |s| <= MAX_NOTIFICATIONS && UniqueIds(s)
    ensures |SaveAll(s, ns)| <= MAX_NOTIFICATIONS && UniqueIds(SaveAll(s, ns))
  {
    if ns != [] {
      SaveAllBounded(s, ns[..|ns| - 1]);
      SavedProperties(SaveAll(s, ns[..|ns| - 1]), ns[|ns| - 1]);
    }
  }

  /** Saving records with distinct ids into an empty store keeps the most
      recent `MAX_NOTIFICATIONS` of them, newest first: eviction follows
      insertion order. */
  lemma {:induction false} SaveAllDistinct(ns: seq<SavedNotification>)
    requires UniqueIds(ns)
    ensures SaveAll([], ns) == Take(Reverse(ns), MAX_NOTIFICATIONS)
  {
    if ns != [] {
      var init, x := ns[..|ns| - 1], ns[|ns| - 1];
      forall i, j | 0 <= i < j < |init| ensures init[i].id != init[j].id {
        assert init[i] == ns[i] && init[j] == ns[j];
      }
      forall i | 0 <= i < |init| ensures init[i].id != x.id {
        assert init[i] == ns[i];
      }
      SaveAllDistinct(init);
      SaveDistinctStep(init, x);
      assert ns == init + [x];
    }
  }

  lemma SaveDistinctStep(init: seq<SavedNotification>, x: SavedNotification)
    requires forall i :: 0 <= i < |init| ==> init[i].id != x.id
    ensures Saved(Take(Reverse(init), MAX_NOTIFICATIONS), x) == Take(Reverse(init + [x]), MAX_NOTIFICATIONS)
  {
    var rev := Reverse(init);
    var prev := Take(rev, MAX_NOTIFICATIONS);
    forall i | 0 <= i < |prev| ensures OtherId(x.id)(prev[i]) {
      assert prev[i] == rev[i] == init[|init| - 1 - i];
    }
    FilterKeepsAll(prev, OtherId(x.id));
    assert Saved(prev, x) == Take([x] + prev, MAX_NOTIFICATIONS);
    TakeCons(x, rev, MAX_NOTIFICATIONS);
    ReverseSnoc(init, x);
    assert Reverse(init + [x]) == [x] + rev;
  }

  /** Saving 101 distinct records: the store holds 100 and the first one saved
      is gone. */
  lemma OverflowEvictsOldest(ns: seq<SavedNotification>)
    requires UniqueIds(ns) && |ns| == MAX_NOTIFICATIONS + 1
    ensures |SaveAll([], ns)| == MAX_NOTIFICATIONS
    ensures ns[0] !in SaveAll([], ns)
  {
    SaveAllDistinct(ns);
    var r := SaveAll([], ns);
    forall i | 0 <= i < |r| ensures r[i] != ns[0] {
      assert r[i] == ns[|ns| - 1 - i];
    }
  }

  // ---------------------------------------------------------------------------
  // Properties of dismissal
  // ---------------------------------------------------------------------------

  /** Only the first record whose key matches changes, and only its flag; with
      no match nothing changes. */
  lemma MarkDismissedEffect(s: seq<SavedNotification>, key: string)
    ensures |MarkDismissed(s, key)| == |s|
    ensures (forall j :: 0 <= j < |s| ==> RecordKey(s[j]) != key) ==> MarkDismissed(s, key) == s
    ensures forall i :: (0 <= i < |s| && RecordKey(s[i]) == key && (forall j :: 0 <= j < i ==> RecordKey(s[j]) != key))
                        ==> MarkDismissed(s, key) == s[i := s[i].(isDismissed := true)]
  {
  }

  /** Dismissal never touches ids, so unique ids stay unique. */
  lemma MarkDismissedKeepsIds(s: seq<SavedNotification>, key: string)
    ensures forall i :: 0 <= i < |s| ==> MarkDismissed(s, key)[i].id == s[i].id
    ensures UniqueIds(s) ==> UniqueIds(MarkDismissed(s, key))
  {
  }

  /** A repeated removal event changes nothing more: the match ignores the
      dismissed flag, so the second call finds the same record. */
  lemma MarkDismissedIdempotent(s: seq<SavedNotification>, key: string)
    ensures MarkDismissed(MarkDismissed(s, key), key) == MarkDismissed(s, key)
  {
    var r := MarkDismissed(s, key);
    match FirstMatch(s, key)
    case None =>
    case Some(i) =>
      assert forall j :: 0 <= j < |s| ==> RecordKey(r[j]) == RecordKey(s[j]);
      match FirstMatch(r, key)
      case None =>
        assert RecordKey(r[i]) == key;
      case Some(k) =>
        assert k == i;
  }

  // ---------------------------------------------------------------------------
  // Properties of deletion and the active/dismissed split
  // ---------------------------------------------------------------------------

  /** Deleting by id keeps exactly the records with another id, in order;
      with unique ids it removes one record when the id is present and none
      otherwise. */
  lemma DeleteProperties(s: seq<SavedNotification>, id: Long)
    ensures forall x :: x in WithoutId(s, id) <==> x in s && x.id != id
    ensures IsSubsequence(WithoutId(s, id), s)
    ensures (forall i :: 0 <= i < |s| ==> s[i].id != id) ==> WithoutId(s, id) == s
    ensures UniqueIds(s) ==> forall i :: (0 <= i < |s| && s[i].id == id) ==> |WithoutId(s, id)| == |s| - 1
  {
    var p := OtherId(id);
    FilterIsSubsequence(s, p);
    if forall i :: 0 <= i < |s| ==> s[i].id != id {
      FilterKeepsAll(s, p);
    }
    if UniqueIds(s) {
      forall i | 0 <= i < |s| && s[i].id == id ensures |WithoutId(s, id)| == |s| - 1 {
        DeleteRemovesOne(s, i);
      }
    }
  }

  lemma DeleteRemovesOne(s: seq<SavedNotification>, i: nat)
    requires UniqueIds(s) && i < |s|
    ensures WithoutId(s, s[i].id) == s[..i] + s[i + 1..]
  {
    var p := OtherId(s[i].id);
    forall k | 0 <= k < |s| && k != i ensures p(s[k]) {
      if k < i {
        assert s[k].id != s[i].id;
      } else {
        assert s[i].id != s[k].id;
      }
    }
    FilterDropsOne(s, p, i);
  }

  /** Active and dismissed records partition the list: each record is in
      exactly one part, each part keeps the list order, and the sizes add up. */
  lemma ActiveDismissedPartition(s: seq<SavedNotification>)
    ensures forall x :: x in ActiveOf(s) <==> x in s && !x.isDismissed
    ensures forall x :: x in DismissedOf(s) <==> x in s && x.isDismissed
    ensures IsSubsequence(ActiveOf(s), s) && IsSubsequence(DismissedOf(s), s)
    ensures multiset(ActiveOf(s)) + multiset(DismissedOf(s)) == multiset(s)
    ensures |ActiveOf(s)| + |DismissedOf(s)| == |s|
  {
    FilterIsSubsequence(s, IsActive);
    FilterIsSubsequence(s, IsDismissed);
    FilterPartition(s, IsActive, IsDismissed);
  }

  // ---------------------------------------------------------------------------
  // Searching (indexOfFirst)
  // ---------------------------------------------------------------------------

  /** `indexOfFirst { "${it.packageName}_${it.id}_${it.timestamp}" == key }`:
      the first index whose key is `key`, or -1. */
  method IndexOfFirst(s: seq<SavedNotification>, key: string) returns (index: int)
    ensures -1 <= index < |s|
    ensures index == -1 ==> forall j :: 0 <= j < |s| ==> RecordKey(s[j]) != key
    ensures index != -1 ==> RecordKey(s[index]) == key
    ensures forall j :: 0 <= j < index ==> RecordKey(s[j]) != key
  {
    index := 0;
    while index < |s|
      invariant 0 <= index <= |s|
      invariant forall j :: 0 <= j < index ==> RecordKey(s[j]) != key
    {
      if RecordKey(s[index]) == key {
        return;
      }
      index := index + 1;
    }
    index := -1;
  }

  // ---------------------------------------------------------------------------
  // The store
  // ---------------------------------------------------------------------------

  class NotificationStore {
    /** The published snapshot, newest first. */
    var notifications: seq<SavedNotification>

    /** Capacity respected and ids unique. */
    ghost predicate Valid()
      reads this
    {
      |notifications| <= MAX_NOTIFICATIONS && UniqueIds(notifications)
    }

    constructor()
      ensures Valid() && notifications == []
    {
      notifications := [];
    }

    /** saveNotification */
    method SaveNotification(notification: SavedNotification)
      requires Valid()
      modifies this
      ensures Valid()
      ensures notifications == Saved(old(notifications), notification)
    {
      var currentList := notifications;
      currentList := WithoutId(currentList, notification.id);
      currentList := [notification] + currentList;
      if |currentList| > MAX_NOTIFICATIONS {
        currentList := currentList[..MAX_NOTIFICATIONS];
      }
      notifications := currentList;
      SavedProperties(old(notifications), notification);
    }

    /** markAsDismissed */
    method MarkAsDismissed(key: string)
      requires Valid()
      modifies this
      ensures Valid()
      ensures notifications == MarkDismissed(old(notifications), key)
    {
      var currentList := notifications;
      var index := IndexOfFirst(currentList, key);
      if index != -1 {
        currentList := currentList[index := currentList[index].(isDismissed := true)];
        notifications := currentList;
      }
      MarkDismissedKeepsIds(old(notifications), key);
    }

    /** deleteNotification */
    method DeleteNotification(id: Long)
      requires Valid()
      modifies this
      ensures Valid()
      ensures notifications == WithoutId(old(notifications), id)
    {
      notifications := WithoutId(notifications, id);
      FilterKeepsUniqueIds(old(notifications), OtherId(id));
    }

    /** clearAll */
    method ClearAll()
      requires Valid()
      modifies this
      ensures Valid() && notifications == []
    {
      notifications := [];
    }

    /** clearDismissed */
    method ClearDismissed()
      requires Valid()
      modifies this
      ensures Valid()
      ensures notifications == ActiveOf(old(notifications))
    {
      notifications := ActiveOf(notifications);
      FilterKeepsUniqueIds(old(notifications), IsActive);
    }

    /** getActiveNotifications */
    method GetActiveNotifications() returns (r: seq<SavedNotification>)
      ensures r == ActiveOf(notifications)
      ensures forall i :: 0 <= i < |r| ==> !r[i].isDismissed
    {
      r := ActiveOf(notifications);
    }

    /** getDismissedNotifications */
    method GetDismissedNotifications() returns (r: seq<SavedNotification>)
      ensures r == DismissedOf(notifications)
      ensures forall i :: 0 <= i < |r| ==> r[i].isDismissed
    {
      r := DismissedOf(notifications);
    }
  }
}

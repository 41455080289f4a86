# NotificationRestorer — a verified model of its core

NotificationRestorer is an Android app that keeps a history of the notifications
other apps post, so that a notification dismissed by accident can be read again.
This project models its core in Dafny:

- **`Model`** (`model.dfy`) — the captured record `SavedNotification` and its
  declared defaults. Also the three display rules: the title, the text with its
  "Sin contenido" placeholder, and the relative age ("Hace un momento",
  "Hace N min", …). The clock reading is a parameter.
- **`Repository`** (`repository.dfy`) — the store `NotificationRepository`. It is
  the class `NotificationStore`, whose field `notifications` each operation
  replaces. The same module holds the specification functions on values
  (`Saved`, `MarkDismissed`, `WithoutId`, `ActiveOf`, `DismissedOf`) that the
  methods are proved against, and the lemmas about those functions. The class
  invariant `Valid()` is at most 100 records with no two sharing an id.
- **`ViewModel`** (`viewmodel.dfy`) — the query engine `filterAndSort` (the
  ignore-case filter and the three orders) and the class `MainViewModel`. Its
  field `uiState` is updated by the setters.
- **`Service`** (`service.dfy`) — `NotificationListenerService`:
  - which posted events become records, and how a record is built from an event;
  - the key a removal event uses to find its record;
  - the listener class, which forwards both kinds of event to the store.
- **`Text`**, **`Seqs`** and **`Wrappers`** — strings (decimal rendering,
  `startsWith`, `isBlank`, `contains(ignoreCase = true)`, and `compareTo` on the
  UTF-16 encoding), Kotlin's `filter`, and `Option`.

Kotlin `Long` and `Int` are the subset types `Model.Long` and `Model.Int32`. The
subtraction in `getFormattedTimestamp` wraps at 64 bits, as the JVM does.

Two facts about the code are stated and proved as they are written:

- **Removal key.** A record built from an event takes the event's post time as
  its `id`. The removal event builds its key from the event's own notification
  id instead. `Key` is injective (`Repository.KeyInjective`), so a removal finds
  the record built from the same event exactly when the event's id equals its
  post time. Otherwise a removal changes nothing. The event id is a 32-bit
  `Int`, and a post time is a clock reading in epoch milliseconds, far above
  the largest `Int`. So for a real event the two never agree, and a removal
  never marks a record dismissed (`Service.RemovalOfRealEventIsNoOp`).
- **Placeholder text.** `getDisplayText` returns "Sin contenido" when all three
  text fields are null. It returns the same string when the field it picks holds
  that literal text. So the placeholder does not mean "all three fields are
  null".

## Model

| member | source | states |
|---|---|---|
| `Model.NewSavedNotification` | app/src/main/java/com/example/notificationrestorer/model/SavedNotification.kt:6-21 | a record given only its required fields takes its id from one clock reading and its timestamp from another, is neither dismissed nor ongoing, and has no icon, intent or category and priority 0 |
| `Repository.DefaultRecordHeadsActiveList` | app/src/main/java/com/example/notificationrestorer/model/SavedNotification.kt:17 | a record built with its defaults is active: once saved it is the first record of the active list |
| `Model.DisplayTitle` | app/src/main/java/com/example/notificationrestorer/model/SavedNotification.kt:22 | the title when present, the app name when the title is null |
| `Model.DisplayText` | app/src/main/java/com/example/notificationrestorer/model/SavedNotification.kt:24-29 | getDisplayText; its priority is stated by `Model.DisplayTextFollowsPriority` and its placeholder by `Model.NoContentPlaceholder` |
| `Model.DisplayTextFollowsPriority` | app/src/main/java/com/example/notificationrestorer/model/SavedNotification.kt:24-29 | the display text is the first present value among bigText, text and subText, measured against the independent definition `FirstPresent`, and "Sin contenido" when none is present |
| `Model.FirstPresent` | app/src/main/java/com/example/notificationrestorer/model/SavedNotification.kt:24-28 | the result is absent exactly when every candidate is absent, and otherwise it is the first present candidate: every candidate before it is absent |
| `Model.NoContentPlaceholder` | app/src/main/java/com/example/notificationrestorer/model/SavedNotification.kt:24-29 | all three fields null gives the placeholder; the placeholder appears only then or when the selected field itself reads "Sin contenido" |
| `Model.PlaceholderIsAmbiguous` | app/src/main/java/com/example/notificationrestorer/model/SavedNotification.kt:25 | a record whose bigText is "Sin contenido" displays the placeholder although it has content |
| `Model.WrapLong` | app/src/main/java/com/example/notificationrestorer/model/SavedNotification.kt:33 | 64-bit subtraction: in-range values are unchanged and the result is congruent to the exact value modulo 2^64 |
| `Model.AgeOf` | app/src/main/java/com/example/notificationrestorer/model/SavedNotification.kt:35-40 | each bucket is chosen exactly on its range (below one minute, negative included, is "just now"); minutes lie in 1..59, hours in 1..23, days are at least 1, and each count is the floor of the difference by its unit |
| `Model.RenderAge` | app/src/main/java/com/example/notificationrestorer/model/SavedNotification.kt:35-40 | the four texts of getFormattedTimestamp; that only the first bucket reads "Hace un momento" is stated by `Model.JustNowExactly` |
| `Model.FormattedTimestamp` | app/src/main/java/com/example/notificationrestorer/model/SavedNotification.kt:31-41 | getFormattedTimestamp with the clock reading as a parameter; stated by `Model.JustNowExactly`, with the buckets by `Model.AgeOf` |
| `Model.JustNowExactly` | app/src/main/java/com/example/notificationrestorer/model/SavedNotification.kt:31-41 | the formatted age reads "Hace un momento" if and only if the wrapped difference is below one minute |
| `Text.IntToString` | app/src/main/java/com/example/notificationrestorer/repository/NotificationRepository.kt:54 | a Long inside a string template is non-empty, starts with '-' exactly when negative, and is digits after that |
| `Text.DecimalRoundTrip` | app/src/main/java/com/example/notificationrestorer/repository/NotificationRepository.kt:54 | reading back the decimal rendering of a number gives the number |
| `Text.IntToStringInjective` | app/src/main/java/com/example/notificationrestorer/repository/NotificationRepository.kt:54 | different numbers render as different strings |
| `Text.SplitAtLastSeparator` | app/src/main/java/com/example/notificationrestorer/repository/NotificationRepository.kt:54 | two strings "x_b" with `_`-free tails are equal only when both prefixes and tails are equal |
| `Text.StartsWith` | app/src/main/java/com/example/notificationrestorer/service/NotificationListenerService.kt:140 | `startsWith`; its use is stated by `Service.CaptureRule` |
| `Text.IsBlank` | app/src/main/java/com/example/notificationrestorer/ui/viewmodel/MainViewModel.kt:127 | `isBlank`: every character is whitespace; its use is stated by `ViewModel.FilterByQueryProperties` |
| `Text.ContainsIgnoreCase` | app/src/main/java/com/example/notificationrestorer/ui/viewmodel/MainViewModel.kt:131-133 | `contains(ignoreCase = true)`; stated by `Text.ContainsIgnoreCaseIsFoldedContains` |
| `Repository.KeyInjective` | app/src/main/java/com/example/notificationrestorer/service/NotificationListenerService.kt:62 | the key "package_id_time" determines package, id and time even when the package name contains '_' |
| `Repository.Key` | app/src/main/java/com/example/notificationrestorer/repository/NotificationRepository.kt:54 | the key "package_id_time"; stated by `Repository.KeyInjective` |
| `Repository.RecordKey` | app/src/main/java/com/example/notificationrestorer/repository/NotificationRepository.kt:54 | the key the store derives from a record; how it meets removal keys is stated by `Service.RemovalKeyMatchesIff` |
| `Text.ContainsIgnoreCaseIsFoldedContains` | app/src/main/java/com/example/notificationrestorer/ui/viewmodel/MainViewModel.kt:131-133 | an ignore-case `contains` holds exactly when the case-folded query occurs in the case-folded text |
| `Text.CodeUnits` | app/src/main/java/com/example/notificationrestorer/ui/viewmodel/MainViewModel.kt:140 | one character as UTF-16: itself below U+10000, otherwise a high surrogate then a low surrogate that decode back to the character |
| `Text.Utf16` | app/src/main/java/com/example/notificationrestorer/ui/viewmodel/MainViewModel.kt:140 | the JVM string of a Dafny string has between one and two code units per character |
| `Text.LexLe` | app/src/main/java/com/example/notificationrestorer/ui/viewmodel/MainViewModel.kt:140 | `compareTo(b) <= 0` on code units; totality and transitivity are `Text.LexLeTotal` and `Text.LexLeTransitive` |
| `Text.SurrogatesSortBeforeHighBmp` | app/src/main/java/com/example/notificationrestorer/ui/viewmodel/MainViewModel.kt:140 | the order is not code-point order: U+1F600 sorts before U+FF21 and not after it |
| `Text.LexLeTotal` | app/src/main/java/com/example/notificationrestorer/ui/viewmodel/MainViewModel.kt:140 | any two app names are comparable under `compareTo` on their UTF-16 encodings |
| `Text.LexLeTransitive` | app/src/main/java/com/example/notificationrestorer/ui/viewmodel/MainViewModel.kt:140 | the `compareTo` order on app names is transitive |
| `Repository.FirstMatch` | app/src/main/java/com/example/notificationrestorer/repository/NotificationRepository.kt:54 | the index found is the first whose record key equals the key, and none is found only when no record's key matches |
| `Repository.IndexOfFirst` | app/src/main/java/com/example/notificationrestorer/repository/NotificationRepository.kt:54 | the loop returns -1 exactly when no key matches, and otherwise the first matching index |
| `Repository.Saved` | app/src/main/java/com/example/notificationrestorer/repository/NotificationRepository.kt:34-45 | the list after saveNotification; stated by `Repository.SavedProperties` and `Repository.SaveAllDistinct` |
| `Repository.MarkDismissed` | app/src/main/java/com/example/notificationrestorer/repository/NotificationRepository.kt:53-59 | the list after markAsDismissed; stated by `Repository.MarkDismissedEffect` and `Repository.MarkDismissedIdempotent` |
| `Repository.WithoutId` | app/src/main/java/com/example/notificationrestorer/repository/NotificationRepository.kt:65 | `filter { it.id != id }`; stated by `Repository.DeleteProperties` |
| `Repository.ActiveOf` | app/src/main/java/com/example/notificationrestorer/repository/NotificationRepository.kt:82 | `filter { !it.isDismissed }`; stated by `Repository.ActiveDismissedPartition` |
| `Repository.DismissedOf` | app/src/main/java/com/example/notificationrestorer/repository/NotificationRepository.kt:86 | `filter { it.isDismissed }`; stated by `Repository.ActiveDismissedPartition` |
| `Repository.SavedProperties` | app/src/main/java/com/example/notificationrestorer/repository/NotificationRepository.kt:32-49 | after saving `n`: at most 100 records; `n` is the head; no other record has `n`'s id; the tail is the old list without that id, in order, cut to 99; unique ids stay unique |
| `Repository.SavedFreshIdKeepsAll` | app/src/main/java/com/example/notificationrestorer/repository/NotificationRepository.kt:37-45 | saving a record with a new id into a list with room prepends it and loses nothing |
| `Repository.SaveAllBounded` | app/src/main/java/com/example/notificationrestorer/repository/NotificationRepository.kt:17 | any sequence of saves keeps the store within 100 records with unique ids |
| `Repository.SaveAllDistinct` | app/src/main/java/com/example/notificationrestorer/repository/NotificationRepository.kt:40-45 | saving records with distinct ids into an empty store leaves the newest 100 of them, newest first |
| `Repository.OverflowEvictsOldest` | app/src/main/java/com/example/notificationrestorer/repository/NotificationRepository.kt:43-45 | after 101 saves of distinct records the store holds 100 and the first record saved is gone |
| `Repository.MarkDismissedEffect` | app/src/main/java/com/example/notificationrestorer/repository/NotificationRepository.kt:51-61 | dismissal keeps the length; with no matching key the list is unchanged; otherwise only the first match changes, and only its flag becomes true |
| `Repository.MarkDismissedKeepsIds` | app/src/main/java/com/example/notificationrestorer/repository/NotificationRepository.kt:57 | dismissal keeps every id in place, so unique ids stay unique |
| `Repository.MarkDismissedIdempotent` | app/src/main/java/com/example/notificationrestorer/repository/NotificationRepository.kt:54-57 | dismissing twice with the same key equals dismissing once |
| `Repository.DeleteProperties` | app/src/main/java/com/example/notificationrestorer/repository/NotificationRepository.kt:63-67 | deletion keeps exactly the records with another id, in order; an absent id changes nothing; with unique ids a present id removes one record |
| `Repository.DeleteRemovesOne` | app/src/main/java/com/example/notificationrestorer/repository/NotificationRepository.kt:65 | with unique ids, deleting the id of record `i` removes exactly position `i` |
| `Repository.ActiveDismissedPartition` | app/src/main/java/com/example/notificationrestorer/repository/NotificationRepository.kt:81-87 | active and dismissed records split the list: each record is in exactly one part, each part keeps list order, and the sizes add up |
| `Repository.NotificationStore.constructor` | app/src/main/java/com/example/notificationrestorer/repository/NotificationRepository.kt:13 | the store starts empty and valid |
| `Repository.NotificationStore.SaveNotification` | app/src/main/java/com/example/notificationrestorer/repository/NotificationRepository.kt:32-49 | the new list is `Saved(old list, n)`, and the capacity and unique-id invariant is kept |
| `Repository.NotificationStore.MarkAsDismissed` | app/src/main/java/com/example/notificationrestorer/repository/NotificationRepository.kt:51-61 | the new list is `MarkDismissed(old list, key)`, and the invariant is kept |
| `Repository.NotificationStore.DeleteNotification` | app/src/main/java/com/example/notificationrestorer/repository/NotificationRepository.kt:63-67 | the new list is the old one without that id, and the invariant is kept |
| `Repository.NotificationStore.ClearAll` | app/src/main/java/com/example/notificationrestorer/repository/NotificationRepository.kt:69-73 | the list becomes empty |
| `Repository.NotificationStore.ClearDismissed` | app/src/main/java/com/example/notificationrestorer/repository/NotificationRepository.kt:75-79 | the new list is the old list's active records, and the invariant is kept |
| `Repository.NotificationStore.GetActiveNotifications` | app/src/main/java/com/example/notificationrestorer/repository/NotificationRepository.kt:81-83 | returns the active records in list order; none is dismissed |
| `Repository.NotificationStore.GetDismissedNotifications` | app/src/main/java/com/example/notificationrestorer/repository/NotificationRepository.kt:85-87 | returns the dismissed records in list order; all are dismissed |
| `ViewModel.FilterByQueryProperties` | app/src/main/java/com/example/notificationrestorer/ui/viewmodel/MainViewModel.kt:127-135 | a blank query returns the list unchanged; otherwise the result is an order-preserving subsequence holding exactly the records whose app name, title or text contains the query, ignoring case |
| `ViewModel.MatchesQuery` | app/src/main/java/com/example/notificationrestorer/ui/viewmodel/MainViewModel.kt:130-134 | the search test on app name, title and text; stated by `ViewModel.MatchIgnoresSubTextAndBigText` and `ViewModel.SubTextOnlyMatchIsExcluded` |
| `ViewModel.FilterByQuery` | app/src/main/java/com/example/notificationrestorer/ui/viewmodel/MainViewModel.kt:127-135 | the filter step of filterAndSort; stated by `ViewModel.FilterByQueryProperties` |
| `ViewModel.MatchIgnoresSubTextAndBigText` | app/src/main/java/com/example/notificationrestorer/ui/viewmodel/MainViewModel.kt:131-133 | changing subText or bigText never changes whether a record matches |
| `ViewModel.SubTextOnlyMatchIsExcluded` | app/src/main/java/com/example/notificationrestorer/ui/viewmodel/MainViewModel.kt:130-134 | a record matching a non-blank query only in subText or bigText is filtered out |
| `ViewModel.InOrderTotal` | app/src/main/java/com/example/notificationrestorer/ui/viewmodel/MainViewModel.kt:137-141 | each of the three orders relates any two records one way or the other |
| `ViewModel.InOrderTransitive` | app/src/main/java/com/example/notificationrestorer/ui/viewmodel/MainViewModel.kt:137-141 | each of the three orders is transitive |
| `ViewModel.SortedPairwise` | app/src/main/java/com/example/notificationrestorer/ui/viewmodel/MainViewModel.kt:137-141 | a list whose neighbours are in order has every pair in order |
| `ViewModel.Insert` | app/src/main/java/com/example/notificationrestorer/ui/viewmodel/MainViewModel.kt:137-141 | inserting into a sorted list gives a sorted list holding the old elements plus the new one |
| `ViewModel.Sort` | app/src/main/java/com/example/notificationrestorer/ui/viewmodel/MainViewModel.kt:137-141 | `sortedBy`/`sortedByDescending` return a sorted permutation of their input: non-increasing timestamps, non-decreasing timestamps, or non-decreasing app names; stability is `ViewModel.SortIsStable` |
| `ViewModel.FilterAndSort` | app/src/main/java/com/example/notificationrestorer/ui/viewmodel/MainViewModel.kt:122-142 | the result is sorted in the chosen order and is a permutation of the filtered list; the order of tied records is `ViewModel.FilterAndSortIsStable` |
| `ViewModel.TiedAreInOrder` | app/src/main/java/com/example/notificationrestorer/ui/viewmodel/MainViewModel.kt:137-141 | two records with the same sort key as a third may come in either order |
| `ViewModel.InsertKeepsTieOrder` | app/src/main/java/com/example/notificationrestorer/ui/viewmodel/MainViewModel.kt:137-141 | inserting a record places it before every record with the same key, and those records keep their order |
| `ViewModel.SortIsStable` | app/src/main/java/com/example/notificationrestorer/ui/viewmodel/MainViewModel.kt:137-141 | the sorts are stable: the records with any given key appear in the result in their input order |
| `ViewModel.FilterAndSortIsStable` | app/src/main/java/com/example/notificationrestorer/ui/viewmodel/MainViewModel.kt:122-142 | records with the same key keep the order the filter left them in; under APP_NAME that is the store order within one app |
| `ViewModel.SameAppNameIsTied` | app/src/main/java/com/example/notificationrestorer/ui/viewmodel/MainViewModel.kt:140 | under APP_NAME, records with the same app name have the same key |
| `ViewModel.SortExample` | app/src/main/java/com/example/notificationrestorer/ui/viewmodel/MainViewModel.kt:138 | records posted at 100, 200 and 150 show as 200, 150, 100 when sorted by time descending |
| `ViewModel.AscendingIsUnique` | app/src/main/java/com/example/notificationrestorer/ui/viewmodel/MainViewModel.kt:139 | without timestamp ties, two ascending arrangements of the same records are equal |
| `ViewModel.TimeDescIsReversedTimeAsc` | app/src/main/java/com/example/notificationrestorer/ui/viewmodel/MainViewModel.kt:138-139 | without timestamp ties, the time-descending result is the time-ascending result reversed |
| `ViewModel.TabsProperties` | app/src/main/java/com/example/notificationrestorer/ui/viewmodel/MainViewModel.kt:46-56 | the active list holds only non-dismissed records of the snapshot and the dismissed list only dismissed ones; with a blank query together they hold every record exactly once |
| `ViewModel.ViewDrawsFrom` | app/src/main/java/com/example/notificationrestorer/ui/viewmodel/MainViewModel.kt:122-142 | everything a view shows comes from its input list |
| `ViewModel.MainViewModel.constructor` | app/src/main/java/com/example/notificationrestorer/ui/viewmodel/MainViewModel.kt:35 | the state starts with empty lists, an empty query, the active tab and time-descending order |
| `ViewModel.MainViewModel.UpdateNotifications` | app/src/main/java/com/example/notificationrestorer/ui/viewmodel/MainViewModel.kt:46-56 | both lists are recomputed from the snapshot with the current query and order; query, tab and order are unchanged |
| `ViewModel.MainViewModel.SetSelectedTab` | app/src/main/java/com/example/notificationrestorer/ui/viewmodel/MainViewModel.kt:58-60 | only the selected tab changes |
| `ViewModel.MainViewModel.SetFilterQuery` | app/src/main/java/com/example/notificationrestorer/ui/viewmodel/MainViewModel.kt:62-77 | the query and both lists change; the lists are re-read from the store with the new query; tab and order are unchanged |
| `ViewModel.MainViewModel.SetSortBy` | app/src/main/java/com/example/notificationrestorer/ui/viewmodel/MainViewModel.kt:79-94 | the order and both lists change; the lists are re-read from the store in the new order; tab and query are unchanged |
| `ViewModel.MainViewModel.DeleteNotification` | app/src/main/java/com/example/notificationrestorer/ui/viewmodel/MainViewModel.kt:96-100 | the store loses exactly the records with that id |
| `ViewModel.MainViewModel.ClearAll` | app/src/main/java/com/example/notificationrestorer/ui/viewmodel/MainViewModel.kt:102-106 | the store becomes empty |
| `ViewModel.MainViewModel.ClearDismissed` | app/src/main/java/com/example/notificationrestorer/ui/viewmodel/MainViewModel.kt:108-112 | the store keeps only its active records |
| `Service.GetAppName` | app/src/main/java/com/example/notificationrestorer/service/NotificationListenerService.kt:99-106 | the resolved label when the lookup succeeds, the package name when it fails |
| `Service.ShouldIgnoreNotification` | app/src/main/java/com/example/notificationrestorer/service/NotificationListenerService.kt:136-151 | shouldIgnoreNotification; stated by `Service.CaptureRule` and `Service.EmptyTitleIsContent` |
| `Service.IsOngoing` | app/src/main/java/com/example/notificationrestorer/service/NotificationListenerService.kt:93 | the ongoing-event flag test; stated by `Service.OngoingDependsOnlyOnItsBit` |
| `Service.CapturePosted` | app/src/main/java/com/example/notificationrestorer/service/NotificationListenerService.kt:37-46 | the decision of onNotificationPosted; stated by `Service.CaptureRule` and `Service.OwnPackageNeverCaptured` |
| `Service.RemovalKey` | app/src/main/java/com/example/notificationrestorer/service/NotificationListenerService.kt:62 | the key onNotificationRemoved builds; stated by `Service.RemovalKeyMatchesIff` |
| `Service.OngoingDependsOnlyOnItsBit` | app/src/main/java/com/example/notificationrestorer/service/NotificationListenerService.kt:93 | whether a notification is ongoing depends on the ongoing-event bit alone: setting it makes the notification ongoing and clearing it makes it not ongoing |
| `Service.CreateSavedNotification` | app/src/main/java/com/example/notificationrestorer/service/NotificationListenerService.kt:75-97 | the record has id and timestamp equal to the post time, the event's package, the resolved app name, the four texts, the icon, intent, category and priority of the notification, is not dismissed, and is ongoing exactly when the flag bit is set |
| `Service.CaptureRule` | app/src/main/java/com/example/notificationrestorer/service/NotificationListenerService.kt:37-46 | a posted event is stored exactly when it carries a notification, does not come from this app or a "com.android" package, and has a title or a text; the stored record has id == timestamp == post time |
| `Service.OwnPackageNeverCaptured` | app/src/main/java/com/example/notificationrestorer/service/NotificationListenerService.kt:42 | an event from this app's own package is never stored |
| `Service.EmptyTitleIsContent` | app/src/main/java/com/example/notificationrestorer/service/NotificationListenerService.kt:145-148 | an empty-string title counts as content: such an event is not discarded for lack of content |
| `Service.RemovalKeyMatchesIff` | app/src/main/java/com/example/notificationrestorer/service/NotificationListenerService.kt:62 | the removal key equals the key of the record built from the same event exactly when the event's id equals its post time |
| `Service.RemovalWithOtherIdIsNoOp` | app/src/main/java/com/example/notificationrestorer/service/NotificationListenerService.kt:60-73 | in a store whose records all have id == timestamp, a removal event whose id differs from its post time changes nothing |
| `Service.RemovalOfRealEventIsNoOp` | app/src/main/java/com/example/notificationrestorer/service/NotificationListenerService.kt:60-73 | in a store whose records all have id == timestamp, removing an event whose post time exceeds the largest `Int` changes nothing |
| `Service.PostThenRemove` | app/src/main/java/com/example/notificationrestorer/service/NotificationListenerService.kt:37-73 | posting an event and then removing it dismisses the new head exactly when the event's id equals its post time, and otherwise leaves the store as the post left it |
| `Service.NotificationListener.constructor` | app/src/main/java/com/example/notificationrestorer/service/NotificationListenerService.kt:31-35 | the listener knows its own package and the store it writes to |
| `Service.NotificationListener.OnNotificationPosted` | app/src/main/java/com/example/notificationrestorer/service/NotificationListenerService.kt:37-58 | the store gains the captured record by the save rule, or is unchanged when the event is not captured |
| `Service.NotificationListener.OnNotificationRemoved` | app/src/main/java/com/example/notificationrestorer/service/NotificationListenerService.kt:60-73 | the store becomes `MarkDismissed` of its old list with the event's removal key |

## Left out

- Concurrency is not modelled: the store's `Mutex`, the coroutine launches, and
  `StateFlow` publication and collection. Each store operation is one atomic
  method. The view model's collection of the store's flow is the separate call
  `UpdateNotifications(snapshot)`. The service's asynchronous save and dismissal
  are applied at once.
- The `@Volatile`/`synchronized` singleton `getInstance` is not modelled; the
  store object is passed to the view model and the listener.
- The UI broadcasts (`sendBroadcast`), logging and the lifecycle hooks other
  than creation are left out. So are the exception handlers of the two event
  callbacks, which only log.
- `getApplicationInfo`/`getApplicationLabel` is an input: the label, or `None`
  when the lookup throws.
- Icon loading and `drawableToBitmap` are left out: the icon is an input, an
  optional opaque `Bitmap`.
- `System.currentTimeMillis()` is left out. The clock reading is the parameter
  `now` of `Model.FormattedTimestamp`. The two separate readings that default a
  record's id and timestamp are the parameters `idNow` and `timestampNow` of
  `Model.NewSavedNotification`.
- `restoreNotification` (`PendingIntent.send`) calls into the OS and is not
  modelled; the intent is an opaque value carried in the record.
- `isNotificationListenerEnabled`, `MainScreen.kt`, `NotificationList.kt` and
  `MainActivity.kt` are presentation and OS plumbing; they are not part of this
  model.
- `Text.LowerString`: case folding covers ASCII letters only. Kotlin's
  ignore-case comparison also folds non-ASCII letters.
- `Text.IsBlank`: whitespace is the fixed set of characters the JVM treats as
  whitespace, listed out.
- `Service.OngoingDependsOnlyOnItsBit`: the flags are a 32-bit vector, and the
  lemma speaks of the bit, not of the integer value of the flags.

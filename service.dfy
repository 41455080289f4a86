/** Event normalisation and ingestion (`NotificationListenerService`): which
    posted events become records, how a record is built from an event, and
    the key a removal event uses to find its record. */
module Service {
  import opened Wrappers
  import opened Model
  import opened Repository
  import Seqs
  import Text

  /** `Notification.FLAG_ONGOING_EVENT`. */
  const FLAG_ONGOING_EVENT: bv32 := 0x0000_0002

  /** Prefix of the system packages whose notifications are not captured. */
  const SYSTEM_PREFIX: string := "com.android"

  /** The texts of a notification's extras bundle; each may be absent. */
  datatype Extras = Extras(
    title: Option<string>,
    text: Option<string>,
    subText: Option<string>,
    bigText: Option<string>)

  /** The parts of an Android `Notification` the service reads. */
  datatype Notification = Notification(
    extras: Extras,
    flags: bv32,
    category: Option<string>,
    priority: Int32,
    contentIntent: Option<PendingIntent>)

  /** A posted or removed event (`StatusBarNotification`). Its `id` is the
      number the posting app chose; `postTime` is the posting time. */
  datatype StatusBarNotification = StatusBarNotification(
    packageName: string,
    id: Int32,
    postTime: Long,
    notification: Option<Notification>)

  // ---------------------------------------------------------------------------
  // Normalisation
  // ---------------------------------------------------------------------------

  /** shouldIgnoreNotification: system packages, and notifications with
      neither a title nor a text. */
  predicate ShouldIgnoreNotification(packageName: string, notification: Notification) {
    || Text.StartsWith(packageName, SYSTEM_PREFIX)
    || (notification.extras.title.None? && notification.extras.text.None?)
  }

  /** getAppName: the label the package manager resolved, or the package name
      when the lookup failed (`appLabel == None`). */
  function GetAppName(packageName: string, appLabel: Option<string>): (r: string)
    ensures appLabel.Some? ==> r == appLabel.value
    ensures appLabel.None? ==> r == packageName
  {
    appLabel.GetOr(packageName)
  }

  /** The ongoing bit of the flags. */
  predicate IsOngoing(flags: bv32) {
    flags & FLAG_ONGOING_EVENT != 0
  }

  /** Only the ongoing bit decides: setting it makes a notification ongoing,
      clearing it makes it not ongoing, whatever the other flags are. */
  lemma OngoingDependsOnlyOnItsBit(flags: bv32)
    ensures IsOngoing(flags) <==> IsOngoing(flags & FLAG_ONGOING_EVENT)
    ensures IsOngoing(flags | FLAG_ONGOING_EVENT)
    ensures !IsOngoing(flags & !FLAG_ONGOING_EVENT)
  {
  }

  /** createSavedNotification, with the package manager's label and the icon
      rendering passed in as their outcomes. */
  function CreateSavedNotification(sbn: StatusBarNotification, notification: Notification,
                                   appLabel: Option<string>, icon: Option<Bitmap>): (r: SavedNotification)
    ensures r.id == sbn.postTime && r.timestamp == sbn.postTime
    ensures r.packageName == sbn.packageName
    ensures r.appName == GetAppName(sbn.packageName, appLabel)
    ensures r.title == notification.extras.title && r.text == notification.extras.text
    ensures r.subText == notification.extras.subText && r.bigText == notification.extras.bigText
    ensures r.icon == icon && r.pendingIntent == notification.contentIntent
    ensures !r.isDismissed
    ensures r.isOngoing == IsOngoing(notification.flags)
    ensures r.category == notification.category && r.priority == notification.priority
  {
    var extras := notification.extras;
    SavedNotification(
      id := sbn.postTime,
      packageName := sbn.packageName,
      appName := GetAppName(sbn.packageName, appLabel),
      title := extras.title,
      text := extras.text,
      subText := extras.subText,
      bigText := extras.bigText,
      icon := icon,
      timestamp := sbn.postTime,
      pendingIntent := notification.contentIntent,
      isDismissed := false,  // the constructor's default
      isOngoing := IsOngoing(notification.flags),
      category := notification.category,
      priority := notification.priority)
  }

  /** The decision of onNotificationPosted: the record to save, or None when
      the event carries no notification, comes from this app (`ownPackage`)
      or is ignored. */
  function CapturePosted(sbn: StatusBarNotification, ownPackage: string,
                         appLabel: Option<string>, icon: Option<Bitmap>): Option<SavedNotification>
  {
    match sbn.notification
    case None => None
    case Some(notification) =>
      if sbn.packageName == ownPackage || ShouldIgnoreNotification(sbn.packageName, notification) then None
      else Some(CreateSavedNotification(sbn, notification, appLabel, icon))
  }

  /** The key onNotificationRemoved builds: package, the event's own id, post time. */
  function RemovalKey(sbn: StatusBarNotification): string {
    Key(sbn.packageName, sbn.id, sbn.postTime)
  }

  // ---------------------------------------------------------------------------
  // Properties of normalisation
  // ---------------------------------------------------------------------------

  /** A posted event is captured exactly when it has a notification, is not
      from this app nor from a package starting with "com.android", and has a
      title or a text; an empty title or text counts as present. The record
      then carries the post time as both id and timestamp. */
  lemma CaptureRule(sbn: StatusBarNotification, ownPackage: string, appLabel: Option<string>, icon: Option<Bitmap>)
    ensures CapturePosted(sbn, ownPackage, appLabel, icon).Some? <==>
      && sbn.notification.Some?
      && sbn.packageName != ownPackage
      && !Text.StartsWith(sbn.packageName, SYSTEM_PREFIX)
      && (sbn.notification.value.extras.title.Some? || sbn.notification.value.extras.text.Some?)
    ensures CapturePosted(sbn, ownPackage, appLabel, icon).Some? ==>
      var n := CapturePosted(sbn, ownPackage, appLabel, icon).value;
      n.id == n.timestamp == sbn.postTime && !n.isDismissed && n.packageName == sbn.packageName
  {
  }

  /** Events from this app are never stored. */
  lemma OwnPackageNeverCaptured(sbn: StatusBarNotification, appLabel: Option<string>, icon: Option<Bitmap>)
    ensures CapturePosted(sbn, sbn.packageName, appLabel, icon) == None
  {
  }

  /** An event with an empty-string title is captured even without a text. */
  lemma EmptyTitleIsContent(sbn: StatusBarNotification, ownPackage: string, appLabel: Option<string>, icon: Option<Bitmap>)
    requires sbn.notification.Some? && sbn.notification.value.extras.title == Some("")
    requires sbn.packageName != ownPackage && !Text.StartsWith(sbn.packageName, SYSTEM_PREFIX)
    ensures CapturePosted(sbn, ownPackage, appLabel, icon).Some?
  {
  }

  /** The removal key of an event equals the key of the record captured from
      that same event exactly when the event's id equals its post time: the
      record's id was set to the post time. */
  lemma RemovalKeyMatchesIff(sbn: StatusBarNotification, ownPackage: string, appLabel: Option<string>, icon: Option<Bitmap>)
    requires CapturePosted(sbn, ownPackage, appLabel, icon).Some?
    ensures RemovalKey(sbn) == RecordKey(CapturePosted(sbn, ownPackage, appLabel, icon).value) <==> sbn.id == sbn.postTime
  {
    var n := CapturePosted(sbn, ownPackage, appLabel, icon).value;
    if RemovalKey(sbn) == RecordKey(n) {
      KeyInjective(sbn.packageName, sbn.id, sbn.postTime, n.packageName, n.id, n.timestamp);
    }
  }

  /** Every record the service stores has `id == timestamp`. In a store of
      such records a removal event whose id differs from its post time finds
      nothing, so it changes nothing. */
  lemma RemovalWithOtherIdIsNoOp(s: seq<SavedNotification>, sbn: StatusBarNotification)
    requires forall i :: 0 <= i < |s| ==> s[i].id == s[i].timestamp
    requires sbn.id != sbn.postTime
    ensures MarkDismissed(s, RemovalKey(sbn)) == s
  {
    forall j | 0 <= j < |s| ensures RecordKey(s[j]) != RemovalKey(sbn) {
      if RecordKey(s[j]) == RemovalKey(sbn) {
        KeyInjective(s[j].packageName, s[j].id, s[j].timestamp, sbn.packageName, sbn.id, sbn.postTime);
      }
    }
  }

  /** A post time is a clock reading in epoch milliseconds, far above the
      largest `Int` an event id can hold, so for a real event the removal
      finds nothing and changes nothing. */
  lemma RemovalOfRealEventIsNoOp(s: seq<SavedNotification>, sbn: StatusBarNotification)
    requires forall i :: 0 <= i < |s| ==> s[i].id == s[i].timestamp
    requires sbn.postTime > 0x7FFF_FFFF
    ensures MarkDismissed(s, RemovalKey(sbn)) == s
  {
    RemovalWithOtherIdIsNoOp(s, sbn);
  }

  /** Posting an event and then removing it: the record is at the head of the
      store, and the removal marks it dismissed exactly when the event's id
      equals its post time (given every stored record has id == timestamp). */
  lemma PostThenRemove(s: seq<SavedNotification>, sbn: StatusBarNotification, ownPackage: string,
                       appLabel: Option<string>, icon: Option<Bitmap>)
    requires forall i :: 0 <= i < |s| ==> s[i].id == s[i].timestamp
    requires CapturePosted(sbn, ownPackage, appLabel, icon).Some?
    ensures
      var n := CapturePosted(sbn, ownPackage, appLabel, icon).value;
      var after := MarkDismissed(Saved(s, n), RemovalKey(sbn));
      && after[0].isDismissed == (sbn.id == sbn.postTime)
      && (sbn.id != sbn.postTime ==> after == Saved(s, n))
  {
    var n := CapturePosted(sbn, ownPackage, appLabel, icon).value;
    var saved := Saved(s, n);
    SavedProperties(s, n);
    RemovalKeyMatchesIff(sbn, ownPackage, appLabel, icon);
    if sbn.id == sbn.postTime {
      assert FirstMatch(saved, RemovalKey(sbn)) == Some(0);
    } else {
      forall i | 0 <= i < |saved| ensures saved[i].id == saved[i].timestamp {
        if i > 0 {
          assert saved[i] in saved[1..];
          Seqs.SubsequenceMembers(saved[1..], s, saved[i]);
        }
      }
      RemovalWithOtherIdIsNoOp(saved, sbn);
    }
  }

  // ---------------------------------------------------------------------------
  // The listener
  // ---------------------------------------------------------------------------

  class NotificationListener {
    /** This app's own package name. */
    const packageName: string
    const repository: NotificationStore

    constructor(packageName: string, repository: NotificationStore)
      ensures this.packageName == packageName && this.repository == repository
    {
      this.packageName := packageName;
      this.repository := repository;
    }

    /** onNotificationPosted: saves the captured record, if any. `appLabel` and
        `icon` are the outcomes of the package-manager lookup and the icon
        rendering. */
    method OnNotificationPosted(sbn: StatusBarNotification, appLabel: Option<string>, icon: Option<Bitmap>)
      requires repository.Valid()
      modifies repository
      ensures repository.Valid()
      ensures repository.notifications ==
        match CapturePosted(sbn, packageName, appLabel, icon)
        case None => old(repository.notifications)
        case Some(n) => Saved(old(repository.notifications), n)
    {
      if sbn.notification.None? {
        return;
      }
      var notification := sbn.notification.value;
      if sbn.packageName == packageName || ShouldIgnoreNotification(sbn.packageName, notification) {
        return;
      }
      var savedNotification := CreateSavedNotification(sbn, notification, appLabel, icon);
      repository.SaveNotification(savedNotification);
    }

    /** onNotificationRemoved: marks the matching record dismissed. */
    method OnNotificationRemoved(sbn: StatusBarNotification)
      requires repository.Valid()
      modifies repository
      ensures repository.Valid()
      ensures repository.notifications == MarkDismissed(old(repository.notifications), RemovalKey(sbn))
    {
      var key := RemovalKey(sbn);
      repository.MarkAsDismissed(key);
    }
  }
}

/** The captured notification record (`SavedNotification`) and the rules that
    turn it into display text. */
module Model {
  import opened Wrappers
  import Text

  // ---------------------------------------------------------------------------
  // Kotlin integer widths
  // ---------------------------------------------------------------------------

  const MIN_LONG: int := -0x8000_0000_0000_0000
  const MAX_LONG: int := 0x7FFF_FFFF_FFFF_FFFF
  const LONG_RANGE: int := 0x1_0000_0000_0000_0000

  /** Kotlin `Long`: ids and timestamps (milliseconds). */
  type Long = x: int | MIN_LONG <= x <= MAX_LONG

  /** Kotlin `Int`: the notification id chosen by the posting app, the priority. */
  type Int32 = x: int | -0x8000_0000 <= x <= 0x7FFF_FFFF

  /** Two's-complement wrap-around of a 64-bit subtraction or addition. */
  function WrapLong(x: int): (r: Long)
    ensures MIN_LONG <= x <= MAX_LONG ==> r == x
    ensures (r - x) % LONG_RANGE == 0
  {
    (x - MIN_LONG) % LONG_RANGE + MIN_LONG
  }

  // ---------------------------------------------------------------------------
  // The record
  // ---------------------------------------------------------------------------

  /** An application icon; its pixels are not modelled. */
  datatype Bitmap = Bitmap(handle: nat)

  /** The action the posting app attached; opaque here. */
  datatype PendingIntent = PendingIntent(handle: nat)

  /** One captured notification. A record that is not given `isDismissed`
      starts with `isDismissed == false`. */
  datatype SavedNotification = SavedNotification(
    id: Long,
    packageName: string,
    appName: string,
    title: Option<string>,
    text: Option<string>,
    subText: Option<string>,
    bigText: Option<string>,
    icon: Option<Bitmap>,
    timestamp: Long,
    pendingIntent: Option<PendingIntent>,
    isDismissed: bool,
    isOngoing: bool,
    category: Option<string>,
    priority: Int32)

  /** The record built from the required fields alone, every other field
      taking its declared default. `id` and `timestamp` each default to a
      separate clock reading, `idNow` and `timestampNow`, which may differ. */
  function NewSavedNotification(idNow: Long, timestampNow: Long, packageName: string, appName: string,
                                title: Option<string>, text: Option<string>,
                                subText: Option<string>, bigText: Option<string>): (r: SavedNotification)
    ensures r.id == idNow && r.timestamp == timestampNow
    ensures r.packageName == packageName && r.appName == appName
    ensures r.title == title && r.text == text && r.subText == subText && r.bigText == bigText
    ensures !r.isDismissed && !r.isOngoing
    ensures r.icon.None? && r.pendingIntent.None? && r.category.None? && r.priority == 0
  {
    SavedNotification(idNow, packageName, appName, title, text, subText, bigText,
                      None, timestampNow, None, false, false, None, 0)
  }

  // ---------------------------------------------------------------------------
  // Display rules
  // ---------------------------------------------------------------------------

  /** The title, or the app name when the notification had none. */
  function DisplayTitle(n: SavedNotification): (r: string)
    ensures n.title.Some? ==> r == n.title.value
    ensures n.title.None? ==> r == n.appName
  {
    n.title.GetOr(n.appName)
  }

  const NO_CONTENT: string := "Sin contenido"

  /** The most detailed text available: expanded text, then text, then sub-text. */
  function DisplayText(n: SavedNotification): string {
    if n.bigText.Some? then n.bigText.value
    else if n.text.Some? then n.text.value
    else if n.subText.Some? then n.subText.value
    else NO_CONTENT
  }

  /** The first present value of a priority list, as a reference definition:
      every candidate before it is absent. */
  function FirstPresent(candidates: seq<Option<string>>): (r: Option<string>)
    ensures r.None? <==> forall i :: 0 <= i < |candidates| ==> candidates[i].None?
    ensures r.Some? ==> exists i :: 0 <= i < |candidates| && candidates[i] == r
                                   && forall j :: 0 <= j < i ==> candidates[j].None?
  {
    if candidates == [] then None
    else if candidates[0].Some? then candidates[0]
    else FirstPresent(candidates[1..])
  }

  /** The display text is the first present field in the order bigText, text,
      subText, and the placeholder when none is present. */
  lemma DisplayTextFollowsPriority(n: SavedNotification)
    ensures DisplayText(n) == FirstPresent([n.bigText, n.text, n.subText]).GetOr(NO_CONTENT)
  {
    var c := [n.bigText, n.text, n.subText];
    assert c[1..] == [n.text, n.subText] && c[1..][1..] == [n.subText];
    assert FirstPresent(c[1..][1..]) == n.subText;
    assert FirstPresent(c[1..]) == if n.text.Some? then n.text else n.subText;
  }

  /** The placeholder appears when all three fields are absent; otherwise it
      appears only if the chosen field itself reads "Sin contenido". */
  lemma NoContentPlaceholder(n: SavedNotification)
    ensures n.bigText.None? && n.text.None? && n.subText.None? ==> DisplayText(n) == NO_CONTENT
    ensures DisplayText(n) == NO_CONTENT ==>
      (n.bigText.None? && n.text.None? && n.subText.None?)
      || n.bigText == Some(NO_CONTENT)
      || (n.bigText.None? && n.text == Some(NO_CONTENT))
      || (n.bigText.None? && n.text.None? && n.subText == Some(NO_CONTENT))
  {
  }

  /** The placeholder is not a reliable "no content" signal: a record whose
      expanded text is literally "Sin contenido" shows the same string. */
  lemma PlaceholderIsAmbiguous(n: SavedNotification)
    requires n.bigText == Some(NO_CONTENT)
    ensures DisplayText(n) == NO_CONTENT && !(n.bigText.None? && n.text.None? && n.subText.None?)
  {
  }

  // ---------------------------------------------------------------------------
  // Relative age ("Hace ...")
  // ---------------------------------------------------------------------------

  const MINUTE_MS: int := 60_000
  const HOUR_MS: int := 3600_000
  const DAY_MS: int := 86400_000

  datatype Age = JustNow | Minutes(minutes: int) | Hours(hours: int) | Days(days: int)

  /** Buckets a difference in milliseconds, as the `when` of getFormattedTimestamp.
      A difference below one minute, negative ones included, is "just now". */
  function AgeOf(diff: Long): (a: Age)
    ensures a.JustNow? <==> diff < MINUTE_MS
    ensures a.Minutes? <==> MINUTE_MS <= diff < HOUR_MS
    ensures a.Hours? <==> HOUR_MS <= diff < DAY_MS
    ensures a.Days? <==> DAY_MS <= diff
    ensures a.Minutes? ==> 1 <= a.minutes <= 59 && a.minutes * MINUTE_MS <= diff < (a.minutes + 1) * MINUTE_MS
    ensures a.Hours? ==> 1 <= a.hours <= 23 && a.hours * HOUR_MS <= diff < (a.hours + 1) * HOUR_MS
    ensures a.Days? ==> 1 <= a.days && a.days * DAY_MS <= diff < (a.days + 1) * DAY_MS
  {
    if diff < MINUTE_MS then JustNow
    else if diff < HOUR_MS then Minutes(diff / MINUTE_MS)
    else if diff < DAY_MS then Hours(diff / HOUR_MS)
    else Days(diff / DAY_MS)
  }

  function RenderAge(a: Age): string {
    match a
    case JustNow => "Hace un momento"
    case Minutes(m) => "Hace " + Text.IntToString(m) + " min"
    case Hours(h) => "Hace " + Text.IntToString(h) + " h"
    case Days(d) => "Hace " + Text.IntToString(d) + " días"
  }

  /** getFormattedTimestamp with the clock reading passed in as `now`; the
      subtraction wraps like Kotlin's `Long` arithmetic. */
  function FormattedTimestamp(n: SavedNotification, now: Long): string {
    RenderAge(AgeOf(WrapLong(now - n.timestamp)))
  }

  /** "Hace un momento" is shown exactly when less than a minute has passed:
      every other bucket writes a number where that text has a letter. */
  lemma JustNowExactly(n: SavedNotification, now: Long)
    ensures FormattedTimestamp(n, now) == "Hace un momento" <==> WrapLong(now - n.timestamp) < MINUTE_MS
  {
    var a := AgeOf(WrapLong(now - n.timestamp));
    if !a.JustNow? {
      var k := match a case Minutes(m) => m case Hours(h) => h case Days(d) => d case JustNow => 0;
      var s := RenderAge(a);
      assert s[5] == Text.IntToString(k)[0];
      assert Text.IsDigit(s[5]);
      assert !Text.IsDigit("Hace un momento"[5]);
    }
  }
}

/**
 * The health dashboard script: relative-time text, resource-bar
 * classification against warning and critical thresholds, the alert counts
 * of the health overview, the loading state of action buttons, and the
 * modal flags. The document is reduced to the pieces of state these
 * functions touch: class lists, a button's fields and the modal flags.
 */
module Dashboard {
  import opened Wrappers
  import opened Decimal
  import opened Ascii

  // -------------------------------------------------------- relative time

  /** JavaScript's `Math.floor(a / b)` of integers is Dafny's `/` for a positive divisor; nested floors merge. */
  lemma MinutesOfMillis(d: int)
    ensures d / 1000 / 60 == d / 60_000
  {
  }

  lemma HoursOfMillis(d: int)
    ensures d / 60_000 / 60 == d / 3_600_000
  {
  }

  lemma DaysOfMillis(d: int)
    ensures d / 3_600_000 / 24 == d / 86_400_000
  {
  }

  /**
   * `formatRelativeTime`: the age of `date` seen from `now`, both in
   * milliseconds since the epoch; `None` is a timestamp that does not parse
   * (an invalid `Date`), whose differences are all NaN, so every comparison
   * fails and the day branch prints NaN.
   */
  function FormatRelativeTime(now: int, date: Option<int>): string {
    if date.None? then "NaNd ago"
    else
      var diffMs := now - date.value;
      var diffSec := diffMs / 1000;
      var diffMin := diffSec / 60;
      var diffHour := diffMin / 60;
      var diffDay := diffHour / 24;
      if diffSec < 60 then "just now"
      else if diffMin < 60 then NatToString(diffMin) + " min ago"
      else if diffHour < 24 then NatToString(diffHour) + "h ago"
      else NatToString(diffDay) + "d ago"
  }

  /**
   * The buckets in closed form, on the millisecond difference: under a
   * minute (a future date included) is "just now", then whole minutes under
   * an hour, whole hours under a day, and whole days.
   */
  lemma RelativeTimeBuckets(now: int, date: int)
    ensures var d := now - date;
            FormatRelativeTime(now, Some(date))
            == if d < 60_000 then "just now"
               else if d < 3_600_000 then NatToString(d / 60_000) + " min ago"
               else if d < 86_400_000 then NatToString(d / 3_600_000) + "h ago"
               else NatToString(d / 86_400_000) + "d ago"
  {
    var d := now - date;
    MinutesOfMillis(d);
    HoursOfMillis(d);
    DaysOfMillis(d);
  }

  /** A date less than a minute old, or one in the future, reads "just now". */
  lemma RelativeTimeFuture(now: int, date: int)
    requires date > now - 60_000
    ensures FormatRelativeTime(now, Some(date)) == "just now"
  {
    RelativeTimeBuckets(now, date);
  }

  lemma RelativeTimeExamples()
    ensures FormatRelativeTime(1_000_000, Some(1_000_000 - 59_999)) == "just now"
    ensures FormatRelativeTime(1_000_000, Some(1_000_000 + 5_000)) == "just now"
    ensures FormatRelativeTime(10_000_000, Some(10_000_000 - 90_000)) == "1 min ago"
    ensures FormatRelativeTime(100_000_000, Some(100_000_000 - 86_400_000)) == "1d ago"
    ensures FormatRelativeTime(0, None) == "NaNd ago"
  {
    assert NatToString(1) == "1";
  }

  // -------------------------------------------------------- resource bars

  datatype Resource = Cpu | Memory | Disk

  datatype Thresholds = Thresholds(warning: int, critical: int)

  /** The default thresholds of the settings. */
  function DefaultThresholds(r: Resource): Thresholds {
    match r
    case Cpu => Thresholds(70, 90)
    case Memory => Thresholds(75, 90)
    case Disk => Thresholds(80, 95)
  }

  /** Every default pair warns strictly below where it turns critical, within 0 to 100. */
  lemma DefaultThresholdsOrdered(r: Resource)
    ensures 0 < DefaultThresholds(r).warning < DefaultThresholds(r).critical <= 100
  {
  }

  /** The class `updateResourceCard` leaves on a bar beyond the others it had. */
  datatype Level = Normal | Warning | Critical

  function BarLevel(percent: real, t: Thresholds): Level {
    if percent >= t.critical as real then Critical
    else if percent >= t.warning as real then Warning
    else Normal
  }

  function LevelClasses(l: Level): set<string> {
    match l
    case Normal => {}
    case Warning => {"warning"}
    case Critical => {"critical"}
  }

  /** The bar's class list after an update: both level classes removed, then the one for the percentage added. */
  function BarClasses(classes: set<string>, percent: real, t: Thresholds): set<string> {
    classes - {"warning", "critical"} + LevelClasses(BarLevel(percent, t))
  }

  /**
   * A bar ends with at most one level class: critical exactly when the
   * percentage reaches the critical threshold, warning exactly when it
   * reaches the warning threshold but not the critical one; other classes
   * are untouched.
   */
  lemma BarClassesIff(classes: set<string>, percent: real, t: Thresholds)
    ensures var r := BarClasses(classes, percent, t);
            && ("critical" in r <==> percent >= t.critical as real)
            && ("warning" in r <==> t.warning as real <= percent < t.critical as real)
            && !("critical" in r && "warning" in r)
            && (forall c :: c in classes && c != "warning" && c != "critical" ==> c in r)
            && (forall c :: c in r && c != "warning" && c != "critical" ==> c in classes)
  {
  }

  /** With ordered thresholds a higher percentage never gives a lower level. */
  lemma BarLevelMonotone(p: real, q: real, t: Thresholds)
    requires t.warning <= t.critical && p <= q
    ensures BarLevel(p, t) == Critical ==> BarLevel(q, t) == Critical
    ensures BarLevel(p, t) == Warning ==> BarLevel(q, t) != Normal
  {
  }

  class ProgressBar {
    var classes: set<string>
    var width: real
    constructor (classes: set<string>)
      ensures this.classes == classes
    {
      this.classes := classes;
    }
  }

  /** `updateResourceCard`: sets the bar's width and its level class, when the bar exists. */
  method UpdateResourceCard(bar: ProgressBar?, percent: real, t: Thresholds)
    modifies bar
    ensures bar != null ==> bar.classes == BarClasses(old(bar.classes), percent, t) && bar.width == percent
  {
    if bar != null {
      bar.width := percent;
      bar.classes := bar.classes - {"warning", "critical"};
      var level := BarLevel(percent, t);
      if level == Critical {
        bar.classes := bar.classes + {"critical"};
      } else if level == Warning {
        bar.classes := bar.classes + {"warning"};
      }
    }
  }

  // ---------------------------------------------------------- alert counts

  /** An alert; a missing level is `None`. */
  datatype Alert = Alert(level: Option<string>, message: string)

  /** `a.level && a.level.toLowerCase() === target`, lower-casing ASCII letters. */
  predicate HasLevel(a: Alert, target: string) {
    a.level.Some? && a.level.value != "" && Fold(a.level.value) == target
  }

  /** `alerts.filter(a => HasLevel(a, target)).length`. */
  function CountLevel(alerts: seq<Alert>, target: string): (n: nat)
    ensures n <= |alerts|
  {
    if alerts == [] then 0
    else CountLevel(alerts[..|alerts| - 1], target) + if HasLevel(alerts[|alerts| - 1], target) then 1 else 0
  }

  /** `(data.alerts || [])`: a missing list counts as empty. */
  function AlertCount(alerts: Option<seq<Alert>>, target: string): nat {
    if alerts.None? then 0 else CountLevel(alerts.value, target)
  }

  function LevelIndices(alerts: seq<Alert>, target: string): set<int> {
    set i | 0 <= i < |alerts| && HasLevel(alerts[i], target)
  }

  /** The count is the number of positions holding an alert of that level. */
  lemma {:induction false} CountLevelIsCardinality(alerts: seq<Alert>, target: string)
    ensures CountLevel(alerts, target) == |LevelIndices(alerts, target)|
    decreases |alerts|
  {
    if alerts != [] {
      var n := |alerts| - 1;
      var front := alerts[..n];
      CountLevelIsCardinality(front, target);
      var s, t := LevelIndices(front, target), LevelIndices(alerts, target);
      if HasLevel(alerts[n], target) {
        assert t == s + {n};
        assert n !in s;
      } else {
        assert t == s;
      }
    }
  }

  /** No alert is counted as both critical and warning, so the two counts never exceed the list. */
  lemma {:induction false} CountsBounded(alerts: seq<Alert>)
    ensures CountLevel(alerts, "critical") + CountLevel(alerts, "warning") <= |alerts|
    decreases |alerts|
  {
    if alerts != [] {
      CountsBounded(alerts[..|alerts| - 1]);
      var a := alerts[|alerts| - 1];
      assert !(HasLevel(a, "critical") && HasLevel(a, "warning"));
    }
  }

  /** Upper-case levels count as well. */
  lemma CountExample()
    ensures var alerts := [Alert(Some("CRITICAL"), "disk"), Alert(Some("Warning"), "cpu"),
                           Alert(None, "x"), Alert(Some("critical"), "memory")];
            CountLevel(alerts, "critical") == 2 && CountLevel(alerts, "warning") == 1
  {
    var alerts := [Alert(Some("CRITICAL"), "disk"), Alert(Some("Warning"), "cpu"),
                   Alert(None, "x"), Alert(Some("critical"), "memory")];
    assert Fold("CRITICAL") == "critical";
    assert Fold("Warning") == "warning";
    assert Fold("critical") == "critical";
    var a1, a2, a3 := alerts[..1], alerts[..2], alerts[..3];
    assert a1[..0] == [] && a2[..1] == a1 && a3[..2] == a2;
    assert CountLevel(a1, "critical") == 1 && CountLevel(a1, "warning") == 0;
    assert CountLevel(a2, "critical") == 1 && CountLevel(a2, "warning") == 1;
    assert CountLevel(a3, "critical") == 1 && CountLevel(a3, "warning") == 1;
  }

  // -------------------------------------------------------- button loading

  /** The pieces of a button `setButtonLoading` touches; `dataset.originalHtml` may be absent. */
  datatype ButtonState = ButtonState(classes: set<string>, disabled: bool, innerHtml: string,
                                     originalHtml: Option<string>)

  /** JavaScript truthiness of the saved copy: absent and empty are false. */
  predicate Saved(o: Option<string>) {
    o.Some? && o.value != ""
  }

  function Loading(s: ButtonState, isLoading: bool): ButtonState {
    if isLoading then
      ButtonState(s.classes + {"btn-loading"}, true, s.innerHtml,
                  if Saved(s.originalHtml) then s.originalHtml else Some(s.innerHtml))
    else
      ButtonState(s.classes - {"btn-loading"}, false,
                  if Saved(s.originalHtml) then s.originalHtml.value else s.innerHtml,
                  if Saved(s.originalHtml) then None else s.originalHtml)
  }

  /**
   * Loading a second time keeps the first saved copy, unless that copy is
   * empty: empty HTML saves a falsy copy, which the next call overwrites.
   */
  lemma LoadingSavesOnce(s: ButtonState, html: string)
    ensures Saved(s.originalHtml) || s.innerHtml != "" ==> var once := Loading(s, true);
              Loading(once.(innerHtml := html), true).originalHtml == once.originalHtml
    ensures !Saved(s.originalHtml) && s.innerHtml == "" ==>
              Loading(Loading(s, true).(innerHtml := html), true).originalHtml == Some(html)
  {
  }

  /**
   * Loading and then finishing gives back the HTML the button had before,
   * whatever was shown meanwhile, clears the saved copy and re-enables the
   * button; this needs no saved copy beforehand and non-empty HTML, since an
   * empty saved copy is falsy and is never restored.
   */
  lemma LoadingRoundTrip(s: ButtonState, shown: string)
    requires !Saved(s.originalHtml) && s.innerHtml != ""
    ensures var done := Loading(Loading(s, true).(innerHtml := shown), false);
            && done.innerHtml == s.innerHtml
            && done.originalHtml == None
            && !done.disabled
            && done.classes == s.classes - {"btn-loading"}
  {
  }

  /** Finishing when nothing is saved changes only the class and the disabled flag. */
  lemma FinishWithoutSaved(s: ButtonState)
    requires !Saved(s.originalHtml)
    ensures Loading(s, false) == s.(classes := s.classes - {"btn-loading"}, disabled := false)
  {
  }

  class Button {
    var classes: set<string>
    var disabled: bool
    var innerHtml: string
    var originalHtml: Option<string>

    constructor (innerHtml: string)
      ensures State() == ButtonState({}, false, innerHtml, None)
    {
      classes := {};
      disabled := false;
      this.innerHtml := innerHtml;
      originalHtml := None;
    }

    function State(): ButtonState
      reads this
    {
      ButtonState(classes, disabled, innerHtml, originalHtml)
    }
  }

  /** `setButtonLoading`: nothing happens without a button. */
  method SetButtonLoading(button: Button?, isLoading: bool)
    modifies button
    ensures button != null ==> button.State() == Loading(old(button.State()), isLoading)
  {
    if button == null {
      return;
    }
    if isLoading {
      button.classes := button.classes + {"btn-loading"};
      button.disabled := true;
      if !Saved(button.originalHtml) {
        button.originalHtml := Some(button.innerHtml);
      }
    } else {
      button.classes := button.classes - {"btn-loading"};
      button.disabled := false;
      if Saved(button.originalHtml) {
        button.innerHtml := button.originalHtml.value;
        button.originalHtml := None;
      }
    }
  }

  // ---------------------------------------------------------------- modals

  /** `pat` occurs in `s` at position `j`. */
  predicate MatchAt(s: string, pat: string, j: int) {
    0 <= j && j + |pat| <= |s| && s[j..j + |pat|] == pat
  }

  /** The first position at or after `from` where `pat` occurs in `s`. */
  function IndexOfFrom(s: string, pat: string, from: nat): (r: Option<nat>)
    requires |pat| > 0
    ensures r.Some? ==> from <= r.value && MatchAt(s, pat, r.value)
    ensures forall j :: from <= j && (r.None? || j < r.value) ==> !MatchAt(s, pat, j)
    decreases |s| - from
  {
    if from + |pat| > |s| then None
    else if s[from..from + |pat|] == pat then Some(from)
    else IndexOfFrom(s, pat, from + 1)
  }

  /** The first occurrence is the one with no earlier position starting with the pattern's first character. */
  lemma IndexOfFirst(s: string, pat: string, k: nat)
    requires |pat| > 0 && MatchAt(s, pat, k)
    requires forall j :: 0 <= j < k ==> s[j] != pat[0]
    ensures IndexOfFrom(s, pat, 0) == Some(k)
  {
    forall j | 0 <= j < k
      ensures !MatchAt(s, pat, j)
    {
      if j + |pat| <= |s| {
        assert s[j..j + |pat|][0] == s[j];
      }
    }
  }

  /** `s.replace(pat, rep)` with a string pattern: the first occurrence only. */
  function ReplaceFirst(s: string, pat: string, rep: string): string
    requires |pat| > 0
  {
    match IndexOfFrom(s, pat, 0)
    case None => s
    case Some(i) => s[..i] + rep + s[i + |pat|..]
  }

  /** The flag key for a modal id: the id with its first "Modal" removed. */
  function ModalKey(modalId: string): string {
    ReplaceFirst(modalId, "Modal", "")
  }

  /**
   * The key is the id with the first "Modal" cut out: what precedes it has
   * none, and an id without one is its own key.
   */
  lemma ModalKeyCut(modalId: string)
    ensures var i := IndexOfFrom(modalId, "Modal", 0);
            && (i.None? ==> ModalKey(modalId) == modalId)
            && (i.Some? ==> modalId == ModalKey(modalId)[..i.value] + "Modal" + ModalKey(modalId)[i.value..]
                            && |ModalKey(modalId)| + 5 == |modalId|
                            && forall j :: 0 <= j < i.value ==> !MatchAt(modalId, "Modal", j))
  {
    var i := IndexOfFrom(modalId, "Modal", 0);
    if i.Some? {
      var k := i.value;
      var key := ModalKey(modalId);
      assert key == modalId[..k] + modalId[k + 5..];
      assert key[..k] == modalId[..k];
      assert key[k..] == modalId[k + 5..];
      assert modalId == modalId[..k] + modalId[k..k + 5] + modalId[k + 5..];
    }
  }

  /** An id made of a name without a capital M, then "Modal", has the name as its key. */
  lemma ModalKeyOfName(name: string)
    requires forall j :: 0 <= j < |name| ==> name[j] != 'M'
    ensures ModalKey(name + "Modal") == name
  {
    var id := name + "Modal";
    var k := |name|;
    assert id[k..k + 5] == "Modal";
    forall j | 0 <= j < k
      ensures id[j] != 'M'
    {
      assert id[j] == name[j];
    }
    IndexOfFirst(id, "Modal", k);
    assert id[..k] == name;
    assert id[k + 5..] == [];
  }

  /** The keys of the three dashboard modals. */
  lemma ModalKeyAddUsers()
    ensures ModalKey("addUsersModal") == "addUsers"
  {
    var id := "addUsersModal";
    assert id[8] == 'M' && id[9] == 'o' && id[10] == 'd' && id[11] == 'a' && id[12] == 'l';
    IndexOfFirst(id, "Modal", 8);
    assert id[..8] == "addUsers";
  }

  lemma ModalKeyBackup()
    ensures ModalKey("backupModal") == "backup"
  {
    var id := "backupModal";
    assert id[6] == 'M' && id[7] == 'o' && id[8] == 'd' && id[9] == 'a' && id[10] == 'l';
    IndexOfFirst(id, "Modal", 6);
    assert id[..6] == "backup";
  }

  lemma ModalKeyProgress()
    ensures ModalKey("progressModal") == "progress"
  {
    var id := "progressModal";
    assert id[..8] == "progress";
    assert id[8..] == "Modal";
    IndexOfFirst(id, "Modal", 8);
  }

  /** The modal flags and the part of the document the modal functions touch. */
  class ModalState {
    var modals: map<string, bool>
    /** The ids of the modal elements in the document. */
    const elements: set<string>
    /** The modals whose class list holds "active". */
    var active: set<string>
    var bodyOverflow: string

    constructor (elements: set<string>)
      ensures modals == map["addUsers" := false, "backup" := false, "progress" := false]
      ensures this.elements == elements && active == {} && bodyOverflow == ""
    {
      modals := map["addUsers" := false, "backup" := false, "progress" := false];
      this.elements := elements;
      active := {};
      bodyOverflow := "";
    }

    /** `openModal`: shows the modal, sets its flag and locks the page scroll; an unknown id does nothing. */
    method OpenModal(modalId: string)
      modifies this`modals, this`active, this`bodyOverflow
      ensures modalId in elements ==>
                && modals == old(modals)[ModalKey(modalId) := true]
                && active == old(active) + {modalId}
                && bodyOverflow == "hidden"
      ensures modalId !in elements ==>
                modals == old(modals) && active == old(active) && bodyOverflow == old(bodyOverflow)
    {
      if modalId in elements {
        active := active + {modalId};
        modals := modals[ModalKey(modalId) := true];
        bodyOverflow := "hidden";
      }
    }

    /**
     * `closeModal`: hides the modal and unlocks the page scroll, and sets its
     * flag to true as well, exactly as opening does.
     */
    method CloseModal(modalId: string)
      modifies this`modals, this`active, this`bodyOverflow
      ensures modalId in elements ==>
                && modals == old(modals)[ModalKey(modalId) := true]
                && active == old(active) - {modalId}
                && bodyOverflow == ""
      ensures modalId !in elements ==>
                modals == old(modals) && active == old(active) && bodyOverflow == old(bodyOverflow)
    {
      if modalId in elements {
        active := active - {modalId};
        modals := modals[ModalKey(modalId) := true];
        bodyOverflow := "";
      }
    }
  }

  /** The flags after a sequence of opens and closes, each `(id, opening)`. */
  function FlagsAfter(modals: map<string, bool>, elements: set<string>, calls: seq<(string, bool)>): map<string, bool>
    decreases |calls|
  {
    if calls == [] then modals
    else
      var id := calls[0].0;
      FlagsAfter(if id in elements then modals[ModalKey(id) := true] else modals, elements, calls[1..])
  }

  /**
   * No sequence of opens and closes ever clears a flag, and once a known
   * modal has been opened or closed its flag stays true.
   */
  lemma {:induction false} FlagsOnlyRise(modals: map<string, bool>, elements: set<string>,
                                         calls: seq<(string, bool)>, key: string)
    ensures key in modals && modals[key] ==> key in FlagsAfter(modals, elements, calls)
                                             && FlagsAfter(modals, elements, calls)[key]
    ensures (exists k :: 0 <= k < |calls| && calls[k].0 in elements && ModalKey(calls[k].0) == key) ==>
              key in FlagsAfter(modals, elements, calls) && FlagsAfter(modals, elements, calls)[key]
    decreases |calls|
  {
    if calls != [] {
      var id := calls[0].0;
      var next := if id in elements then modals[ModalKey(id) := true] else modals;
      FlagsOnlyRise(next, elements, calls[1..], key);
      if exists k :: 0 <= k < |calls| && calls[k].0 in elements && ModalKey(calls[k].0) == key {
        var k :| 0 <= k < |calls| && calls[k].0 in elements && ModalKey(calls[k].0) == key;
        if k > 0 {
          assert calls[1..][k - 1] == calls[k];
        }
      }
    }
  }
}

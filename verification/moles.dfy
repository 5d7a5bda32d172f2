/** One slot of the mole pool (Assets/Scripts/Mole.cs).
 *
 *  A mole is a small state machine driven by events: the manager activates it, the
 *  player presses it, its show/hide timeline runs out, its quick-hide timer fires, or
 *  the manager stops it. The pure function Step gives the meaning of every event; the
 *  class Mole holds the same state in fields and each of its methods is proved to move
 *  that state exactly as Step says. Instead of calling its manager, a mole returns the
 *  call it would make (a Report), which Session delivers.
 */
module Moles {

  /** The category of one appearance. */
  datatype MoleType = Standard | Bomb | Knife | Gun | Drug

  /** The four penalty-category probabilities, in the order the draw tests them. */
  datatype Rates = Rates(bomb: real, knife: real, gun: real, drug: real)
  {
    predicate NonNegative() {
      bomb >= 0.0 && knife >= 0.0 && gun >= 0.0 && drug >= 0.0
    }
  }

  /** The call a mole makes on its manager when an appearance ends. */
  datatype Report =
    | NoReport
    | AddScore(index: int, amount: int)
    | Missed(index: int, isMole: bool)
      /** The miss call made with no manager: it fails on the null reference. */
    | MissedWithoutManager

  // Field initialisers, used until the first activation.
  const InitialRates: Rates := Rates(0.08, 0.08, 0.08, 0.08)
  const InitialDuration: real := 1.3
  // What SetLevel installs, whatever the level.
  const LevelRates: Rates := Rates(0.05, 0.05, 0.05, 0.05)
  const LevelDuration: real := 1.5

  /** The category picked for a draw `r`: cumulative-threshold bucketing over the rates. */
  function PickType(r: real, rates: Rates): (t: MoleType)
    ensures t == Bomb <==> r < rates.bomb
  {
    if r < rates.bomb then Bomb
    else if r < rates.bomb + rates.knife then Knife
    else if r < rates.bomb + rates.knife + rates.gun then Gun
    else if r < rates.bomb + rates.knife + rates.gun + rates.drug then Drug
    else Standard
  }

  /** Reference definition of the buckets: each category owns one half-open interval
      between consecutive running totals of the rates; Standard owns the rest. */
  predicate InBucket(r: real, t: MoleType, rates: Rates) {
    var b1 := rates.bomb;
    var b2 := b1 + rates.knife;
    var b3 := b2 + rates.gun;
    var b4 := b3 + rates.drug;
    match t
    case Bomb => r < b1
    case Knife => b1 <= r < b2
    case Gun => b2 <= r < b3
    case Drug => b3 <= r < b4
    case Standard => b4 <= r
  }

  /** With non-negative rates the draw lands in exactly one bucket, and PickType names it. */
  lemma PickTypeBuckets(r: real, rates: Rates)
    requires rates.NonNegative()
    ensures forall t :: PickType(r, rates) == t <==> InBucket(r, t, rates)
  {
  }

  /** After SetLevel the thresholds are 0.05, 0.10, 0.15 and 0.20. */
  lemma LevelThresholds(r: real)
    ensures PickType(r, LevelRates) == Bomb <==> r < 0.05
    ensures PickType(r, LevelRates) == Knife <==> 0.05 <= r < 0.10
    ensures PickType(r, LevelRates) == Gun <==> 0.10 <= r < 0.15
    ensures PickType(r, LevelRates) == Drug <==> 0.15 <= r < 0.20
    ensures PickType(r, LevelRates) == Standard <==> 0.20 <= r
  {
  }

  /** Points a press is worth: only a Standard mole scores. */
  function Points(t: MoleType): (amount: int)
    ensures 0 <= amount <= 1
    ensures amount == 1 <==> t == Standard
  {
    match t
    case Standard => 1
    case Bomb => 0
    case Knife => 0
    case Gun => 0
    case Drug => 0
  }

  /** Everything a mole holds that the game logic reads. `hidden` stands for the
      hidden pose (sprite at its start position, collider collapsed); `showHides`
      counts the running show/hide timelines and `quickHidePending` the quick-hide timer. */
  datatype MoleState = MoleState(
    hittable: bool,
    moleType: MoleType,
    rates: Rates,
    duration: real,
    moleIndex: int,
    hasManager: bool,
    hidden: bool,
    showHides: nat,
    quickHidePending: bool)

  /** The events that drive a mole. */
  datatype Event =
    | Activated(level: int, roll: real)
    | Pressed
    | TimelineEnded
    | QuickHideFired
    | Stopped
    | HiddenByManager
    | Indexed(index: int)

  datatype Outcome = Outcome(after: MoleState, report: Report)

  /** SetLevel: fixed easy settings; the level is not consulted. */
  function Leveled(s: MoleState, level: int): (s': MoleState)
    ensures s'.rates == LevelRates && s'.duration == LevelDuration
    ensures s'.(rates := s.rates, duration := s.duration) == s
  {
    s.(rates := LevelRates, duration := LevelDuration)
  }

  /** CreateNext: a category drawn with the current rates, and the mole made hittable. */
  function Drawn(s: MoleState, roll: real): (s': MoleState)
    ensures s'.hittable
    ensures s'.moleType == PickType(roll, s.rates)
    ensures s'.(hittable := s.hittable, moleType := s.moleType) == s
  {
    s.(moleType := PickType(roll, s.rates), hittable := true)
  }

  /** The effect of one event on a mole, with the call it makes on its manager. */
  function Step(s: MoleState, e: Event): (o: Outcome)
    // every report path needs a hittable mole and leaves it non-hittable
    ensures o.report != NoReport ==> s.hittable && !o.after.hittable
    // only an activation makes a mole hittable, and it never reports
    ensures !e.Activated? && o.after.hittable ==> s.hittable
    ensures e.Activated? ==> o.after.hittable && o.report == NoReport
    // a report names the mole's own index
    ensures (o.report.AddScore? || o.report.Missed?) ==> o.report.index == s.moleIndex
    ensures o.after.moleIndex == (if e.Indexed? then e.index else s.moleIndex)
    ensures o.after.hasManager == s.hasManager
    // the failing miss call happens only without a manager
    ensures o.report == MissedWithoutManager ==> !s.hasManager
  {
    match e
    case Activated(level, roll) =>
      var drawn := Drawn(Leveled(s, level), roll);
      Outcome(drawn.(showHides := s.showHides + 1, hidden := false), NoReport)
    case Pressed =>
      if s.hasManager && s.hittable then
        Outcome(s.(hittable := false, showHides := 0, quickHidePending := true),
                AddScore(s.moleIndex, Points(s.moleType)))
      else
        Outcome(s, NoReport)
    case TimelineEnded =>
      if s.showHides == 0 then Outcome(s, NoReport)
      else
        var ended := s.(showHides := s.showHides - 1, hidden := true);
        if !s.hittable then Outcome(ended, NoReport)
        else if s.hasManager then
          Outcome(ended.(hittable := false), Missed(s.moleIndex, s.moleType != Bomb))
        else
          Outcome(ended.(hittable := false), MissedWithoutManager)
    case QuickHideFired =>
      if !s.quickHidePending then Outcome(s, NoReport)
      else Outcome(s.(quickHidePending := false, hidden := s.hidden || !s.hittable), NoReport)
    case Stopped =>
      Outcome(s.(hittable := false, showHides := 0, quickHidePending := false, hidden := true), NoReport)
    case HiddenByManager =>
      Outcome(s.(hidden := true), NoReport)
    case Indexed(i) =>
      Outcome(s.(moleIndex := i), NoReport)
  }

  /** The category of an activation depends on the roll only, and uses the level settings. */
  lemma ActivationIgnoresLevel(s: MoleState, level1: int, level2: int, roll: real)
    ensures Step(s, Activated(level1, roll)) == Step(s, Activated(level2, roll))
    ensures Step(s, Activated(level1, roll)).after.moleType == PickType(roll, LevelRates)
    ensures Step(s, Activated(level1, roll)).after.rates == LevelRates
    ensures Step(s, Activated(level1, roll)).after.duration == LevelDuration
  {
  }

  /** A press on a hittable mole with a manager reports AddScore once with the category's
      points and ends the hittable window; any other press changes nothing. */
  lemma PressOutcome(s: MoleState)
    ensures s.hasManager && s.hittable ==>
      Step(s, Pressed).report == AddScore(s.moleIndex, Points(s.moleType)) &&
      !Step(s, Pressed).after.hittable && Step(s, Pressed).after.quickHidePending &&
      Step(s, Pressed).after.showHides == 0
    ensures !(s.hasManager && s.hittable) ==> Step(s, Pressed) == Outcome(s, NoReport)
  {
  }

  /** At the end of a show/hide timeline a still-hittable mole reports a miss, flagged as
      a real mole unless it was a bomb; a mole already resolved reports nothing. */
  lemma TimelineEndOutcome(s: MoleState)
    requires s.showHides > 0
    ensures Step(s, TimelineEnded).after.hidden && !Step(s, TimelineEnded).after.hittable
    ensures s.hittable && s.hasManager ==>
      Step(s, TimelineEnded).report == Missed(s.moleIndex, s.moleType != Bomb)
    ensures s.hittable && !s.hasManager ==> Step(s, TimelineEnded).report == MissedWithoutManager
    ensures !s.hittable ==> Step(s, TimelineEnded).report == NoReport
  {
  }

  /** Stopping clears the hittable window, cancels every timeline and hides the mole; a
      second stop changes nothing. */
  lemma StopIdempotent(s: MoleState)
    ensures var t := Step(s, Stopped).after;
      !t.hittable && t.hidden && t.showHides == 0 && !t.quickHidePending &&
      Step(t, Stopped) == Outcome(t, NoReport)
  {
  }

  /** The quick-hide timer hides a mole only while it is not hittable: a mole activated
      again in the meantime stays up. */
  lemma QuickHideGuard(s: MoleState)
    requires s.quickHidePending
    ensures Step(s, QuickHideFired).after.hidden == (s.hidden || !s.hittable)
    ensures Step(s, QuickHideFired).after.hittable == s.hittable
  {
  }

  /** Whether an event is an activation, or a hard stop. */
  predicate NoActivation(es: seq<Event>) {
    forall k :: 0 <= k < |es| ==> !es[k].Activated?
  }

  predicate NoActivationOrStop(es: seq<Event>) {
    forall k :: 0 <= k < |es| ==> !es[k].Activated? && !es[k].Stopped?
  }

  /** The number of calls a mole makes on its manager while it runs through `es`. */
  function ReportCount(s: MoleState, es: seq<Event>): (n: nat)
    ensures n <= |es|
    decreases |es|
  {
    if es == [] then 0
    else
      var o := Step(s, es[0]);
      (if o.report == NoReport then 0 else 1) + ReportCount(o.after, es[1..])
  }

  /** Between two activations a mole reports at most once, and not at all unless it
      starts hittable. */
  lemma {:induction false} AtMostOneReport(s: MoleState, es: seq<Event>)
    requires NoActivation(es)
    ensures ReportCount(s, es) <= (if s.hittable then 1 else 0)
    decreases |es|
  {
    if es != [] {
      var o := Step(s, es[0]);
      assert NoActivation(es[1..]) by {
        forall k | 0 <= k < |es[1..]| ensures !es[1..][k].Activated? {
          assert es[1..][k] == es[k + 1];
        }
      }
      AtMostOneReport(o.after, es[1..]);
    }
  }

  /** Every activation is followed by at most one report before the next activation. */
  lemma ActivationReportsAtMostOnce(s: MoleState, level: int, roll: real, es: seq<Event>)
    requires NoActivation(es)
    ensures ReportCount(s, [Activated(level, roll)] + es) <= 1
  {
    var all := [Activated(level, roll)] + es;
    assert all[0] == Activated(level, roll) && all[1..] == es;
    AtMostOneReport(Step(s, Activated(level, roll)).after, es);
  }

  /** A hittable mole whose timeline is running, and that is neither stopped nor activated
      again, reports exactly once by the time a timeline ends: either the press scored it
      or the timeline end reports the miss. */
  lemma {:induction false} ExactlyOneReport(s: MoleState, es: seq<Event>, end: nat)
    requires s.hittable && s.showHides > 0
    requires NoActivationOrStop(es)
    requires end < |es| && es[end] == TimelineEnded
    ensures ReportCount(s, es) == 1
    decreases |es|
  {
    var o := Step(s, es[0]);
    var rest := es[1..];
    assert NoActivationOrStop(rest) by {
      forall k | 0 <= k < |rest| ensures !rest[k].Activated? && !rest[k].Stopped? {
        assert rest[k] == es[k + 1];
      }
    }
    assert NoActivation(rest) by {
      forall k | 0 <= k < |rest| ensures !rest[k].Activated? {
        assert rest[k] == es[k + 1];
      }
    }
    if o.report != NoReport {
      AtMostOneReport(o.after, rest);
    } else {
      // no report yet: the event was neither a scoring press nor the timeline end
      assert end > 0;
      assert o.after.hittable && o.after.showHides > 0;
      assert rest[end - 1] == TimelineEnded;
      ExactlyOneReport(o.after, rest, end - 1);
    }
  }

  /** The termination guarantee for one appearance: after an activation, unless the mole
      is stopped or activated again, exactly one report follows by the time a show/hide
      timeline ends. Without a manager that report is the failing miss call;
      ActivationCallsManagerOnce covers a mole with a manager. */
  lemma ActivationReportsOnce(s: MoleState, level: int, roll: real, es: seq<Event>, end: nat)
    requires NoActivationOrStop(es)
    requires end < |es| && es[end] == TimelineEnded
    ensures ReportCount(s, [Activated(level, roll)] + es) == 1
  {
    var all := [Activated(level, roll)] + es;
    assert all[0] == Activated(level, roll) && all[1..] == es;
    ExactlyOneReport(Step(s, Activated(level, roll)).after, es, end);
  }

  /** Every call the mole makes while it runs through `es` reaches the manager:
      it is AddScore or Missed. */
  predicate OnlyManagerCalls(s: MoleState, es: seq<Event>)
    decreases |es|
  {
    es == [] ||
    var o := Step(s, es[0]);
    (o.report.NoReport? || o.report.AddScore? || o.report.Missed?) && OnlyManagerCalls(o.after, es[1..])
  }

  /** A mole with a manager never makes the failing miss call. */
  lemma {:induction false} ManagerCallsOnly(s: MoleState, es: seq<Event>)
    requires s.hasManager
    ensures OnlyManagerCalls(s, es)
    decreases |es|
  {
    if es != [] {
      ManagerCallsOnly(Step(s, es[0]).after, es[1..]);
    }
  }

  /** With a manager, an activation that is neither stopped nor followed by another
      activation leads to exactly one AddScore or Missed call on that manager by the time
      a show/hide timeline ends. */
  lemma ActivationCallsManagerOnce(s: MoleState, level: int, roll: real, es: seq<Event>, end: nat)
    requires s.hasManager
    requires NoActivationOrStop(es)
    requires end < |es| && es[end] == TimelineEnded
    ensures ReportCount(s, [Activated(level, roll)] + es) == 1
    ensures OnlyManagerCalls(s, [Activated(level, roll)] + es)
  {
    ActivationReportsOnce(s, level, roll, es, end);
    ManagerCallsOnly(s, [Activated(level, roll)] + es);
  }

  /** A mole of the pool. */
  class Mole {
    var hittable: bool
    var moleType: MoleType
    var bombRate: real
    var knifeRate: real
    var gunRate: real
    var drugRate: real
    var duration: real
    var moleIndex: int
    /** Whether the manager reference is set. */
    var hasManager: bool
    var hidden: bool
    var showHides: nat
    var quickHidePending: bool

    /** The state the fields hold. */
    function State(): (s: MoleState)
      reads this
    {
      MoleState(hittable, moleType, Rates(bombRate, knifeRate, gunRate, drugRate),
                duration, moleIndex, hasManager, hidden, showHides, quickHidePending)
    }

    /** A mole as the scene creates it: the field initialisers, no timeline running. */
    constructor (hasManager: bool, hidden: bool)
      ensures State() == MoleState(true, Standard, InitialRates, InitialDuration, 0,
                                   hasManager, hidden, 0, false)
    {
      this.hittable := true;
      this.moleType := Standard;
      this.bombRate, this.knifeRate, this.gunRate, this.drugRate := 0.08, 0.08, 0.08, 0.08;
      this.duration := 1.3;
      this.moleIndex := 0;
      this.hasManager := hasManager;
      this.hidden := hidden;
      this.showHides := 0;
      this.quickHidePending := false;
    }

    method SetLevel(level: int)
      modifies this
      ensures State() == Leveled(old(State()), level)
    {
      duration := 1.5;
      bombRate := 0.05;
      knifeRate := 0.05;
      gunRate := 0.05;
      drugRate := 0.05;
    }

    method CreateNext(roll: real)
      modifies this
      ensures State() == Drawn(old(State()), roll)
    {
      if roll < bombRate {
        moleType := Bomb;
      } else if roll < bombRate + knifeRate {
        moleType := Knife;
      } else if roll < bombRate + knifeRate + gunRate {
        moleType := Gun;
      } else if roll < bombRate + knifeRate + gunRate + drugRate {
        moleType := Drug;
      } else {
        moleType := Standard;
      }
      hittable := true;
    }

    /** Level settings, a fresh category, and a new show/hide timeline. */
    method Activate(level: int, roll: real)
      modifies this
      ensures Step(old(State()), Activated(level, roll)) == Outcome(State(), NoReport)
    {
      SetLevel(level);
      CreateNext(roll);
      showHides := showHides + 1;
      hidden := false;
    }

    /** The player's press. */
    method OnMouseDown() returns (report: Report)
      modifies this
      ensures Step(old(State()), Pressed) == Outcome(State(), report)
    {
      report := NoReport;
      if !hasManager {
        return;
      }
      if hittable {
        report := AddScore(moleIndex, Points(moleType));
        showHides := 0;
        quickHidePending := true;
        hittable := false;
      }
    }

    /** The tail of a show/hide timeline, once the mole is back at its hidden pose. */
    method ShowHideEnds() returns (report: Report)
      requires showHides > 0
      modifies this
      ensures Step(old(State()), TimelineEnded) == Outcome(State(), report)
    {
      showHides := showHides - 1;
      hidden := true;
      report := NoReport;
      if hittable {
        hittable := false;
        report := if hasManager then Missed(moleIndex, moleType != Bomb) else MissedWithoutManager;
      }
    }

    /** The quick-hide timer firing. */
    method QuickHide()
      requires quickHidePending
      modifies this
      ensures Step(old(State()), QuickHideFired) == Outcome(State(), NoReport)
    {
      quickHidePending := false;
      if !hittable {
        Hide();
      }
    }

    method Hide()
      modifies this
      ensures Step(old(State()), HiddenByManager) == Outcome(State(), NoReport)
    {
      hidden := true;
    }

    method SetIndex(index: int)
      modifies this
      ensures Step(old(State()), Indexed(index)) == Outcome(State(), NoReport)
    {
      moleIndex := index;
    }

    method StopGame()
      modifies this
      ensures Step(old(State()), Stopped) == Outcome(State(), NoReport)
    {
      hittable := false;
      showHides := 0;
      quickHidePending := false;
      Hide();
    }
  }
}

/** The session controller (Assets/Scripts/GameManager1.cs): score, countdown, the set of
 *  active moles, and the per-frame update that counts down and spawns moles.
 *
 *  Moles are addressed by their pool index: the pool holds distinct moles and StartGame
 *  gives mole i the index i. The frame time and the random draws are parameters. A mole
 *  returns the call it makes on its manager; PressMole and EndShowHide deliver it.
 */
module Session {
  import opened Moles
  import opened Spawning
  import opened TimeDisplay

  const StartingTime: real := 30.0
  const MaxActiveMoles: int := 5

  /** The difficulty level passed to an activated mole: the score divided by ten as
      integer division does it, truncating toward zero. */
  function Level(score: int): (level: int)
    ensures score >= 0 ==> 0 <= level * 10 <= score < level * 10 + 10
    ensures score < 0 ==> level * 10 - 10 < score <= level * 10 <= 0
  {
    if score >= 0 then score / 10 else -((-score) / 10)
  }

  /** The clock after one frame: lowered by the frame time, and clamped to exactly zero
      once it reaches zero or below. */
  function Countdown(t: real, deltaTime: real): (t': real)
    ensures t' >= 0.0
    ensures t' == 0.0 <==> t - deltaTime <= 0.0
    ensures t' > 0.0 ==> t' == t - deltaTime
    ensures deltaTime >= 0.0 && t >= 0.0 ==> t' <= t
  {
    if t - deltaTime <= 0.0 then 0.0 else t - deltaTime
  }

  /** A pool slot after the spawn loop: activated with the roll that added it, or as it was. */
  function AfterSpawn(m: MoleState, i: int, rolls: map<int, real>, level: int): (m': MoleState)
    ensures i in rolls ==> m'.hittable
    ensures i !in rolls ==> m' == m
  {
    if i in rolls then Step(m, Activated(level, rolls[i])).after else m
  }

  /** The pool holds each mole once. */
  predicate Distinct(moles: seq<Mole>) {
    forall i, j :: 0 <= i < j < |moles| ==> moles[i] != moles[j]
  }

  class GameManager {
    const moles: seq<Mole>
    var score: int
    var timeRemaining: real
    var playing: bool
    /** The pool indices of the moles currently out. */
    var active: set<int>

    ghost predicate Valid()
      reads this, moles
    {
      && Distinct(moles)
      && (forall i :: i in active ==> 0 <= i < |moles|)
      && timeRemaining >= 0.0
      // every mole reports an index the manager can look up
      && (forall i :: 0 <= i < |moles| ==> 0 <= moles[i].moleIndex < |moles|)
    }

    /** A manager over a pool, with the field initialisers: no game running yet. */
    constructor (moles: seq<Mole>)
      requires Distinct(moles)
      requires forall i :: 0 <= i < |moles| ==> 0 <= moles[i].moleIndex < |moles|
      ensures Valid()
      ensures this.moles == moles
      ensures score == 0 && timeRemaining == 0.0 && !playing && active == {}
    {
      this.moles := moles;
      score := 0;
      timeRemaining := 0.0;
      playing := false;
      active := {};
    }

    /** Resets the session and gives every mole its pool index. */
    method StartGame()
      requires Valid()
      modifies this`score, this`timeRemaining, this`playing, this`active, moles
      ensures Valid()
      ensures score == 0 && timeRemaining == StartingTime && playing && active == {}
      ensures forall i :: 0 <= i < |moles| ==>
        moles[i].State() == old(moles[i].State()).(hidden := true, moleIndex := i)
    {
      for i := 0 to |moles|
        invariant forall j :: 0 <= j < i ==>
          moles[j].State() == old(moles[j].State()).(hidden := true, moleIndex := j)
        invariant forall j :: i <= j < |moles| ==> moles[j].State() == old(moles[j].State())
      {
        moles[i].Hide();
        moles[i].SetIndex(i);
      }
      active := {};
      timeRemaining := StartingTime;
      score := 0;
      playing := true;
    }

    /** Stops every mole and ends the session; the active set is left as it is. */
    method GameOver()
      requires Valid()
      modifies this`playing, moles
      ensures Valid()
      ensures !playing
      ensures active == old(active) && score == old(score) && timeRemaining == old(timeRemaining)
      ensures forall i :: 0 <= i < |moles| ==>
        moles[i].State() == Step(old(moles[i].State()), Stopped).after
    {
      for i := 0 to |moles|
        invariant forall j :: 0 <= j < i ==>
          moles[j].State() == Step(old(moles[j].State()), Stopped).after
        invariant forall j :: i <= j < |moles| ==> moles[j].State() == old(moles[j].State())
      {
        moles[i].StopGame();
      }
      playing := false;
    }

    /** A hit: the amount is added and the mole leaves the active set. */
    method AddScore(moleIndex: int, amount: int)
      requires Valid()
      requires 0 <= moleIndex < |moles|
      modifies this`score, this`active
      ensures Valid()
      ensures score == old(score) + amount
      ensures active == old(active) - {moleIndex}
    {
      score := score + amount;
      active := active - {moleIndex};
    }

    /** A miss: the mole leaves the active set; no time penalty is applied. */
    method Missed(moleIndex: int, isMole: bool)
      requires Valid()
      requires 0 <= moleIndex < |moles|
      modifies this`active
      ensures Valid()
      ensures active == old(active) - {moleIndex}
    {
      active := active - {moleIndex};
    }

    /** One pass of the spawn loop with the drawn index: an idle mole is added and
        activated at the current level; an active one is left alone. */
    method TrySpawn(index: int, roll: real)
      requires Valid()
      requires 0 <= index < |moles|
      modifies this`active, moles[index]
      ensures Valid()
      ensures active == old(active) + {index}
      ensures moles[index].State() ==
        if index in old(active) then old(moles[index].State())
        else Step(old(moles[index].State()), Activated(Level(score), roll)).after
      ensures forall i :: 0 <= i < |moles| && i != index ==> moles[i].State() == old(moles[i].State())
    {
      if index !in active {
        active := active + {index};
        moles[index].Activate(Level(score), roll);
      }
    }

    /** The moles' states, in pool order. */
    ghost function States(): (states: seq<MoleState>)
      reads this, moles
      ensures |states| == |moles|
      ensures forall i :: 0 <= i < |moles| ==> states[i] == moles[i].State()
    {
      seq(|moles|, i reads this, moles requires 0 <= i < |moles| => moles[i].State())
    }

    /** One iteration of the spawn loop: the loop state after the draw at `used`, stated
        against the loop's specification. */
    method SpawnStep(draws: seq<Draw>, used: nat, ghost start: set<int>,
                     ghost before: seq<MoleState>, ghost rolls: map<int, real>)
      returns (ghost rolls': map<int, real>)
      requires Valid()
      requires used < |draws| && |active| <= MaxActiveMoles
      requires 0 <= draws[used].index < |moles| && |before| == |moles|
      requires rolls.Keys <= active
      requires SpawnFrom(active, rolls, draws, used, MaxActiveMoles) == SpawnRun(start, draws, MaxActiveMoles)
      requires forall i :: 0 <= i < |moles| ==> moles[i].State() == AfterSpawn(before[i], i, rolls, Level(score))
      modifies this`active, moles[draws[used].index]
      ensures Valid()
      ensures rolls'.Keys <= active
      ensures SpawnFrom(active, rolls', draws, used + 1, MaxActiveMoles) == SpawnRun(start, draws, MaxActiveMoles)
      ensures forall i :: 0 <= i < |moles| ==> moles[i].State() == AfterSpawn(before[i], i, rolls', Level(score))
    {
      var d := draws[used];
      ghost var next: set<int>;
      if d.index in active {
        next, rolls' := active, rolls;
        assert active + {d.index} == active;
      } else {
        next, rolls' := active + {d.index}, rolls[d.index := d.roll];
      }
      assert SpawnFrom(active, rolls, draws, used, MaxActiveMoles)
          == SpawnFrom(next, rolls', draws, used + 1, MaxActiveMoles);
      TrySpawn(d.index, d.roll);
      assert active == next;
    }

    /** The spawn loop of one frame, on the supplied draws. */
    method SpawnMoles(draws: seq<Draw>) returns (used: nat)
      requires Valid()
      requires forall k :: 0 <= k < |draws| ==> 0 <= draws[k].index < |moles|
      modifies this`active, moles
      ensures Valid()
      ensures var s := SpawnRun(old(active), draws, MaxActiveMoles);
        active == s.active && used == s.used &&
        forall i :: 0 <= i < |moles| ==>
          moles[i].State() == AfterSpawn(old(moles[i].State()), i, s.rolls, Level(score))
    {
      used := 0;
      ghost var rolls: map<int, real> := map[];
      ghost var before := States();
      while used < |draws| && |active| <= MaxActiveMoles
        invariant Valid()
        invariant used <= |draws|
        invariant rolls.Keys <= active
        invariant SpawnFrom(active, rolls, draws, used, MaxActiveMoles) == SpawnRun(old(active), draws, MaxActiveMoles)
        invariant forall i :: 0 <= i < |moles| ==> moles[i].State() == AfterSpawn(before[i], i, rolls, Level(score))
        decreases |draws| - used
      {
        rolls := SpawnStep(draws, used, old(active), before, rolls);
        used := used + 1;
      }
    }

    /** The clock half of a frame while playing: the time runs down and is clamped at
        zero, where the game ends and every mole is stopped; then the label is refreshed
        (UpdateTimeUI). */
    method Tick(deltaTime: real) returns (shown: TimeLabel)
      requires Valid() && playing
      modifies this`timeRemaining, this`playing, moles
      ensures Valid()
      ensures timeRemaining == Countdown(old(timeRemaining), deltaTime)
      ensures playing <==> timeRemaining > 0.0
      ensures shown == Label(timeRemaining)
      ensures active == old(active) && score == old(score)
      ensures forall i :: 0 <= i < |moles| ==>
        moles[i].State() == if playing then old(moles[i].State()) else Step(old(moles[i].State()), Stopped).after
    {
      timeRemaining := timeRemaining - deltaTime;
      if timeRemaining <= 0.0 {
        timeRemaining := 0.0;
        GameOver();
      }
      shown := Label(timeRemaining);
    }

    /** One frame, as written: the clock runs down, the game ends when it reaches zero,
        the label is refreshed, and the spawn loop runs, also in the frame that ended
        the game. */
    method Update(deltaTime: real, draws: seq<Draw>) returns (shown: Option<TimeLabel>, used: nat)
      requires Valid()
      requires forall k :: 0 <= k < |draws| ==> 0 <= draws[k].index < |moles|
      modifies this`timeRemaining, this`playing, this`active, moles
      ensures Valid()
      ensures !old(playing) ==>
        shown == None && used == 0 && !playing &&
        timeRemaining == old(timeRemaining) && active == old(active) &&
        forall i :: 0 <= i < |moles| ==> moles[i].State() == old(moles[i].State())
      ensures old(playing) ==>
        timeRemaining == Countdown(old(timeRemaining), deltaTime) &&
        (playing <==> timeRemaining > 0.0) &&
        shown == Some(Label(timeRemaining)) &&
        var s := SpawnRun(old(active), draws, MaxActiveMoles);
        active == s.active && used == s.used &&
        forall i :: 0 <= i < |moles| ==>
          moles[i].State() == AfterSpawn(
            if playing then old(moles[i].State()) else Step(old(moles[i].State()), Stopped).after,
            i, s.rolls, Level(score))
    {
      shown, used := None, 0;
      if playing {
        var text := Tick(deltaTime);
        shown := Some(text);
        used := SpawnMoles(draws);
      }
    }

    /** One frame as intended: the same, except that the frame that ends the game
        spawns nothing, so no mole is left hittable after the game is over. */
    method UpdateStoppingAtGameOver(deltaTime: real, draws: seq<Draw>)
      returns (shown: Option<TimeLabel>, used: nat)
      requires Valid()
      requires forall k :: 0 <= k < |draws| ==> 0 <= draws[k].index < |moles|
      modifies this`timeRemaining, this`playing, this`active, moles
      ensures Valid()
      ensures !old(playing) ==>
        shown == None && used == 0 && !playing &&
        timeRemaining == old(timeRemaining) && active == old(active) &&
        forall i :: 0 <= i < |moles| ==> moles[i].State() == old(moles[i].State())
      ensures old(playing) ==>
        timeRemaining == Countdown(old(timeRemaining), deltaTime) &&
        (playing <==> timeRemaining > 0.0) &&
        shown == Some(Label(timeRemaining))
      ensures old(playing) && playing ==>
        var s := SpawnRun(old(active), draws, MaxActiveMoles);
        active == s.active && used == s.used &&
        forall i :: 0 <= i < |moles| ==>
          moles[i].State() == AfterSpawn(old(moles[i].State()), i, s.rolls, Level(score))
      // the game-ending frame leaves every mole stopped and spawns nothing
      ensures old(playing) && !playing ==>
        active == old(active) && used == 0 &&
        forall i :: 0 <= i < |moles| ==>
          moles[i].State() == Step(old(moles[i].State()), Stopped).after && !moles[i].hittable
    {
      shown, used := None, 0;
      if playing {
        var text := Tick(deltaTime);
        shown := Some(text);
        if playing {
          used := SpawnMoles(draws);
        }
      }
    }
  }

  /** Delivers the call a mole makes on its manager. */
  method Deliver(gm: GameManager, report: Report)
    requires gm.Valid()
    requires (report.AddScore? || report.Missed?) ==> 0 <= report.index < |gm.moles|
    modifies gm`score, gm`active
    ensures gm.Valid()
    ensures report.AddScore? ==>
      gm.score == old(gm.score) + report.amount && gm.active == old(gm.active) - {report.index}
    ensures report.Missed? ==>
      gm.score == old(gm.score) && gm.active == old(gm.active) - {report.index}
    ensures report.NoReport? || report.MissedWithoutManager? ==>
      gm.score == old(gm.score) && gm.active == old(gm.active)
  {
    match report
    case AddScore(i, amount) => gm.AddScore(i, amount);
    case Missed(i, isMole) => gm.Missed(i, isMole);
    case NoReport =>
    case MissedWithoutManager =>
  }

  /** The player presses pool slot k: a hittable mole with a manager scores its points
      once and leaves the active set; any other press changes neither score nor set. */
  method PressMole(gm: GameManager, k: int) returns (report: Report)
    requires gm.Valid()
    requires 0 <= k < |gm.moles|
    modifies gm`score, gm`active, gm.moles[k]
    ensures gm.Valid()
    ensures Step(old(gm.moles[k].State()), Pressed) == Outcome(gm.moles[k].State(), report)
    ensures old(gm.moles[k].hittable && gm.moles[k].hasManager) ==>
      gm.score == old(gm.score) + Points(old(gm.moles[k].moleType)) &&
      gm.active == old(gm.active) - {old(gm.moles[k].moleIndex)} &&
      !gm.moles[k].hittable
    ensures !old(gm.moles[k].hittable && gm.moles[k].hasManager) ==>
      gm.score == old(gm.score) && gm.active == old(gm.active) &&
      gm.moles[k].State() == old(gm.moles[k].State())
  {
    report := gm.moles[k].OnMouseDown();
    Deliver(gm, report);
  }

  /** The show/hide timeline of pool slot k ends: a mole still hittable is a miss and
      leaves the active set; the score never changes. */
  method EndShowHide(gm: GameManager, k: int) returns (report: Report)
    requires gm.Valid()
    requires 0 <= k < |gm.moles|
    requires gm.moles[k].showHides > 0
    modifies gm`active, gm.moles[k]
    ensures gm.Valid()
    ensures Step(old(gm.moles[k].State()), TimelineEnded) == Outcome(gm.moles[k].State(), report)
    ensures gm.score == old(gm.score)
    ensures old(gm.moles[k].hittable && gm.moles[k].hasManager) ==>
      gm.active == old(gm.active) - {old(gm.moles[k].moleIndex)}
    ensures !old(gm.moles[k].hittable && gm.moles[k].hasManager) ==> gm.active == old(gm.active)
  {
    report := gm.moles[k].ShowHideEnds();
    match report
    case Missed(i, isMole) => gm.Missed(i, isMole);
    case _ =>
  }

  /** A pool of n new moles, each with its manager set and hidden. */
  method NewPool(n: nat) returns (pool: seq<Mole>)
    ensures |pool| == n && Distinct(pool)
    ensures forall i :: 0 <= i < n ==> fresh(pool[i]) && pool[i].moleIndex == 0
  {
    pool := [];
    while |pool| < n
      invariant |pool| <= n && Distinct(pool)
      invariant forall i :: 0 <= i < |pool| ==> fresh(pool[i]) && pool[i].moleIndex == 0
    {
      var m := new Mole(true, true);
      pool := pool + [m];
    }
  }

  /** A manager over a pool of six moles, with a game just started. */
  method SixMoleGame() returns (gm: GameManager)
    ensures gm.Valid() && |gm.moles| == 6
    ensures gm.playing && gm.timeRemaining == StartingTime && gm.active == {}
    ensures fresh(gm) && forall i :: 0 <= i < |gm.moles| ==> fresh(gm.moles[i])
  {
    var pool := NewPool(6);
    gm := new GameManager(pool);
    gm.StartGame();
  }

  /** One draw for each slot of a six-mole pool. */
  const OnePerSlot: seq<Draw> :=
    [Draw(0, 0.5), Draw(1, 0.5), Draw(2, 0.5), Draw(3, 0.5), Draw(4, 0.5), Draw(5, 0.5)]

  /** From an empty active set these draws activate every slot. */
  lemma OnePerSlotSpawnsAll()
    ensures |OnePerSlot| == 6
    ensures forall i :: 0 <= i < 6 ==>
      OnePerSlot[i].index == i && i in SpawnRun({}, OnePerSlot, MaxActiveMoles).rolls
  {
    FreshDrawsAllSpawn({}, map[], OnePerSlot, 0, MaxActiveMoles);
  }

  /** One frame that uses up the whole 30 seconds of a started game of six moles, and
      draws each slot once. Update ends the game and stops every mole, and then its spawn
      loop activates all six again: the game is over while every mole is hittable. */
  method EndingFrame(gm: GameManager)
    requires gm.Valid() && |gm.moles| == 6
    requires gm.playing && gm.timeRemaining == StartingTime && gm.active == {}
    modifies gm, gm.moles
    ensures !gm.playing && gm.timeRemaining == 0.0
    ensures forall i :: 0 <= i < 6 ==> gm.moles[i].hittable
  {
    OnePerSlotSpawnsAll();
    ghost var before := gm.States();
    ghost var rolls := SpawnRun({}, OnePerSlot, MaxActiveMoles).rolls;
    var shown, used := gm.Update(30.0, OnePerSlot);
    forall i | 0 <= i < 6 ensures gm.moles[i].hittable {
      assert gm.moles[i].State() == Step(Step(before[i], Stopped).after, Activated(Level(gm.score), rolls[i])).after;
    }
  }

  /** The same frame on a game built from scratch. */
  method SpawnAfterGameOver() returns (gm: GameManager)
    ensures !gm.playing && gm.timeRemaining == 0.0
    ensures |gm.moles| == 6 && forall i :: 0 <= i < 6 ==> gm.moles[i].hittable
  {
    gm := SixMoleGame();
    EndingFrame(gm);
  }

  /** The last frame of ordinary play: five moles are out (one was just hit, so the loop
      wants one more), and the frame time uses up the clock. Update ends the game, and
      then its spawn loop activates the drawn idle mole: the game is over with that mole
      hittable. */
  method LastFrameRespawns(gm: GameManager, k: int, roll: real)
    requires gm.Valid() && gm.playing
    requires |gm.active| == MaxActiveMoles && 0 <= k < |gm.moles| && k !in gm.active
    modifies gm, gm.moles
    ensures !gm.playing && gm.timeRemaining == 0.0
    ensures k in gm.active && gm.moles[k].hittable
  {
    var draws := [Draw(k, roll)];
    assert SpawnRun(gm.active, draws, MaxActiveMoles)
        == SpawnFrom(gm.active + {k}, map[k := roll], draws, 1, MaxActiveMoles);
    var shown, used := gm.Update(gm.timeRemaining, draws);
  }
}

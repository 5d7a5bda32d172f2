/** The spawn loop of one frame (Assets/Scripts/GameManager1.cs, Update), as a pure function.
 *
 *  The loop keeps drawing a random pool index while at most `cap` moles are active; a
 *  drawn index that is not active yet is added (and that mole activated), one that is
 *  active already is skipped and the loop draws again in the same frame. The random
 *  draws are supplied as a sequence; the function also stops when they run out, which
 *  stands for a loop that in the source would go on drawing.
 */
module Spawning {

  /** One random draw: the pool index, and the roll the mole uses for its category if
      it is activated. */
  datatype Draw = Draw(index: int, roll: real)

  /** The active set at exit, how many draws were taken, and the roll of each newly
      activated index. */
  datatype Spawn = Spawn(active: set<int>, used: nat, rolls: map<int, real>)

  /** The loop from the point where `used` draws have been taken, the active set is
      `active` and the moles activated so far got `rolls`. */
  function SpawnFrom(active: set<int>, rolls: map<int, real>, draws: seq<Draw>, used: nat, cap: int): (s: Spawn)
    requires used <= |draws| && rolls.Keys <= active
    ensures used <= s.used <= |draws|
    decreases |draws| - used
  {
    if used == |draws| || |active| > cap then Spawn(active, used, rolls)
    else
      var d := draws[used];
      if d.index in active then SpawnFrom(active, rolls, draws, used + 1, cap)
      else SpawnFrom(active + {d.index}, rolls[d.index := d.roll], draws, used + 1, cap)
  }

  /** The loop only adds to the active set, what it adds is exactly what it activates,
      and a mole activated earlier keeps its roll. */
  lemma {:induction false} SpawnAdds(active: set<int>, rolls: map<int, real>, draws: seq<Draw>, used: nat, cap: int)
    requires used <= |draws| && rolls.Keys <= active
    ensures var s := SpawnFrom(active, rolls, draws, used, cap);
      && active <= s.active && s.rolls.Keys <= s.active
      && (forall i :: i in s.active && i !in active <==> i in s.rolls && i !in rolls)
      && (forall i :: i in rolls ==> i in s.rolls && s.rolls[i] == rolls[i])
    decreases |draws| - used
  {
    if used < |draws| && |active| <= cap {
      var d := draws[used];
      if d.index in active {
        SpawnAdds(active, rolls, draws, used + 1, cap);
      } else {
        SpawnAdds(active + {d.index}, rolls[d.index := d.roll], draws, used + 1, cap);
      }
    }
  }

  /** The whole loop of one frame, from the active set at its start. */
  function SpawnRun(active: set<int>, draws: seq<Draw>, cap: int): (s: Spawn)
    ensures s.used <= |draws|
    ensures s.active == active + s.rolls.Keys
    ensures s.rolls.Keys !! active
  {
    var s := SpawnFrom(active, map[], draws, 0, cap);
    SpawnAdds(active, map[], draws, 0, cap);
    assert forall i :: i in s.active <==> i in active || i in s.rolls;
    assert forall i :: i in s.rolls ==> i !in active;
    s
  }

  /** The loop exits only once more than `cap` moles are active; short of that it takes
      every draw it is given. */
  lemma {:induction false} SpawnExit(active: set<int>, rolls: map<int, real>, draws: seq<Draw>, used: nat, cap: int)
    requires used <= |draws| && rolls.Keys <= active
    ensures var s := SpawnFrom(active, rolls, draws, used, cap);
      (|s.active| > cap || s.used == |draws|) && (s.used < |draws| ==> |s.active| > cap)
    decreases |draws| - used
  {
    if used < |draws| && |active| <= cap {
      var d := draws[used];
      if d.index in active {
        SpawnExit(active, rolls, draws, used + 1, cap);
      } else {
        SpawnExit(active + {d.index}, rolls[d.index := d.roll], draws, used + 1, cap);
      }
    }
  }

  /** Every activated index was drawn, with the roll of that draw, and each iteration
      adds at most one index. */
  lemma {:induction false} SpawnedFromDraws(active: set<int>, rolls: map<int, real>, draws: seq<Draw>, used: nat, cap: int)
    requires used <= |draws| && rolls.Keys <= active
    ensures var s := SpawnFrom(active, rolls, draws, used, cap);
      |s.active| <= |active| + (s.used - used) &&
      forall i :: i in s.rolls && i !in rolls ==>
        exists k :: used <= k < s.used && draws[k] == Draw(i, s.rolls[i])
    decreases |draws| - used
  {
    if used < |draws| && |active| <= cap {
      var d := draws[used];
      var s := SpawnFrom(active, rolls, draws, used, cap);
      if d.index in active {
        SpawnedFromDraws(active, rolls, draws, used + 1, cap);
      } else {
        var rolls' := rolls[d.index := d.roll];
        SpawnedFromDraws(active + {d.index}, rolls', draws, used + 1, cap);
        SpawnAdds(active + {d.index}, rolls', draws, used + 1, cap);
        forall i | i in s.rolls && i !in rolls
          ensures exists k :: used <= k < s.used && draws[k] == Draw(i, s.rolls[i])
        {
          if i == d.index {
            assert draws[used] == Draw(i, s.rolls[i]);
          }
        }
      }
    }
  }

  /** Started from at most `cap + 1` active moles, a loop that fills stops at exactly
      `cap + 1`: one more than the cap, because it runs while the count is at most the cap. */
  lemma {:induction false} FillsToCapPlusOne(active: set<int>, rolls: map<int, real>, draws: seq<Draw>, used: nat, cap: int)
    requires used <= |draws| && rolls.Keys <= active
    requires |active| <= cap + 1
    ensures var s := SpawnFrom(active, rolls, draws, used, cap);
      |s.active| > cap ==> |s.active| == cap + 1
    decreases |draws| - used
  {
    if used < |draws| && |active| <= cap {
      var d := draws[used];
      if d.index in active {
        FillsToCapPlusOne(active, rolls, draws, used + 1, cap);
      } else {
        FillsToCapPlusOne(active + {d.index}, rolls[d.index := d.roll], draws, used + 1, cap);
      }
    }
  }

  /** A draw that hits an active mole is not a reason to stop: while the loop is below
      the cap, draws that only hit active moles are all consumed in the same frame and
      activate nothing. */
  lemma {:induction false} CollisionsRetryInFrame(active: set<int>, rolls: map<int, real>, draws: seq<Draw>, used: nat, cap: int)
    requires used <= |draws| && rolls.Keys <= active
    requires |active| <= cap
    requires forall k :: used <= k < |draws| ==> draws[k].index in active
    ensures SpawnFrom(active, rolls, draws, used, cap) == Spawn(active, |draws|, rolls)
    decreases |draws| - used
  {
    if used < |draws| {
      CollisionsRetryInFrame(active, rolls, draws, used + 1, cap);
    }
  }

  /** While the cap leaves room for them, draws of slots that are idle and pairwise
      different are all taken, and each activates its slot with its own roll. */
  lemma {:induction false} FreshDrawsAllSpawn(active: set<int>, rolls: map<int, real>, draws: seq<Draw>, used: nat, cap: int)
    requires used <= |draws| && rolls.Keys <= active
    requires |active| + (|draws| - used) <= cap + 1
    requires forall k :: used <= k < |draws| ==> draws[k].index !in active
    requires forall k, l :: used <= k < l < |draws| ==> draws[k].index != draws[l].index
    ensures var s := SpawnFrom(active, rolls, draws, used, cap);
      s.used == |draws| && forall k :: used <= k < |draws| ==> draws[k].index in s.rolls && s.rolls[draws[k].index] == draws[k].roll
    decreases |draws| - used
  {
    if used < |draws| {
      var d := draws[used];
      var rolls' := rolls[d.index := d.roll];
      FreshDrawsAllSpawn(active + {d.index}, rolls', draws, used + 1, cap);
      SpawnAdds(active + {d.index}, rolls', draws, used + 1, cap);
    }
  }

  /** The indices 0 .. n-1. */
  function Range(n: nat): (r: set<int>)
    ensures forall i :: i in r <==> 0 <= i < n
    ensures |r| == n
  {
    if n == 0 then {}
    else
      var r := Range(n - 1) + {n - 1};
      assert n - 1 !in Range(n - 1);
      r
  }

  lemma SubsetOfRangeBound(s: set<int>, n: nat)
    requires forall i :: i in s ==> 0 <= i < n
    ensures |s| <= n
  {
    var r := Range(n);
    assert r == s + (r - s);
    assert s * (r - s) == {};
  }

  /** With a pool of 1 to `cap` moles the loop can never fill: every draw is consumed
      and the frame still wants more. In the source, where the draws never run out, the
      loop does not terminate. (An empty pool is different: there the first draw's
      lookup fails.) */
  lemma SmallPoolNeverFills(active: set<int>, draws: seq<Draw>, cap: int, poolSize: nat)
    requires poolSize <= cap
    requires forall i :: i in active ==> 0 <= i < poolSize
    requires forall k :: 0 <= k < |draws| ==> 0 <= draws[k].index < poolSize
    ensures var s := SpawnRun(active, draws, cap);
      |s.active| <= cap && s.used == |draws|
  {
    var s := SpawnRun(active, draws, cap);
    SpawnedFromDraws(active, map[], draws, 0, cap);
    SpawnExit(active, map[], draws, 0, cap);
    forall i | i in s.active ensures 0 <= i < poolSize {
      if i !in active {
        var k :| 0 <= k < s.used && draws[k] == Draw(i, s.rolls[i]);
      }
    }
    SubsetOfRangeBound(s.active, poolSize);
  }
}

/** The rate limit of "terminator" mode (index.js:178-191): on each observed movement
    the session attacks the nearest player when that player is within 4 blocks and at
    least 500 ms (by the wall clock, in whole milliseconds) have passed since the
    session's last attack; only an attack moves the last-attack time. The distance
    test is floating point and enters as `inRange`. */
module Killaura {

  const Cooldown: int := 500

  predicate MayAttack(inRange: bool, now: int, lastAttack: int)
    ensures MayAttack(inRange, now, lastAttack) ==> inRange && now >= lastAttack + Cooldown
  {
    inRange && now - lastAttack >= Cooldown
  }

  /** Waiting never withdraws permission to attack a target that stays in range. */
  lemma MayAttackLater(now: int, later: int, lastAttack: int)
    requires MayAttack(true, now, lastAttack) && now <= later
    ensures MayAttack(true, later, lastAttack)
  {
  }

  /** One movement observed while terminator mode is on and a nearest player exists. */
  datatype Tick = Tick(inRange: bool, now: int)

  /** The clock readings at which a run of ticks attacks, starting from `lastAttack`. */
  function Attacks(ticks: seq<Tick>, lastAttack: int): seq<int>
  {
    if ticks == [] then []
    else if MayAttack(ticks[0].inRange, ticks[0].now, lastAttack) then [ticks[0].now] + Attacks(ticks[1..], ticks[0].now)
    else Attacks(ticks[1..], lastAttack)
  }

  /** The last-attack time after a run of ticks, starting from `lastAttack`. */
  function LastAttack(ticks: seq<Tick>, lastAttack: int): int
  {
    if ticks == [] then lastAttack
    else LastAttack(ticks[1..], if MayAttack(ticks[0].inRange, ticks[0].now, lastAttack) then ticks[0].now else lastAttack)
  }

  /** The last-attack time is the time of the run's last attack, or the starting one
      when the run attacks nothing. */
  lemma {:induction false} LastAttackIsLastAttack(ticks: seq<Tick>, lastAttack: int)
    ensures var a := Attacks(ticks, lastAttack);
      LastAttack(ticks, lastAttack) == if a == [] then lastAttack else a[|a| - 1]
  {
    if ticks != [] {
      var next := if MayAttack(ticks[0].inRange, ticks[0].now, lastAttack) then ticks[0].now else lastAttack;
      LastAttackIsLastAttack(ticks[1..], next);
    }
  }

  /** Every attack comes at least `Cooldown` after the previous one (and after the
      starting last-attack time), whatever the clock does, and only on an in-range tick. */
  lemma {:induction false} AttacksSpaced(ticks: seq<Tick>, lastAttack: int)
    ensures var a := Attacks(ticks, lastAttack);
      (|a| > 0 ==> a[0] >= lastAttack + Cooldown) &&
      (forall i :: 0 <= i < |a| - 1 ==> a[i + 1] >= a[i] + Cooldown)
    ensures forall t :: t in Attacks(ticks, lastAttack) ==> Tick(true, t) in ticks
  {
    if ticks != [] {
      AttacksSpaced(ticks[1..], ticks[0].now);
      AttacksSpaced(ticks[1..], lastAttack);
      forall t | t in Attacks(ticks[1..], ticks[0].now) || t in Attacks(ticks[1..], lastAttack)
        ensures Tick(true, t) in ticks
      {
        assert Tick(true, t) in ticks[1..];
      }
    }
  }

  lemma {:induction false} SpacedSpan(a: seq<int>)
    requires |a| > 0
    requires forall i :: 0 <= i < |a| - 1 ==> a[i + 1] >= a[i] + Cooldown
    ensures a[|a| - 1] >= a[0] + Cooldown * (|a| - 1)
  {
    if |a| > 1 {
      SpacedSpan(a[..|a| - 1]);
    }
  }

  /** Ticks whose clock readings lie within a window of `width` ms attack at most
      once per cooldown period: no more than `width / 500 + 1` times. */
  lemma AttacksInWindow(ticks: seq<Tick>, lastAttack: int, start: int, width: nat)
    requires forall k :: 0 <= k < |ticks| ==> start <= ticks[k].now <= start + width
    ensures |Attacks(ticks, lastAttack)| <= width / Cooldown + 1
  {
    var a := Attacks(ticks, lastAttack);
    AttacksSpaced(ticks, lastAttack);
    if |a| > 1 {
      SpacedSpan(a);
      assert a[0] in a && a[|a| - 1] in a;
      assert start <= a[0] && a[|a| - 1] <= start + width;
    }
  }

  /** Ticks every `step` ms, `count` of them, from `start`, all in range. */
  function Steady(start: int, step: int, count: nat): seq<Tick>
    decreases count
  {
    if count == 0 then [] else [Tick(true, start)] + Steady(start + step, step, count - 1)
  }

  /** The quiet stretch after the attack at 10500 ms and the attack at 11000 ms. */
  lemma HundredMsTail()
    ensures Attacks(Steady(10600, 100, 6), 10500) == [11000]
  {
    assert Attacks(Steady(11100, 100, 1), 11000) == [];
    assert Attacks(Steady(11000, 100, 2), 10500) == [11000];
    assert Attacks(Steady(10900, 100, 3), 10500) == [11000];
    assert Attacks(Steady(10800, 100, 4), 10500) == [11000];
    assert Attacks(Steady(10700, 100, 5), 10500) == [11000];
  }

  /** With a player in range for 1.1 s and the clock far past the initial last-attack
      time, movements every 100 ms attack three times: at 0, 500 and 1000 ms. */
  lemma HundredMsExample()
    ensures Attacks(Steady(10000, 100, 12), 0) == [10000, 10500, 11000]
  {
    HundredMsTail();
    assert Attacks(Steady(10500, 100, 7), 10000) == [10500, 11000];
    assert Attacks(Steady(10400, 100, 8), 10000) == [10500, 11000];
    assert Attacks(Steady(10300, 100, 9), 10000) == [10500, 11000];
    assert Attacks(Steady(10200, 100, 10), 10000) == [10500, 11000];
    assert Attacks(Steady(10100, 100, 11), 10000) == [10500, 11000];
  }

  /** Over the same 1.1 s, movements every 600 ms attack twice. */
  lemma SixHundredMsExample()
    ensures Attacks(Steady(10000, 600, 2), 0) == [10000, 10600]
  {
    assert Attacks(Steady(10600, 600, 1), 10000) == [10600];
  }
}

/** The roster of players the game session reports as present (index.js:116-124).
    A join appends the name; a leave keeps every other name, in order. */
module Roster {

  /** The roster after a leave: `players.filter(username => username != name)`. */
  function Without(r: seq<string>, name: string): (w: seq<string>)
    ensures name !in w
    ensures |w| <= |r|
    ensures forall x :: x in w ==> x in r
  {
    if r == [] then []
    else if r[0] != name then [r[0]] + Without(r[1..], name)
    else Without(r[1..], name)
  }

  /** Filtering distributes over concatenation, so the order of the kept names is the old order. */
  lemma {:induction false} WithoutAppend(a: seq<string>, b: seq<string>, name: string)
    ensures Without(a + b, name) == Without(a, name) + Without(b, name)
  {
    if a == [] {
      assert a + b == b;
    } else {
      assert (a + b)[0] == a[0];
      assert (a + b)[1..] == a[1..] + b;
      WithoutAppend(a[1..], b, name);
    }
  }

  /** A leave removes every occurrence of the name and keeps every other name as often as before. */
  lemma {:induction false} WithoutCounts(r: seq<string>, name: string)
    ensures multiset(Without(r, name)) == multiset(r)[name := 0]
  {
    if r != [] {
      WithoutCounts(r[1..], name);
      assert r == [r[0]] + r[1..];
      assert multiset(r) == multiset{r[0]} + multiset(r[1..]);
    }
  }

  /** A leave for a name that is not present changes nothing. */
  lemma {:induction false} WithoutAbsent(r: seq<string>, name: string)
    requires name !in r
    ensures Without(r, name) == r
  {
    if r != [] {
      assert name !in r[1..];
      WithoutAbsent(r[1..], name);
    }
  }

  /** A presence event as the game session reports it. */
  datatype Event = Joined(name: string) | Left(name: string)

  function Step(r: seq<string>, e: Event): seq<string>
  {
    match e
    case Joined(n) => r + [n]
    case Left(n) => Without(r, n)
  }

  /** The roster after a run of presence events, applied in order. */
  function Replay(r: seq<string>, evs: seq<Event>): seq<string>
  {
    if evs == [] then r else Step(Replay(r, evs[..|evs| - 1]), evs[|evs| - 1])
  }

  /** How many joins of `x` the events hold. */
  function JoinsOf(x: string, evs: seq<Event>): nat
  {
    if evs == [] then 0
    else JoinsOf(x, evs[..|evs| - 1]) + (if evs[|evs| - 1] == Joined(x) then 1 else 0)
  }

  /** The events after the last leave of `x` (all of them when `x` never left). */
  function SinceLastLeave(x: string, evs: seq<Event>): (s: seq<Event>)
    ensures Left(x) !in s
  {
    if evs == [] then []
    else if evs[|evs| - 1] == Left(x) then []
    else SinceLastLeave(x, evs[..|evs| - 1]) + [evs[|evs| - 1]]
  }

  /** One more event: how the three functions above extend. */
  lemma Snoc(r: seq<string>, init: seq<Event>, e: Event, x: string)
    ensures Replay(r, init + [e]) == Step(Replay(r, init), e)
    ensures JoinsOf(x, init + [e]) == JoinsOf(x, init) + (if e == Joined(x) then 1 else 0)
    ensures SinceLastLeave(x, init + [e]) == if e == Left(x) then [] else SinceLastLeave(x, init) + [e]
    ensures (Left(x) in init + [e]) == (Left(x) in init || e == Left(x))
  {
    assert (init + [e])[..|init|] == init;
  }

  /** How one event changes the count of `x` in a roster. */
  lemma StepCount(before: seq<string>, e: Event, x: string)
    ensures multiset(Step(before, e))[x]
         == match e
            case Joined(n) => multiset(before)[x] + (if n == x then 1 else 0)
            case Left(n) => if n == x then 0 else multiset(before)[x]
  {
    match e
    case Joined(n) =>
      assert multiset(before + [n]) == multiset(before) + multiset{n};
    case Left(n) =>
      WithoutCounts(before, n);
  }

  /** Roster consistency: after any run of joins and leaves, a name is present as many
      times as it joined since its last leave, plus its initial count if it never left. */
  lemma {:induction false} ReplayCount(r: seq<string>, evs: seq<Event>, x: string)
    ensures multiset(Replay(r, evs))[x]
         == (if Left(x) in evs then 0 else multiset(r)[x]) + JoinsOf(x, SinceLastLeave(x, evs))
  {
    if evs != [] {
      var init := evs[..|evs| - 1];
      var e := evs[|evs| - 1];
      assert evs == init + [e];
      ReplayCount(r, init, x);
      Snoc(r, init, e, x);
      StepCount(Replay(r, init), e, x);
      if e != Left(x) {
        Snoc([], SinceLastLeave(x, init), e, x);
      }
    }
  }
}

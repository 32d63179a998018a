/** The token bucket that limits pushes and invite creation. */
module RateBucket {
  import opened Base

  /** Instants are nanoseconds; the source counts whole elapsed seconds. */
  const SECOND: nat := 1_000_000_000

  datatype Controls = Controls(burst: nat, refill: nat)

  datatype Level = Level(tokens: nat, lastRefill: int)

  /** `checked_duration_since(..).unwrap_or(ZERO).as_secs()`. */
  function Elapsed(now: int, since: int): nat {
    if now < since then 0 else (now - since) / SECOND
  }

  // --------------------------------------------- the bucket over unbounded integers

  function Fresh(ctl: Controls, now: int): Level {
    Level(ctl.burst, now)
  }

  function Refilled(ctl: Controls, s: Level, now: int): Level {
    if ctl.refill == 0 || s.tokens >= ctl.burst || Elapsed(now, s.lastRefill) == 0 then s
    else Level(Min(ctl.burst, s.tokens + Elapsed(now, s.lastRefill) * ctl.refill), now)
  }

  function Consumed(ctl: Controls, s: Level, now: int): (Level, bool) {
    var f := Refilled(ctl, s, now);
    if f.tokens == 0 then (f, false) else (f.(tokens := f.tokens - 1), true)
  }

  // ------------------------------------------------------------------ the class

  class PushRateBucket {
    var tokens: nat
    var lastRefill: int

    function View(): Level
      reads this
    {
      Level(tokens, lastRefill)
    }

    constructor (ctl: Controls, now: int)
      ensures View() == Fresh(ctl, now)
    {
      tokens := ctl.burst;
      lastRefill := now;
    }

    /** Saturation never shows: the cap at `burst` hides it. */
    method Refill(ctl: Controls, now: int)
      requires ctl.burst <= USIZE_MAX
      modifies this
      ensures View() == Refilled(ctl, old(View()), now)
    {
      if ctl.refill == 0 || tokens >= ctl.burst {
        return;
      }
      var elapsedSecs := Elapsed(now, lastRefill);
      if elapsedSecs == 0 {
        return;
      }
      var refill := SatMul(elapsedSecs, ctl.refill);
      tokens := Min(SatAdd(tokens, refill), ctl.burst);
      lastRefill := now;
    }

    method TryConsume(ctl: Controls, now: int) returns (ok: bool)
      requires ctl.burst <= USIZE_MAX
      modifies this
      ensures (View(), ok) == Consumed(ctl, old(View()), now)
    {
      Refill(ctl, now);
      if tokens == 0 {
        return false;
      }
      tokens := tokens - 1;
      return true;
    }
  }

  // ------------------------------------------------------------- runs of one bucket

  /** How many calls, at the given instants in this order, are accepted. */
  ghost function Accepts(ctl: Controls, s: Level, calls: seq<int>): nat
    decreases |calls|
  {
    if calls == [] then 0
    else
      var (s', ok) := Consumed(ctl, s, calls[0]);
      (if ok then 1 else 0) + Accepts(ctl, s', calls[1..])
  }

  ghost function AfterCalls(ctl: Controls, s: Level, calls: seq<int>): Level
    decreases |calls|
  {
    if calls == [] then s else AfterCalls(ctl, Consumed(ctl, s, calls[0]).0, calls[1..])
  }

  ghost predicate Within(calls: seq<int>, lo: int, hi: int) {
    forall t | t in calls :: lo <= t <= hi
  }

  lemma Split(calls: seq<int>)
    requires calls != []
    ensures calls[0] in calls && forall t | t in calls[1..] :: t in calls
  {
  }

  lemma ElapsedAdds(a: int, b: int, c: int)
    requires a <= b <= c
    ensures Elapsed(b, a) + Elapsed(c, b) <= Elapsed(c, a) <= Elapsed(b, a) + Elapsed(c, b) + 1
  {
  }

  lemma ElapsedLater(c: int, a: int, b: int)
    requires a <= b
    ensures Elapsed(c, b) <= Elapsed(c, a)
  {
  }

  lemma Scale(n: nat, a: nat, b: nat)
    requires a <= b
    ensures a * n <= b * n
  {
  }

  lemma Distribute(n: nat, a: nat, b: nat)
    ensures (a + b) * n == a * n + b * n
  {
  }

  lemma ConsumedBounded(ctl: Controls, s: Level, now: int)
    requires s.tokens <= ctl.burst
    ensures Consumed(ctl, s, now).0.tokens <= ctl.burst
  {
  }

  lemma {:induction false} TokensBounded(ctl: Controls, s: Level, calls: seq<int>)
    requires s.tokens <= ctl.burst
    ensures AfterCalls(ctl, s, calls).tokens <= ctl.burst
    decreases |calls|
  {
    if calls != [] {
      TokensBounded(ctl, Consumed(ctl, s, calls[0]).0, calls[1..]);
    }
  }

  /** Tokens spent and left never exceed what was there plus what whole seconds added. */
  lemma {:induction false} Budget(ctl: Controls, s: Level, calls: seq<int>, hi: int)
    requires forall t | t in calls :: t <= hi
    ensures Accepts(ctl, s, calls) + AfterCalls(ctl, s, calls).tokens
            <= s.tokens + Elapsed(hi, s.lastRefill) * ctl.refill
    decreases |calls|
  {
    if calls != [] {
      Split(calls);
      var t := calls[0];
      var f := Refilled(ctl, s, t);
      Budget(ctl, Consumed(ctl, s, t).0, calls[1..], hi);
      if f != s {
        ElapsedAdds(s.lastRefill, t, hi);
        Distribute(ctl.refill, Elapsed(t, s.lastRefill), Elapsed(hi, t));
        Scale(ctl.refill, Elapsed(t, s.lastRefill) + Elapsed(hi, t), Elapsed(hi, s.lastRefill));
      }
    }
  }

  /** Since its creation a bucket accepts at most the burst plus one refill per whole second. */
  lemma AcceptsSinceCreation(ctl: Controls, t0: int, calls: seq<int>, hi: int)
    requires forall t | t in calls :: t <= hi
    ensures Accepts(ctl, Fresh(ctl, t0), calls) <= ctl.burst + Elapsed(hi, t0) * ctl.refill
    ensures AfterCalls(ctl, Fresh(ctl, t0), calls).tokens <= ctl.burst
  {
    Budget(ctl, Fresh(ctl, t0), calls, hi);
    TokensBounded(ctl, Fresh(ctl, t0), calls);
  }

  // ----------------------------------------------------------------- any time window

  /** Counting from the first refill inside the window. */
  lemma {:induction false} FromFirstRefill(ctl: Controls, s: Level, calls: seq<int>, lo: int, hi: int)
    requires Within(calls, lo, hi) && lo <= hi
    ensures Accepts(ctl, s, calls) <= s.tokens + ctl.burst + Elapsed(hi, lo) * ctl.refill
    decreases |calls|
  {
    if calls != [] {
      Split(calls);
      var t := calls[0];
      var next := Consumed(ctl, s, t).0;
      if Refilled(ctl, s, t) == s {
        FromFirstRefill(ctl, next, calls[1..], lo, hi);
      } else {
        Budget(ctl, next, calls[1..], hi);
        ElapsedLater(hi, lo, t);
        Scale(ctl.refill, Elapsed(hi, t), Elapsed(hi, lo));
      }
    }
  }

  /** A bucket that is due a refill takes it at the first call. */
  lemma RefillsAtOnce(ctl: Controls, s: Level, calls: seq<int>, lo: int, hi: int)
    requires Within(calls, lo, hi) && lo <= hi
    requires ctl.refill > 0 && s.tokens < ctl.burst && Elapsed(lo, s.lastRefill) >= 1
    ensures Accepts(ctl, s, calls) <= ctl.burst + Elapsed(hi, lo) * ctl.refill
  {
    if calls != [] {
      Split(calls);
      var t := calls[0];
      ElapsedAdds(s.lastRefill, lo, t);
      Budget(ctl, Consumed(ctl, s, t).0, calls[1..], hi);
      ElapsedLater(hi, lo, t);
      Scale(ctl.refill, Elapsed(hi, t), Elapsed(hi, lo));
    }
  }

  lemma StaleWindow(ctl: Controls, s: Level, calls: seq<int>, lo: int, hi: int)
    requires Within(calls, lo, hi) && lo <= hi && s.tokens <= ctl.burst
    requires ctl.refill > 0 && Elapsed(lo, s.lastRefill) >= 1
    ensures Accepts(ctl, s, calls) <= ctl.burst + 1 + Elapsed(hi, lo) * ctl.refill
  {
    if calls == [] {
    } else if s.tokens < ctl.burst {
      RefillsAtOnce(ctl, s, calls, lo, hi);
    } else {
      Split(calls);
      var next := Consumed(ctl, s, calls[0]).0;
      if ctl.burst == 0 {
        FromFirstRefill(ctl, next, calls[1..], lo, hi);
      } else {
        RefillsAtOnce(ctl, next, calls[1..], lo, hi);
      }
    }
  }

  /** In any window, whatever happened before it, however the calls in it are ordered. */
  lemma WindowBound(ctl: Controls, s: Level, calls: seq<int>, lo: int, hi: int)
    requires Within(calls, lo, hi) && lo <= hi && s.tokens <= ctl.burst
    ensures Accepts(ctl, s, calls) <= ctl.burst + Min(ctl.burst, ctl.refill) + Elapsed(hi, lo) * ctl.refill
  {
    FromFirstRefill(ctl, s, calls, lo, hi);
    if ctl.refill <= ctl.burst {
      if ctl.refill == 0 {
        Budget(ctl, s, calls, hi);
      } else if Elapsed(lo, s.lastRefill) == 0 {
        Budget(ctl, s, calls, hi);
        if s.lastRefill <= lo {
          ElapsedAdds(s.lastRefill, lo, hi);
        } else {
          ElapsedLater(hi, lo, s.lastRefill);
        }
        Distribute(ctl.refill, Elapsed(hi, lo), 1);
        Scale(ctl.refill, Elapsed(hi, s.lastRefill), Elapsed(hi, lo) + 1);
      } else {
        StaleWindow(ctl, s, calls, lo, hi);
      }
    }
  }

  /** Every history of every bucket keeps to `burst + slack` plus the refills of whole seconds. */
  ghost predicate KeepsWithin(ctl: Controls, slack: nat) {
    forall t0, before, calls, lo, hi | lo <= hi && Within(calls, lo, hi) ::
      Accepts(ctl, AfterCalls(ctl, Fresh(ctl, t0), before), calls) <= ctl.burst + slack + Elapsed(hi, lo) * ctl.refill
  }

  function Repeat(t: int, n: nat): seq<int> {
    if n == 0 then [] else [t] + Repeat(t, n - 1)
  }

  lemma {:induction false} RepeatWithin(t: int, n: nat)
    ensures Within(Repeat(t, n), t, t) && |Repeat(t, n)| == n
  {
    if n > 0 {
      RepeatWithin(t, n - 1);
    }
  }

  lemma {:induction false} SpendAll(ctl: Controls, s: Level, t: int, n: nat)
    requires n <= s.tokens && Elapsed(t, s.lastRefill) == 0
    ensures Accepts(ctl, s, Repeat(t, n)) == n
    ensures AfterCalls(ctl, s, Repeat(t, n)) == s.(tokens := s.tokens - n)
    decreases n
  {
    if n > 0 {
      SpendAll(ctl, s.(tokens := s.tokens - 1), t, n - 1);
      assert Repeat(t, n)[1..] == Repeat(t, n - 1);
    }
  }

  lemma {:induction false} AcceptsConcat(ctl: Controls, s: Level, a: seq<int>, b: seq<int>)
    ensures Accepts(ctl, s, a + b) == Accepts(ctl, s, a) + Accepts(ctl, AfterCalls(ctl, s, a), b)
    decreases |a|
  {
    if a == [] {
      assert a + b == b;
    } else {
      assert (a + b)[1..] == a[1..] + b;
      AcceptsConcat(ctl, Consumed(ctl, s, a[0]).0, a[1..], b);
    }
  }

  lemma {:induction false} AfterConcat(ctl: Controls, s: Level, a: seq<int>, b: seq<int>)
    ensures AfterCalls(ctl, s, a + b) == AfterCalls(ctl, AfterCalls(ctl, s, a), b)
    decreases |a|
  {
    if a == [] {
      assert a + b == b;
    } else {
      assert (a + b)[1..] == a[1..] + b;
      AfterConcat(ctl, Consumed(ctl, s, a[0]).0, a[1..], b);
    }
  }

  /** A bucket is emptied half a second after its creation and again, refilled, at one second. */
  function TwoBursts(ctl: Controls): seq<int> {
    Repeat(SECOND / 2, ctl.burst) + Repeat(SECOND, Min(ctl.burst, ctl.refill))
  }

  lemma TwoBurstsAccepted(ctl: Controls)
    ensures Within(TwoBursts(ctl), SECOND / 2, SECOND) && Elapsed(SECOND, SECOND / 2) == 0
    ensures Accepts(ctl, Fresh(ctl, 0), TwoBursts(ctl)) == ctl.burst + Min(ctl.burst, ctl.refill)
  {
    var n := Min(ctl.burst, ctl.refill);
    var empty := Level(0, 0);
    RepeatWithin(SECOND / 2, ctl.burst);
    RepeatWithin(SECOND, n);
    SpendAll(ctl, Fresh(ctl, 0), SECOND / 2, ctl.burst);
    AcceptsConcat(ctl, Fresh(ctl, 0), Repeat(SECOND / 2, ctl.burst), Repeat(SECOND, n));
    if n > 0 {
      var full := Level(n, SECOND);
      assert Elapsed(SECOND, 0) == 1;
      assert Refilled(ctl, empty, SECOND) == full;
      SpendAll(ctl, full, SECOND, n);
      assert Accepts(ctl, empty, Repeat(SECOND, n)) == Accepts(ctl, full, Repeat(SECOND, n));
    }
  }

  /**
   The exact window bound. Refills come in whole-second steps, so a window shorter than a
   second can see a whole burst and then a whole refill: the slack over the textbook
   `burst + refill * floor(d)` is min(burst, refill), and nothing less holds.
   */
  lemma WindowSlack(ctl: Controls, slack: nat)
    ensures KeepsWithin(ctl, slack) <==> Min(ctl.burst, ctl.refill) <= slack
  {
    if Min(ctl.burst, ctl.refill) <= slack {
      forall t0, before, calls, lo, hi | lo <= hi && Within(calls, lo, hi)
        ensures Accepts(ctl, AfterCalls(ctl, Fresh(ctl, t0), before), calls)
                <= ctl.burst + slack + Elapsed(hi, lo) * ctl.refill
      {
        TokensBounded(ctl, Fresh(ctl, t0), before);
        WindowBound(ctl, AfterCalls(ctl, Fresh(ctl, t0), before), calls, lo, hi);
      }
    } else {
      TwoBurstsAccepted(ctl);
      assert AfterCalls(ctl, Fresh(ctl, 0), []) == Fresh(ctl, 0);
      assert 0 * ctl.refill == 0;
    }
  }

  // ---------------------------------------------------------- what idle time earns

  /** Elapsed time counts whole seconds of a billion instants, and none for a clock that went back. */
  lemma WholeSeconds(now: int, since: int)
    ensures now <= since ==> Elapsed(now, since) == 0
    ensures since <= now ==>
              Elapsed(now, since) * 1_000_000_000 <= now - since < (Elapsed(now, since) + 1) * 1_000_000_000
  {
  }

  /** At least a second has passed since the last refill. */
  predicate Due(ctl: Controls, s: Level, t: int) {
    ctl.refill > 0 && Elapsed(t, s.lastRefill) >= 1
  }

  /** A full bucket takes a refill that is due only after its first token. */
  predicate LateRefill(ctl: Controls, s: Level, t: int) {
    Due(ctl, s, t) && s.tokens == ctl.burst && ctl.burst > 0
  }

  /** How many calls at `t` a bucket has tokens for. */
  function Earned(ctl: Controls, s: Level, t: int): nat {
    if LateRefill(ctl, s, t) then ctl.burst + 1
    else Min(ctl.burst, s.tokens + Elapsed(t, s.lastRefill) * ctl.refill)
  }

  /** The bucket after `n` calls at `t`: what is left of the earnings, and the instant they were added. */
  function LeftAfter(ctl: Controls, s: Level, t: int, n: nat): Level {
    if n == 0 then s
    else if LateRefill(ctl, s, t) && n == 1 then Level(ctl.burst - 1, s.lastRefill)
    else
      Level(Earned(ctl, s, t) - Min(n, Earned(ctl, s, t)),
            if Due(ctl, s, t) && ctl.burst > 0 then t else s.lastRefill)
  }

  lemma {:induction false} NothingDue(ctl: Controls, s: Level, t: int, n: nat)
    requires s.tokens <= ctl.burst && (!Due(ctl, s, t) || ctl.burst == 0)
    ensures Accepts(ctl, s, Repeat(t, n)) == Min(n, s.tokens)
    ensures AfterCalls(ctl, s, Repeat(t, n)) == s.(tokens := s.tokens - Min(n, s.tokens))
    decreases n
  {
    if n > 0 {
      var next := Consumed(ctl, s, t).0;
      assert Repeat(t, n)[1..] == Repeat(t, n - 1);
      NothingDue(ctl, next, t, n - 1);
    }
  }

  lemma {:induction false} RefillFirst(ctl: Controls, s: Level, t: int, n: nat)
    requires s.tokens < ctl.burst && Due(ctl, s, t)
    ensures var earned := Min(ctl.burst, s.tokens + Elapsed(t, s.lastRefill) * ctl.refill);
            && Accepts(ctl, s, Repeat(t, n)) == Min(n, earned)
            && (n > 0 ==> AfterCalls(ctl, s, Repeat(t, n)) == Level(earned - Min(n, earned), t))
  {
    if n > 0 {
      var full := Refilled(ctl, s, t);
      assert Elapsed(t, t) == 0;
      NothingDue(ctl, full, t, n);
      assert Consumed(ctl, s, t) == Consumed(ctl, full, t);
    }
  }

  lemma NothingEarned(ctl: Controls, s: Level, t: int)
    requires !Due(ctl, s, t)
    ensures Elapsed(t, s.lastRefill) * ctl.refill == 0
  {
  }

  lemma RefillSecond(ctl: Controls, s: Level, t: int, n: nat)
    requires LateRefill(ctl, s, t) && n > 0
    ensures Accepts(ctl, s, Repeat(t, n)) == Min(n, ctl.burst + 1)
    ensures AfterCalls(ctl, s, Repeat(t, n)) ==
            if n == 1 then Level(ctl.burst - 1, s.lastRefill) else Level(ctl.burst + 1 - Min(n, ctl.burst + 1), t)
  {
    var next := Level(ctl.burst - 1, s.lastRefill);
    assert Consumed(ctl, s, t) == (next, true);
    assert Repeat(t, n)[0] == t && Repeat(t, n)[1..] == Repeat(t, n - 1);
    RefillFirst(ctl, next, t, n - 1);
    Scale(ctl.refill, 1, Elapsed(t, s.lastRefill));
    hide Refilled, Consumed, Elapsed;
  }

  lemma EarnedPlain(ctl: Controls, s: Level, t: int)
    requires s.tokens <= ctl.burst && (!Due(ctl, s, t) || ctl.burst == 0)
    ensures Earned(ctl, s, t) == s.tokens
  {
    if !Due(ctl, s, t) {
      NothingEarned(ctl, s, t);
    }
  }

  /**
   The exact count, for any bucket: `n` calls at one instant are accepted as far as the idle
   time since the last refill has earned them, and this is the bucket they leave.
   */
  lemma CallsAtOnce(ctl: Controls, s: Level, t: int, n: nat)
    requires s.tokens <= ctl.burst
    ensures Accepts(ctl, s, Repeat(t, n)) == Min(n, Earned(ctl, s, t))
    ensures AfterCalls(ctl, s, Repeat(t, n)) == LeftAfter(ctl, s, t, n)
  {
    hide Refilled, Consumed, Elapsed;
    if n == 0 {
    } else if !Due(ctl, s, t) || ctl.burst == 0 {
      NothingDue(ctl, s, t, n);
      EarnedPlain(ctl, s, t);
      hide Earned, Accepts, AfterCalls;
    } else if s.tokens < ctl.burst {
      RefillFirst(ctl, s, t, n);
      hide Accepts, AfterCalls;
    } else {
      RefillSecond(ctl, s, t, n);
      hide Accepts, AfterCalls;
    }
  }

  /** Two instants: what the second finds was left by the first, and its time counts from the first's refill. */
  lemma CallsAtTwoInstants(ctl: Controls, s: Level, t: int, n: nat, u: int, m: nat)
    requires s.tokens <= ctl.burst
    ensures Accepts(ctl, s, Repeat(t, n) + Repeat(u, m)) ==
            Min(n, Earned(ctl, s, t)) + Min(m, Earned(ctl, LeftAfter(ctl, s, t, n), u))
  {
    CallsAtOnce(ctl, s, t, n);
    TokensBounded(ctl, s, Repeat(t, n));
    CallsAtOnce(ctl, LeftAfter(ctl, s, t, n), u, m);
    AcceptsConcat(ctl, s, Repeat(t, n), Repeat(u, m));
  }

  /**
   The textbook count, min(burst, tokens + seconds * refill), is met exactly unless a full
   bucket with a refill due is asked for more than a burst: then one more call is accepted.
   */
  lemma TextbookCountIff(ctl: Controls, s: Level, t: int, n: nat)
    requires s.tokens <= ctl.burst
    ensures Accepts(ctl, s, Repeat(t, n)) == Min(n, Min(ctl.burst, s.tokens + Elapsed(t, s.lastRefill) * ctl.refill))
            <==> !(LateRefill(ctl, s, t) && n > ctl.burst)
  {
    CallsAtOnce(ctl, s, t, n);
    if LateRefill(ctl, s, t) {
      Scale(ctl.refill, 1, Elapsed(t, s.lastRefill));
    }
  }

  // ------------------------------------------------------------------ no starvation

  /**
   Refused calls do not postpone the refill: after any number of them, the first call at
   least a second after the last refill is accepted.
   */
  lemma {:induction false} NeverStarves(ctl: Controls, s: Level, refused: seq<int>, t: int)
    requires ctl.burst >= 1 && ctl.refill >= 1
    requires Accepts(ctl, s, refused) == 0
    requires t >= s.lastRefill + SECOND
    ensures AfterCalls(ctl, s, refused) == s
    ensures Consumed(ctl, AfterCalls(ctl, s, refused), t).1
    decreases |refused|
  {
    if refused == [] {
      if s.tokens < ctl.burst {
        assert Elapsed(t, s.lastRefill) >= 1;
        Scale(ctl.refill, 1, Elapsed(t, s.lastRefill));
      }
    } else {
      if Refilled(ctl, s, refused[0]) != s {
        Scale(ctl.refill, 1, Elapsed(refused[0], s.lastRefill));
      }
      NeverStarves(ctl, s, refused[1..], t);
    }
  }
}

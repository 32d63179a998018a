/**
 The push rate limit under races: buckets are created at the gate of a push and
 dropped by requests that have removed a route, each some time after its own
 transaction, with anything in between.
 */
module RateLimits {
  import opened Base
  import opened RelaySpec
  import opened Fates
  import opened Handlers
  import opened Limits
  import opened Interleaving
  import B = RateBucket
  import Runs

  // ------------------------------------------------------------- one route's bucket

  ghost function AppAt(s: Settings, start: int, moves: seq<Move>, n: nat): App
    requires n <= |moves|
  {
    Play(s, start, moves[..n])
  }

  lemma NextApp(s: Settings, start: int, moves: seq<Move>, n: nat)
    requires n < |moves|
    ensures AppAt(s, start, moves, n + 1) == Do(s, AppAt(s, start, moves, n), moves[n])
  {
    assert moves[..n + 1][..n] == moves[..n];
  }

  /** The move is a push on `k` at the gate. */
  ghost predicate AsksToken(a: App, mv: Move, k: Key) {
    mv.TakeToken? && mv.task in a.tasks && a.tasks[mv.task].AtGate? && a.tasks[mv.task].p.key == k
  }

  /** The move takes a push on `k` through the gate. */
  ghost predicate Passes(s: Settings, a: App, mv: Move, k: Key) {
    AsksToken(a, mv, k) && RatePart(s.push, a.core, k, mv.mono).1 == None
  }

  /** The move drops the bucket of `k`. */
  ghost predicate DropsBucket(s: Settings, a: App, mv: Move, k: Key) {
    k in a.core.rates && k !in Do(s, a, mv).core.rates
  }

  /** The instants at which pushes on `k` asked for a token, in moves `i` up to `j`. */
  ghost function Instants(s: Settings, start: int, moves: seq<Move>, k: Key, i: nat, j: nat): seq<int>
    requires i <= j <= |moves|
    decreases j
  {
    if i == j then []
    else
      Instants(s, start, moves, k, i, j - 1)
      + (if AsksToken(AppAt(s, start, moves, j - 1), moves[j - 1], k) then [moves[j - 1].mono] else [])
  }

  /** How many pushes on `k` passed the gate in moves `i` up to `j`. */
  ghost function Passed(s: Settings, start: int, moves: seq<Move>, k: Key, i: nat, j: nat): nat
    requires i <= j <= |moves|
    decreases j
  {
    if i == j then 0
    else
      Passed(s, start, moves, k, i, j - 1)
      + (if Passes(s, AppAt(s, start, moves, j - 1), moves[j - 1], k) then 1 else 0)
  }

  /** How often the bucket of `k` was dropped in moves `i` up to `j`. */
  ghost function Drops(s: Settings, start: int, moves: seq<Move>, k: Key, i: nat, j: nat): nat
    requires i <= j <= |moves|
    decreases j
  {
    if i == j then 0
    else
      Drops(s, start, moves, k, i, j - 1)
      + (if DropsBucket(s, AppAt(s, start, moves, j - 1), moves[j - 1], k) then 1 else 0)
  }

  lemma ReachableOk(s: Settings, start: int, moves: seq<Move>, n: nat)
    requires s.invite.maxExpirySecs > 0 && n <= |moves|
    ensures RoutesLive(AppAt(s, start, moves, n).core.relay.queues) && TasksOk(s.config, AppAt(s, start, moves, n))
  {
    InterleavingIsRun(s, start, moves[..n]);
    var es := Trace(s, start, moves[..n]);
    hide Play, Trace, TasksOk;
    assert es[..|es|] == es;
    Runs.RunWellFormed(s.config, es, |es|);
  }

  /** A move draws from the bucket of `k`, drops it, or leaves it alone. */
  lemma BucketStep(s: Settings, a: App, mv: Move, k: Key)
    ensures var rates, rates' := a.core.rates, Do(s, a, mv).core.rates;
            if AsksToken(a, mv, k) then
              var (level, ok) := B.Consumed(s.push, BucketOf(s.push, rates, k, mv.mono), mv.mono);
              k in rates' && rates'[k] == level && (Passes(s, a, mv, k) <==> ok)
            else !Passes(s, a, mv, k) && (k in rates' ==> k in rates && rates'[k] == rates[k])
  {
    hide TasksAfter, CreatesAfter, DropsAfter, B.Consumed, Sweep, Step, CreateGate, Pull, Ack, Redeem, Revoke;
  }

  /** No bucket ever holds more than the burst. */
  lemma {:induction false} LevelsBounded(s: Settings, start: int, moves: seq<Move>, k: Key, n: nat)
    requires n <= |moves| && k in AppAt(s, start, moves, n).core.rates
    ensures AppAt(s, start, moves, n).core.rates[k].tokens <= s.push.burst
  {
    if n > 0 {
      var a, mv := AppAt(s, start, moves, n - 1), moves[n - 1];
      NextApp(s, start, moves, n - 1);
      BucketStep(s, a, mv, k);
      if k in a.core.rates {
        LevelsBounded(s, start, moves, k, n - 1);
      }
      hide AppAt, Do, Passes, B.Consumed;
      if AsksToken(a, mv, k) {
        B.ConsumedBounded(s.push, BucketOf(s.push, a.core.rates, k, mv.mono), mv.mono);
      }
    }
  }

  /**
   From `rates` to `rates'` the bucket of `k` answered `calls` and let `passed` of them
   through; a bucket that was missing was created at the first call.
   */
  ghost predicate Answered(ctl: B.Controls, k: Key, rates: map<Key, B.Level>, rates': map<Key, B.Level>,
                           calls: seq<int>, passed: nat)
  {
    if calls == [] then
      passed == 0 && (k in rates <==> k in rates') && (k in rates ==> rates[k] == rates'[k])
    else
      var level := BucketOf(ctl, rates, k, calls[0]);
      passed == B.Accepts(ctl, level, calls) && k in rates' && rates'[k] == B.AfterCalls(ctl, level, calls)
  }

  lemma AnswersOneMore(ctl: B.Controls, k: Key, rates: map<Key, B.Level>, was: map<Key, B.Level>,
                       rates': map<Key, B.Level>, calls: seq<int>, passed: nat, t: int)
    requires Answered(ctl, k, rates, was, calls, passed)
    requires k in rates' && rates'[k] == B.Consumed(ctl, BucketOf(ctl, was, k, t), t).0
    ensures Answered(ctl, k, rates, rates', calls + [t],
                     passed + (if B.Consumed(ctl, BucketOf(ctl, was, k, t), t).1 then 1 else 0))
  {
    var level := BucketOf(ctl, rates, k, (calls + [t])[0]);
    assert BucketOf(ctl, was, k, t) == B.AfterCalls(ctl, level, calls);
    B.AcceptsConcat(ctl, level, calls, [t]);
    B.AfterConcat(ctl, level, calls, [t]);
    hide B.Consumed;
    assert B.AfterCalls(ctl, B.Consumed(ctl, BucketOf(ctl, was, k, t), t).0, []) == rates'[k];
  }

  lemma AnsweredStep(s: Settings, a: App, mv: Move, k: Key, rates: map<Key, B.Level>, calls: seq<int>, passed: nat)
    requires Answered(s.push, k, rates, a.core.rates, calls, passed) && !DropsBucket(s, a, mv, k)
    ensures Answered(s.push, k, rates, Do(s, a, mv).core.rates,
                     calls + (if AsksToken(a, mv, k) then [mv.mono] else []),
                     passed + (if Passes(s, a, mv, k) then 1 else 0))
  {
    BucketStep(s, a, mv, k);
    hide Do, Passes, B.Consumed, BucketOf;
    if AsksToken(a, mv, k) {
      hide Answered;
      AnswersOneMore(s.push, k, rates, a.core.rates, Do(s, a, mv).core.rates, calls, passed, mv.mono);
    } else {
      assert calls + [] == calls;
    }
  }

  /**
   While the bucket of a route is not dropped, the pushes that pass its gate are those that
   the bucket accepts at the instants at which pushes ask, in the order of the interleaving.
   */
  lemma {:induction false} GateIsBucket(s: Settings, start: int, moves: seq<Move>, k: Key, i: nat, j: nat)
    requires i <= j <= |moves| && Drops(s, start, moves, k, i, j) == 0
    ensures Answered(s.push, k, AppAt(s, start, moves, i).core.rates, AppAt(s, start, moves, j).core.rates,
                     Instants(s, start, moves, k, i, j), Passed(s, start, moves, k, i, j))
    decreases j
  {
    hide AppAt, Do, AsksToken, Passes, DropsBucket;
    if i < j {
      GateIsBucket(s, start, moves, k, i, j - 1);
      NextApp(s, start, moves, j - 1);
      hide Answered;
      AnsweredStep(s, AppAt(s, start, moves, j - 1), moves[j - 1], k, AppAt(s, start, moves, i).core.rates,
                   Instants(s, start, moves, k, i, j - 1), Passed(s, start, moves, k, i, j - 1));
    }
  }

  /** How many pushes a fresh bucket lets through between two instants. */
  ghost function Allowance(ctl: B.Controls, lo: int, hi: int): nat {
    ctl.burst + B.Elapsed(hi, lo) * ctl.refill
  }

  /** What a bucket created before the first instant may let through on top. */
  ghost function Slack(ctl: B.Controls, rates: map<Key, B.Level>, k: Key): nat {
    if k in rates then Min(ctl.burst, ctl.refill) else 0
  }

  lemma FreshBound(ctl: B.Controls, calls: seq<int>, lo: int, hi: int)
    requires calls != [] && lo <= hi && B.Within(calls, lo, hi)
    ensures B.Accepts(ctl, B.Fresh(ctl, calls[0]), calls) <= Allowance(ctl, lo, hi)
  {
    assert calls[0] in calls;
    B.AcceptsSinceCreation(ctl, calls[0], calls, hi);
    B.ElapsedLater(hi, lo, calls[0]);
    B.Scale(ctl.refill, B.Elapsed(hi, calls[0]), B.Elapsed(hi, lo));
  }

  lemma OneLifetime(s: Settings, start: int, moves: seq<Move>, k: Key, i: nat, j: nat, lo: int, hi: int)
    requires i <= j <= |moves| && Drops(s, start, moves, k, i, j) == 0
    requires lo <= hi && B.Within(Instants(s, start, moves, k, i, j), lo, hi)
    ensures Passed(s, start, moves, k, i, j) <=
            Allowance(s.push, lo, hi) + Slack(s.push, AppAt(s, start, moves, i).core.rates, k)
  {
    GateIsBucket(s, start, moves, k, i, j);
    hide AppAt, Passed, Instants;
    var calls := Instants(s, start, moves, k, i, j);
    var rates := AppAt(s, start, moves, i).core.rates;
    if calls != [] {
      if k in rates {
        LevelsBounded(s, start, moves, k, i);
        B.WindowBound(s.push, rates[k], calls, lo, hi);
      } else {
        FreshBound(s.push, calls, lo, hi);
      }
    }
  }

  // ---------------------------------------------------------- several lifetimes

  lemma {:induction false} SplitAt(s: Settings, start: int, moves: seq<Move>, k: Key, i: nat, n: nat, j: nat)
    requires i <= n <= j <= |moves|
    ensures Passed(s, start, moves, k, i, j) == Passed(s, start, moves, k, i, n) + Passed(s, start, moves, k, n, j)
    ensures Drops(s, start, moves, k, i, j) == Drops(s, start, moves, k, i, n) + Drops(s, start, moves, k, n, j)
    ensures Instants(s, start, moves, k, i, j) ==
            Instants(s, start, moves, k, i, n) + Instants(s, start, moves, k, n, j)
    decreases j
  {
    hide AppAt, Passes, DropsBucket, AsksToken;
    if n < j {
      SplitAt(s, start, moves, k, i, n, j - 1);
    }
  }

  lemma {:induction false} LastDrop(s: Settings, start: int, moves: seq<Move>, k: Key, i: nat, j: nat) returns (n: nat)
    requires i <= j <= |moves| && Drops(s, start, moves, k, i, j) > 0
    ensures i <= n < j && DropsBucket(s, AppAt(s, start, moves, n), moves[n], k)
    ensures Drops(s, start, moves, k, n + 1, j) == 0
    decreases j
  {
    hide AppAt, DropsBucket;
    if DropsBucket(s, AppAt(s, start, moves, j - 1), moves[j - 1], k) {
      n := j - 1;
    } else {
      n := LastDrop(s, start, moves, k, i, j - 1);
    }
  }

  lemma WithinParts(a: seq<int>, b: seq<int>, lo: int, hi: int)
    requires B.Within(a + b, lo, hi)
    ensures B.Within(a, lo, hi) && B.Within(b, lo, hi)
  {
    assert forall t | t in a || t in b :: t in a + b;
  }

  /** A move that drops the bucket lets nobody through. */
  lemma OneDrop(s: Settings, start: int, moves: seq<Move>, k: Key, i: nat, n: nat)
    requires i <= n < |moves| && DropsBucket(s, AppAt(s, start, moves, n), moves[n], k)
    ensures Passed(s, start, moves, k, i, n + 1) == Passed(s, start, moves, k, i, n)
    ensures Drops(s, start, moves, k, i, n + 1) == Drops(s, start, moves, k, i, n) + 1
    ensures Instants(s, start, moves, k, i, n + 1) == Instants(s, start, moves, k, i, n)
    ensures k !in AppAt(s, start, moves, n + 1).core.rates
  {
    BucketStep(s, AppAt(s, start, moves, n), moves[n], k);
    NextApp(s, start, moves, n);
    hide AppAt, Do, AsksToken, Passes, B.Consumed;
  }

  /**
   The rate limit under races: whatever clients interleave, in any stretch of moves and any
   window of instants the gate of a route lets through at most one allowance for each
   lifetime of its bucket, and the slack of the bucket that was there at first.
   */
  lemma {:induction false} GateUnderRaces(s: Settings, start: int, moves: seq<Move>, k: Key, i: nat, j: nat,
                                          lo: int, hi: int)
    requires i <= j <= |moves| && lo <= hi && B.Within(Instants(s, start, moves, k, i, j), lo, hi)
    ensures Passed(s, start, moves, k, i, j) <=
            (Drops(s, start, moves, k, i, j) + 1) * Allowance(s.push, lo, hi)
            + Slack(s.push, AppAt(s, start, moves, i).core.rates, k)
    decreases j
  {
    hide Passed, Instants, AppAt, Allowance, AsksToken, Do;
    if Drops(s, start, moves, k, i, j) == 0 {
      OneLifetime(s, start, moves, k, i, j, lo, hi);
    } else {
      var n := LastDrop(s, start, moves, k, i, j);
      SplitAt(s, start, moves, k, i, n + 1, j);
      OneDrop(s, start, moves, k, i, n);
      WithinParts(Instants(s, start, moves, k, i, n), Instants(s, start, moves, k, n + 1, j), lo, hi);
      hide Drops;
      GateUnderRaces(s, start, moves, k, i, n, lo, hi);
      OneLifetime(s, start, moves, k, n + 1, j, lo, hi);
      B.Distribute(Allowance(s.push, lo, hi), Drops(s, start, moves, k, i, n) + 1, 1);
    }
  }

  // ------------------------------------------------------ from the gate to the store

  /** The enqueue transactions on route `k`. */
  function Enqueues(es: seq<Event>, k: Key): nat {
    if es == [] then 0
    else
      var e := es[|es| - 1];
      Enqueues(es[..|es| - 1], k) + (if e.EEnqueue? && e.key == k then 1 else 0)
  }

  /** The pushes on `k` that have their token and not yet their transaction. */
  ghost function Waiting(a: App, k: Key): set<nat> {
    set t | t in a.tasks && a.tasks[t].Committing? && a.tasks[t].p.key == k
  }

  /** Only a passed gate and a commit change who is waiting. */
  lemma WaitingTasks(s: Settings, a: App, mv: Move, k: Key)
    ensures Waiting(Do(s, a, mv), k) ==
            if Passes(s, a, mv, k) then Waiting(a, k) + {mv.task}
            else if mv.Commit? then Waiting(a, k) - {mv.task}
            else Waiting(a, k)
    ensures Passes(s, a, mv, k) ==> mv.task !in Waiting(a, k)
  {
    hide CoreAfter, CreatesAfter, DropsAfter, Sweep, StatusOf, StatusAnswer, CommitPart, B.Consumed, PushGuard;
    var tasks, tasks' := a.tasks, Do(s, a, mv).tasks;
    forall t ensures t in Waiting(Do(s, a, mv), k) <==>
                     (Passes(s, a, mv, k) && t == mv.task) || (t in Waiting(a, k) && !(mv.Commit? && t == mv.task))
    {
    }
  }

  lemma EnqueueIsCommit(s: Settings, a: App, mv: Move, k: Key)
    requires TasksOk(s.config, a)
    ensures var e := EventOf(s, a, mv);
            (e.Some? && e.value.EEnqueue? && e.value.key == k) <==> (mv.Commit? && mv.task in Waiting(a, k))
  {
    assert mv.CreateMove? && mv.n < |a.creates| ==> a.creates[mv.n] in a.creates;
  }

  lemma WaitingStep(s: Settings, a: App, mv: Move, k: Key)
    requires TasksOk(s.config, a)
    ensures var e := EventOf(s, a, mv);
            |Waiting(Do(s, a, mv), k)| + (if e.Some? && e.value.EEnqueue? && e.value.key == k then 1 else 0) ==
            |Waiting(a, k)| + (if Passes(s, a, mv, k) then 1 else 0)
  {
    WaitingTasks(s, a, mv, k);
    EnqueueIsCommit(s, a, mv, k);
    assert Passes(s, a, mv, k) ==> !mv.Commit?;
    hide Do, EventOf, Passes, Waiting, TasksOk;
  }

  lemma EnqueuesOneMore(s: Settings, start: int, moves: seq<Move>, k: Key, n: nat)
    requires n < |moves|
    ensures var e := EventOf(s, AppAt(s, start, moves, n), moves[n]);
            Enqueues(Trace(s, start, moves[..n + 1]), k) == Enqueues(Trace(s, start, moves[..n]), k)
              + (if e.Some? && e.value.EEnqueue? && e.value.key == k then 1 else 0)
  {
    hide EventOf, Play;
    assert moves[..n + 1][..n] == moves[..n];
    var es, e := Trace(s, start, moves[..n]), EventOf(s, AppAt(s, start, moves, n), moves[n]);
    if e.Some? {
      assert Trace(s, start, moves[..n + 1]) == es + [e.value];
      assert (es + [e.value])[..|es|] == es;
    } else {
      assert Trace(s, start, moves[..n + 1]) == es;
    }
  }

  /** Every enqueue transaction was paid for with a token of its route. */
  lemma {:induction false} TokensPayForEnqueues(s: Settings, start: int, moves: seq<Move>, k: Key, n: nat)
    requires s.invite.maxExpirySecs > 0 && n <= |moves|
    ensures Enqueues(Trace(s, start, moves[..n]), k) + |Waiting(AppAt(s, start, moves, n), k)| ==
            Passed(s, start, moves, k, 0, n)
  {
    if n > 0 {
      hide Do, Passes, Waiting, TasksOk, RoutesLive, EventOf, AppAt, Trace, Enqueues;
      TokensPayForEnqueues(s, start, moves, k, n - 1);
      ReachableOk(s, start, moves, n - 1);
      NextApp(s, start, moves, n - 1);
      WaitingStep(s, AppAt(s, start, moves, n - 1), moves[n - 1], k);
      EnqueuesOneMore(s, start, moves, k, n - 1);
    } else {
      assert moves[..0] == [];
    }
  }

  lemma NoBucketAtFirst(s: Settings, start: int, moves: seq<Move>, k: Key)
    ensures k !in AppAt(s, start, moves, 0).core.rates
  {
    assert moves[..0] == [];
  }

  /**
   However many clients race, the enqueue transactions of a route, and so its accepted
   pushes, are at most one allowance of a fresh bucket for each lifetime of its bucket.
   */
  lemma EnqueuesAreLimited(s: Settings, start: int, moves: seq<Move>, k: Key, lo: int, hi: int)
    requires s.invite.maxExpirySecs > 0
    requires lo <= hi && B.Within(Instants(s, start, moves, k, 0, |moves|), lo, hi)
    ensures Enqueues(Trace(s, start, moves), k) <=
            (Drops(s, start, moves, k, 0, |moves|) + 1) * Allowance(s.push, lo, hi)
  {
    hide Trace, Enqueues, Passed, Drops, Waiting, Allowance, AppAt, Instants;
    NoBucketAtFirst(s, start, moves, k);
    TokensPayForEnqueues(s, start, moves, k, |moves|);
    assert moves[..|moves|] == moves;
    GateUnderRaces(s, start, moves, k, 0, |moves|, lo, hi);
  }

  // --------------------------------------------------------- when a bucket is dropped

  /** Some request is still to drop the bucket of `k`. */
  ghost predicate Pending(a: App, k: Key) {
    || (exists n :: 0 <= n < |a.drops| && k in a.drops[n])
    || (exists t :: t in a.tasks && a.tasks[t].Pruning? && k in a.tasks[t].removed)
  }

  lemma DeliveryLeavesPending(s: Settings, a: App, mv: Move, k: Key)
    requires RoutesLive(a.core.relay.queues) && (mv.PullMove? || mv.AckMove?)
    requires k in a.core.relay.queues && k !in Do(s, a, mv).core.relay.queues
    ensures exists n :: 0 <= n < |DropsOf(s, a, mv)| && k in DropsOf(s, a, mv)[n]
  {
    var ds := DropsOf(s, a, mv);
    assert |ds| == 2;
    var r := Sweep(a.core.relay, s.config.ttl, mv.now);
    assert k in r.queues ==> Queue(r, k) != [];
    hide Sweep, Batch, Edit, Dropped, StatusOf;
    if k in r.queues {
      assert k in ds[1];
    } else {
      assert k in ds[0];
    }
  }

  lemma OthersRemoveNothing(s: Settings, a: App, mv: Move)
    requires TasksOk(s.config, a)
    requires !mv.CreateMove? && !mv.PullMove? && !mv.AckMove? && !mv.SweepMove? && !mv.Advise?
    ensures a.core.relay.queues.Keys <= CoreAfter(s, a, mv).relay.queues.Keys
  {
    hide Sweep, B.Consumed, CreateGate, EnqueueReply;
  }

  ghost predicate Removes(s: Settings, a: App, mv: Move, k: Key) {
    k in a.core.relay.queues && k !in Do(s, a, mv).core.relay.queues
  }

  lemma RemovalIsPending(s: Settings, a: App, mv: Move, k: Key)
    requires RoutesLive(a.core.relay.queues) && TasksOk(s.config, a) && !mv.CreateMove? && Removes(s, a, mv, k)
    ensures Pending(Do(s, a, mv), k)
  {
    var a' := Do(s, a, mv);
    hide Sweep, StatusOf, StatusAnswer, B.Consumed, CreatesAfter, RoutesLive, TasksOk;
    if mv.PullMove? || mv.AckMove? {
      DeliveryLeavesPending(s, a, mv, k);
      hide CoreAfter, TasksAfter, DropsOf;
      var n :| 0 <= n < |DropsOf(s, a, mv)| && k in DropsOf(s, a, mv)[n];
      assert a'.drops[|a.drops| + n] == DropsOf(s, a, mv)[n];
    } else if mv.SweepMove? {
      assert k in a'.drops[|a.drops|];
    } else if mv.Advise? {
      assert k in a'.tasks[mv.task].removed;
    } else {
      OthersRemoveNothing(s, a, mv);
    }
  }

  lemma PullRoutes(c: Config, r: Relay, key: Key, max: nat, budget: nat, now: int, mode: PullMode)
    ensures var w := Sweep(r, c.ttl, now).queues;
            var (b, y) := Pull(r, c.ttl, c.lease, key, max, budget, now, mode);
            && b.queues.Keys == w.Keys - (if key in b.queues then {} else {key})
            && (y.drained ==> key in w && key !in b.queues)
  {
    hide Sweep, Batch;
  }

  lemma AckRoutes(c: Config, r: Relay, key: Key, ids: seq<string>, now: int)
    ensures var w := Sweep(r, c.ttl, now).queues;
            var (b, y) := Ack(r, c.ttl, key, ids, now);
            && b.queues.Keys == w.Keys - (if key in b.queues then {} else {key})
            && (y.drained ==> key in w && key !in b.queues)
  {
    hide Sweep, Dropped;
  }

  /** What a pull or an ack does to the routes after its sweep. */
  lemma DeliveryRoutes(s: Settings, a: App, mv: Move)
    requires (mv.PullMove? || mv.AckMove?) && EventOf(s, a, mv).Some?
    ensures var w := Sweep(a.core.relay, s.config.ttl, mv.now).queues;
            var ds, after := DropsOf(s, a, mv), Do(s, a, mv).core.relay.queues;
            && |ds| == 2 && ds[0] == a.core.relay.queues.Keys - w.Keys
            && after.Keys == w.Keys - (if mv.key in after then {} else {mv.key})
            && (mv.key in ds[1] ==> mv.key in w && mv.key !in after) && ds[1] <= {mv.key}
  {
    hide Sweep, Batch, Dropped, TasksAfter, CreatesAfter, DropsAfter;
    match mv
    case PullMove(key, max, ackMode, now) =>
      var e := PullEvent(s.config, key, max, ackMode, now).value;
      PullRoutes(s.config, a.core.relay, key, e.max, e.budget, now, e.mode);
      hide Pull;
    case AckMove(key, ids, now) =>
      AckRoutes(s.config, a.core.relay, key, ids, now);
      hide Ack;
  }

  /** A new waiting drop names a route that the move removed. */
  lemma NewDropsRemoved(s: Settings, a: App, mv: Move, k: Key, n: nat)
    requires n < |DropsOf(s, a, mv)| && k in DropsOf(s, a, mv)[n]
    ensures Removes(s, a, mv, k)
  {
    hide Batch, Edit, Dropped, TasksAfter, CreatesAfter, DropsAfter, Pull, Ack;
    if mv.PullMove? || mv.AckMove? {
      DeliveryRoutes(s, a, mv);
      assert k in a.core.relay.queues;
      hide DropsOf, Sweep, CoreAfter;
    }
  }

  lemma NoDropsOfCreation(s: Settings, a: App, mv: Move)
    ensures mv.CreateMove? ==> DropsOf(s, a, mv) == [] && Do(s, a, mv).core.rates == a.core.rates
  {
    hide Step;
  }

  lemma PendingIsRemoval(s: Settings, a: App, mv: Move, k: Key)
    requires !Pending(a, k) && Pending(Do(s, a, mv), k)
    ensures !mv.CreateMove? && Removes(s, a, mv, k)
  {
    var a' := Do(s, a, mv);
    hide Sweep, StatusOf, StatusAnswer, CommitPart, RatePart, DropsOf, CreatesAfter, CreateGate;
    hide PullPart, AckPart, PullEvent;
    if n :| 0 <= n < |a'.drops| && k in a'.drops[n] {
      if !mv.DropMove? && n >= |a.drops| {
        NoDropsOfCreation(s, a, mv);
        NewDropsRemoved(s, a, mv, k, n - |a.drops|);
      }
    } else {
      var t :| t in a'.tasks && a'.tasks[t].Pruning? && k in a'.tasks[t].removed;
      assert mv == Advise(t);
    }
  }

  /**
   Exactly when a request comes to owe a drop: when it removes the route, unless it is a
   creation. A creation's sweep removes routes too; it leaves all buckets as they are, and
   nobody will drop those of the routes it removed.
   */
  lemma DropIsOwedIff(s: Settings, a: App, mv: Move, k: Key)
    requires RoutesLive(a.core.relay.queues) && TasksOk(s.config, a) && !Pending(a, k)
    ensures Pending(Do(s, a, mv), k) <==> Removes(s, a, mv, k) && !mv.CreateMove?
    ensures mv.CreateMove? ==> Do(s, a, mv).core.rates == a.core.rates
  {
    hide Pending, Removes, Do, DropsOf;
    NoDropsOfCreation(s, a, mv);
    if Removes(s, a, mv, k) && !mv.CreateMove? {
      RemovalIsPending(s, a, mv, k);
    }
    if Pending(Do(s, a, mv), k) {
      PendingIsRemoval(s, a, mv, k);
    }
  }

  /** A pending drop stays pending until the bucket is gone. */
  lemma PendingStep(s: Settings, a: App, mv: Move, k: Key)
    requires Pending(a, k)
    ensures Pending(Do(s, a, mv), k) || k !in Do(s, a, mv).core.rates
  {
    var a' := Do(s, a, mv);
    hide Sweep, StatusOf, StatusAnswer, CommitPart, RatePart, DropsOf, CreatesAfter, CreateGate;
    hide PullPart, AckPart, PullEvent;
    if n :| 0 <= n < |a.drops| && k in a.drops[n] {
      if mv.DropMove? && mv.n < |a.drops| {
        if n < mv.n {
          assert a'.drops[n] == a.drops[n];
        } else if n > mv.n {
          assert a'.drops[n - 1] == a.drops[n];
        }
      } else {
        assert a'.drops[n] == a.drops[n];
      }
    } else {
      var t :| t in a.tasks && a.tasks[t].Pruning? && k in a.tasks[t].removed;
      if !(mv == Prune(t)) {
        assert a'.tasks[t] == a.tasks[t];
      }
    }
  }

  /**
   From the move that removes a route on, the drop of its bucket is pending or has been
   done, unless that move was a creation's.
   */
  lemma {:induction false} BucketIsReleased(s: Settings, start: int, moves: seq<Move>, k: Key, m: nat, n: nat)
    requires s.invite.maxExpirySecs > 0 && m < n <= |moves|
    requires Removes(s, AppAt(s, start, moves, m), moves[m], k)
    ensures !moves[m].CreateMove? ==>
              || Pending(AppAt(s, start, moves, n), k)
              || exists p :: m < p <= n && k !in AppAt(s, start, moves, p).core.rates
    decreases n
  {
    hide Do, Play, Trace, Pending, Removes;
    var a := AppAt(s, start, moves, n - 1);
    NextApp(s, start, moves, n - 1);
    if moves[m].CreateMove? {
    } else if n == m + 1 {
      ReachableOk(s, start, moves, m);
      RemovalIsPending(s, a, moves[m], k);
    } else {
      BucketIsReleased(s, start, moves, k, m, n - 1);
      if Pending(a, k) {
        PendingStep(s, a, moves[n - 1], k);
      }
    }
  }

  /** The bucket of `k` is given back after a refusal for the route cap. */
  ghost predicate Releases(a: App, mv: Move, k: Key) {
    mv.Release? && k in DropsNow(a, mv)
  }

  /** With other moves in between, a bucket goes exactly when a waiting drop names it, be its route live or not. */
  lemma BucketGoesIff(s: Settings, a: App, mv: Move, k: Key)
    ensures DropsBucket(s, a, mv, k) <==> k in a.core.rates && k in DropsNow(a, mv)
    ensures DropsNow(a, mv) != {} ==> Do(s, a, mv).core.relay == a.core.relay
  {
    hide TasksAfter, CreatesAfter, DropsAfter, B.Consumed, Sweep, Step, CreateGate, Pull, Ack, Redeem, Revoke;
  }

  lemma NotPendingNotDropped(s: Settings, a: App, mv: Move, k: Key)
    requires !Pending(a, k) && !Releases(a, mv, k)
    ensures !DropsBucket(s, a, mv, k)
  {
    BucketGoesIff(s, a, mv, k);
    hide Do;
    if mv.DropMove? && mv.n < |a.drops| {
      assert k !in a.drops[mv.n];
    }
  }

  lemma NotAReleaseNow(a: App, mv: Move, k: Key)
    requires mv.CreateMove?
    ensures !Releases(a, mv, k)
  {
  }

  /**
   What a creation leaves behind: when its sweep has removed a route, the bucket stays, for
   as long as no other request removes a later route of the same key and no push on it is
   refused for the route cap.
   */
  lemma {:induction false} CreationKeepsBucket(s: Settings, start: int, moves: seq<Move>, k: Key, m: nat, n: nat)
    requires s.invite.maxExpirySecs > 0 && m < n <= |moves| && moves[m].CreateMove?
    requires !Pending(AppAt(s, start, moves, m), k) && k in AppAt(s, start, moves, m).core.rates
    requires forall p | m < p < n ::
      && (moves[p].CreateMove? || !Removes(s, AppAt(s, start, moves, p), moves[p], k))
      && !Releases(AppAt(s, start, moves, p), moves[p], k)
    ensures !Pending(AppAt(s, start, moves, n), k) && k in AppAt(s, start, moves, n).core.rates
    ensures Drops(s, start, moves, k, m, n) == 0
    decreases n
  {
    hide Play, Trace, Pending, Removes, Do, AppAt, Releases;
    var a := AppAt(s, start, moves, n - 1);
    NextApp(s, start, moves, n - 1);
    ReachableOk(s, start, moves, n - 1);
    if n > m + 1 {
      CreationKeepsBucket(s, start, moves, k, m, n - 1);
    } else {
      NotAReleaseNow(a, moves[m], k);
    }
    DropIsOwedIff(s, a, moves[n - 1], k);
    NotPendingNotDropped(s, a, moves[n - 1], k);
  }

  lemma PushOkStores(s: Settings, a: Core, p: Push, mono: int)
    requires PushPart(s, a, p, mono).1.PushOk?
    ensures p.key in PushPart(s, a, p, mono).0.relay.queues
  {
    hide Sweep, B.Consumed;
  }

  /** With nothing in between, a pull or an ack drops the bucket of a route exactly when it removes the route. */
  lemma LoneDeliveryDrops(s: Settings, a: App, mv: Move, k: Key)
    requires RoutesLive(a.core.relay.queues) && (mv.PullMove? || mv.AckMove?) && k in a.core.rates
    ensures var b := LoneDelivery(s, a, mv).core;
            k !in b.rates <==> k in a.core.relay.queues && k !in b.relay.queues
  {
    LoneDeliveryIsHandler(s, a, mv);
    var r := Sweep(a.core.relay, s.config.ttl, mv.now);
    assert forall j | j in r.queues :: j in a.core.relay.queues && r.queues[j] != [];
    hide Sweep, Batch, Edit, LoneDelivery, RoutesLive, Dropped;
  }

  /**
   A drop may come too late: when a push is stored on the route between the transaction
   that drained it and the drop, the live route is left without its bucket, and its next
   push meets a full one.
   */
  lemma LateDropHitsLiveRoute(s: Settings, a: App, mv: Move, k: Key, t: nat, p: Push, mono: int)
    requires mv.PullMove? && mv.key == k == p.key && t !in a.tasks
    requires EventOf(s, a, mv).Some? && DropsOf(s, a, mv)[1] == {k}
    requires PushPart(s, Do(s, a, mv).core, p, mono).1.PushOk?
    ensures var n := |a.drops|;
            var end := Do(s, Do(s, LonePush(s, Do(s, a, mv), t, p, mono), DropMove(n)), DropMove(n));
            k in end.core.relay.queues && k !in end.core.rates
  {
    var b := Do(s, a, mv);
    assert b.tasks == a.tasks;
    LonePushIsHandler(s, b, t, p, mono);
    PushOkStores(s, b.core, p, mono);
    var ds := DropsOf(s, a, mv);
    assert ds == [ds[0], ds[1]] && b.drops == a.drops + ds;
    hide Do, LonePush, PushPart, EventOf, DropsOf;
    DroppedInTurn(s, a, LonePush(s, b, t, p, mono), ds[0], ds[1]);
  }

  lemma ReleaseDrops(s: Settings, a: App, t: nat)
    requires t in a.tasks && a.tasks[t].Releasing?
    ensures Do(s, a, Release(t)).core == a.core.(rates := a.core.rates - {a.tasks[t].p.key})
  {
  }

  /**
   And so may the release after a refusal for the route cap, with no route removed at all:
   when another push on the key is stored in between, its live route loses its bucket.
   */
  lemma LateReleaseHitsLiveRoute(s: Settings, a: App, t: nat, u: nat, q: Push, mono: int)
    requires t in a.tasks && a.tasks[t].Releasing? && a.tasks[t].p.key == q.key && u !in a.tasks
    requires PushPart(s, a.core, q, mono).1.PushOk?
    ensures var end := Do(s, LonePush(s, a, u, q, mono), Release(t));
            q.key in end.core.relay.queues && q.key !in end.core.rates
  {
    hide LonePush, PushPart, Do;
    LonePushIsHandler(s, a, u, q, mono);
    PushOkStores(s, a.core, q, mono);
    ReleaseDrops(s, LonePush(s, a, u, q, mono), t);
  }
}

/**
 Whole runs: any sequence of store operations from an empty store, issued by any
 clients in any order with any clock readings.
 */
module Runs {
  import opened Base
  import opened RelaySpec
  import opened QueueLemmas
  import opened Fates

  /** The state after a run. */
  ghost function After(c: Config, es: seq<Event>): Relay {
    if es == [] then EMPTY else Step(c, After(c, es[..|es| - 1]), es[|es| - 1]).0
  }

  /** The state just before operation `i`; `Before(c, es, |es|)` is the final state. */
  ghost function Before(c: Config, es: seq<Event>, i: nat): Relay
    requires i <= |es|
  {
    After(c, es[..i])
  }

  ghost function ReplyAt(c: Config, es: seq<Event>, i: nat): Reply
    requires i < |es|
  {
    Step(c, Before(c, es, i), es[i]).1
  }

  ghost predicate AllAdmissible(c: Config, es: seq<Event>) {
    forall e | e in es :: Admissible(c, e)
  }

  lemma Advance(c: Config, es: seq<Event>, i: nat)
    requires i < |es|
    ensures Before(c, es, i + 1) == Step(c, Before(c, es, i), es[i]).0
  {
    assert es[..i + 1][..i] == es[..i];
  }

  lemma {:induction false} RunWellFormed(c: Config, es: seq<Event>, i: nat)
    requires AllAdmissible(c, es) && i <= |es|
    ensures WellFormed(Before(c, es, i))
  {
    if i > 0 {
      RunWellFormed(c, es, i - 1);
      Advance(c, es, i - 1);
      StepWellFormed(c, Before(c, es, i - 1), es[i - 1]);
    }
  }

  // -------------------------------------------------------------------- bounds

  /** The caps of the configuration, and the size limits of stored bodies. */
  ghost predicate Bounded(c: Config, r: Relay) {
    && |r.queues| <= c.maxRoutes
    && (forall k | k in r.queues :: |r.queues[k]| <= c.maxDepth)
    && (forall k, m | k in r.queues && m in r.queues[k] :: 0 < |m.body| <= c.maxBody)
    && |r.slots| <= c.maxSlots
  }

  lemma SubsetCount<A, B>(small: map<A, B>, large: map<A, B>)
    requires small.Keys <= large.Keys
    ensures |small| <= |large|
  {
    var rest := large.Keys - small.Keys;
    assert large.Keys == small.Keys + rest;
    assert |large.Keys| == |small.Keys| + |rest|;
  }

  /** Only an accepted push can add a route. */
  lemma StepAddsRoute(c: Config, r: Relay, e: Event, k: Key)
    requires WellFormed(r)
    requires k in Step(c, r, e).0.queues && k !in r.queues
    ensures e.EEnqueue? && e.key == k && Step(c, r, e).1.enqueue == Accepted
  {
    StepRoutesLive(c, r, e);
    StepQueue(c, r, e, k);
    ArrivalKey(c, r, e, k);
  }

  /** What an accepted push found, and what it did. */
  lemma AcceptedState(c: Config, r: Relay, e: Event)
    requires e.EEnqueue? && Step(c, r, e).1.enqueue == Accepted
    ensures Step(c, r, e).0 == Admit(r, e.key, e.id, e.body, e.now)
    ensures if e.key in r.queues then |r.queues[e.key]| < c.maxDepth else |r.queues| < c.maxRoutes
    ensures SlotGate(r, e.key, e.now, e.ticket) == None
  {
  }

  lemma AcceptedRoute(c: Config, r: Relay, e: Event)
    requires e.EEnqueue? && Step(c, r, e).1.enqueue == Accepted && e.key !in r.queues
    ensures |Step(c, r, e).0.queues| == |r.queues| + 1 && |r.queues| < c.maxRoutes
  {
    AcceptedState(c, r, e);
    hide Step;
    assert Step(c, r, e).0.queues.Keys == r.queues.Keys + {e.key};
  }

  lemma StepRouteCap(c: Config, r: Relay, e: Event, r': Relay)
    requires WellFormed(r) && |r.queues| <= c.maxRoutes && r' == Step(c, r, e).0
    ensures |r'.queues| <= c.maxRoutes
  {
    hide Step, WellFormed;
    forall k | k in r'.queues && k !in r.queues
      ensures e.EEnqueue? && e.key == k && Step(c, r, e).1.enqueue == Accepted
    {
      StepAddsRoute(c, r, e, k);
    }
    if r'.queues.Keys <= r.queues.Keys {
      SubsetCount(r'.queues, r.queues);
    } else {
      AcceptedRoute(c, r, e);
    }
  }

  lemma StepAddsSlot(c: Config, r: Relay, e: Event, k: Key)
    requires k in Step(c, r, e).0.slots && k !in r.slots
    ensures e.ECreate? && e.key == k && Step(c, r, e).1.create == Created
  {
  }

  lemma StepSlotCap(c: Config, r: Relay, e: Event)
    requires |r.slots| <= c.maxSlots
    ensures |Step(c, r, e).0.slots| <= c.maxSlots
  {
    var r' := Step(c, r, e).0;
    if e.ECreate? && Step(c, r, e).1.create == Created {
      assert r'.slots.Keys == Sweep(r, c.ttl, e.now).slots.Keys + {e.key};
    } else {
      forall k | k in r'.slots ensures k in r.slots {
        if k !in r.slots {
          StepAddsSlot(c, r, e, k);
        }
      }
      SubsetCount(r'.slots, r.slots);
    }
  }

  lemma StepDepth(c: Config, r: Relay, e: Event, k: Key, r': Relay)
    requires WellFormed(r) && Bounded(c, r) && c.maxDepth >= 1 && r' == Step(c, r, e).0
    requires k in r'.queues
    ensures |r'.queues[k]| <= c.maxDepth
  {
    hide Step;
    if e.EEnqueue? && e.key == k && Step(c, r, e).1.enqueue == Accepted {
      AcceptedState(c, r, e);
    } else {
      ArrivalKey(c, r, e, k);
      StepQueue(c, r, e, k);
      SurvivorsAscending(c, r, e, k, Queue(r, k));
      assert |Queue(r', k)| <= |Queue(r, k)|;
    }
  }

  lemma QueueAscending(r: Relay, k: Key)
    requires WellFormed(r)
    ensures Ascending(Queue(r, k))
  {
  }

  lemma StepBodies(c: Config, r: Relay, e: Event, k: Key, m: Msg)
    requires Admissible(c, e) && Ascending(Queue(r, k))
    requires forall o | o in Queue(r, k) :: 0 < |o.body| <= c.maxBody
    requires m in Queue(Step(c, r, e).0, k)
    ensures 0 < |m.body| <= c.maxBody
  {
    hide Step;
    var o := StepOrigin(c, r, e, k, m);
    assert o.body == m.body;
  }

  lemma StepBounded(c: Config, r: Relay, e: Event)
    requires WellFormed(r) && Bounded(c, r) && Admissible(c, e) && c.maxDepth >= 1
    ensures Bounded(c, Step(c, r, e).0)
  {
    hide Step, WellFormed;
    var r' := Step(c, r, e).0;
    StepRouteCap(c, r, e, r');
    StepSlotCap(c, r, e);
    forall k | k in r'.queues ensures |r'.queues[k]| <= c.maxDepth {
      StepDepth(c, r, e, k, r');
    }
    forall k, m | k in r'.queues && m in r'.queues[k] ensures 0 < |m.body| <= c.maxBody {
      QueueAscending(r, k);
      StepBodies(c, r, e, k, m);
    }
  }

  /** Every reachable state respects every cap, whatever the clients interleave. */
  lemma {:induction false} RunBounded(c: Config, es: seq<Event>, i: nat)
    requires AllAdmissible(c, es) && i <= |es| && c.maxDepth >= 1
    ensures Bounded(c, Before(c, es, i))
  {
    if i > 0 {
      RunBounded(c, es, i - 1);
      RunWellFormed(c, es, i - 1);
      Advance(c, es, i - 1);
      StepBounded(c, Before(c, es, i - 1), es[i - 1]);
    }
  }

  /** All body bytes in the store. */
  ghost function StoredBytes(queues: map<Key, seq<Msg>>): nat
    decreases |queues|
  {
    if queues == map[] then 0
    else
      var k :| k in queues;
      SizeOf(queues[k]) + StoredBytes(queues - {k})
  }

  lemma MulStep(a: nat, n: nat)
    ensures (a + 1) * n == a * n + n
  {
  }

  lemma {:induction false} QueueBytes(q: seq<Msg>, maxBody: nat)
    requires forall m | m in q :: |m.body| <= maxBody
    ensures SizeOf(q) <= |q| * maxBody
  {
    if q != [] {
      QueueBytes(q[..|q| - 1], maxBody);
      MulStep(|q| - 1, maxBody);
      assert q[|q| - 1] in q;
    }
  }

  lemma MulMonotone(a: nat, b: nat, n: nat)
    requires a <= b
    ensures a * n <= b * n
  {
  }

  lemma {:induction false} StoredBytesBound(queues: map<Key, seq<Msg>>, perQueue: nat)
    requires forall k | k in queues :: SizeOf(queues[k]) <= perQueue
    ensures StoredBytes(queues) <= |queues| * perQueue
    decreases |queues|
  {
    if queues != map[] {
      var k :| k in queues && StoredBytes(queues) == SizeOf(queues[k]) + StoredBytes(queues - {k});
      var others := queues - {k};
      assert others.Keys == queues.Keys - {k};
      assert |others| + 1 == |queues|;
      StoredBytesBound(others, perQueue);
      MulStep(|others|, perQueue);
    }
  }

  lemma BoundedBytes(c: Config, queues: map<Key, seq<Msg>>, perQueue: nat)
    requires |queues| <= c.maxRoutes && perQueue == c.maxDepth * c.maxBody
    requires forall k | k in queues :: |queues[k]| <= c.maxDepth
    requires forall k, m | k in queues && m in queues[k] :: |m.body| <= c.maxBody
    ensures StoredBytes(queues) <= c.maxRoutes * perQueue
  {
    forall k | k in queues ensures SizeOf(queues[k]) <= perQueue {
      QueueBytes(queues[k], c.maxBody);
      MulMonotone(|queues[k]|, c.maxDepth, c.maxBody);
    }
    StoredBytesBound(queues, perQueue);
    MulMonotone(|queues|, c.maxRoutes, perQueue);
  }

  /** Stored bytes never exceed routes * depth * body size. */
  lemma RunBytes(c: Config, es: seq<Event>, i: nat)
    requires AllAdmissible(c, es) && i <= |es| && c.maxDepth >= 1
    ensures StoredBytes(Before(c, es, i).queues) <= c.maxRoutes * (c.maxDepth * c.maxBody)
  {
    hide After, StoredBytes;
    RunBounded(c, es, i);
    BoundedBytes(c, Before(c, es, i).queues, c.maxDepth * c.maxBody);
  }
}

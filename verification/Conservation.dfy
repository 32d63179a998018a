/**
 No message is lost, duplicated or altered, in any run: an accepted message
 stays queued until it leaves for exactly one stated reason, and successive
 deliveries of one message are at least a lease apart.
 */
module Conservation {
  import opened Base
  import opened RelaySpec
  import opened QueueLemmas
  import opened Fates
  import opened Runs

  ghost predicate Absent(r: Relay, num: nat) {
    forall k, m | k in r.queues && m in r.queues[k] :: m.num != num
  }

  // ------------------------------------------------------------------ one step

  /** Well-formed queues hold each number once. */
  lemma SameMessage(r: Relay, k: Key, m: Msg, k': Key, m': Msg)
    requires WellFormed(r) && k in r.queues && m in r.queues[k] && k' in r.queues && m' in r.queues[k']
    requires m.num == m'.num
    ensures k == k' && m == m'
  {
    if k == k' {
      AscendingUnique(r.queues[k], m, m');
    }
  }

  lemma NumBelow(r: Relay, k: Key, m: Msg)
    requires WellFormed(r) && k in r.queues && m in r.queues[k]
    ensures m.num < r.next
  {
  }

  lemma MessageStep(c: Config, r: Relay, e: Event, k: Key, m: Msg, r': Relay)
    requires WellFormed(r) && r' == Step(c, r, e).0
    requires k in r.queues && m in r.queues[k]
    ensures var left := Survivor(FateOf(c, r, e, k, m), m);
            if left.Some? then left.value in Queue(r', k) else Absent(r', m.num)
  {
    hide Step;
    StepQueue(c, r, e, k);
    var left := Survivor(FateOf(c, r, e, k, m), m);
    if left.Some? {
      SurvivorIn(c, r, e, k, r.queues[k], m);
    } else {
      forall k', m' | k' in r'.queues && m' in r'.queues[k'] ensures m'.num != m.num {
        var o := StepOrigin(c, r, e, k', m');
        ArrivalKey(c, r, e, k');
        NumBelow(r, k, m);
        if o.num == m.num && o in Queue(r, k') {
          SameMessage(r, k, m, k', o);
        }
      }
    }
  }

  /** A number that is gone never comes back. */
  lemma AbsentStep(c: Config, r: Relay, e: Event, num: nat, r': Relay)
    requires WellFormed(r) && Absent(r, num) && num < r.next && r' == Step(c, r, e).0
    ensures Absent(r', num) && num < r'.next
  {
    hide Step;
    StepNext(c, r, e);
    forall k, m | k in r'.queues && m in r'.queues[k] ensures m.num != num {
      NumOrigin(c, r, e, r', k, m);
    }
  }

  // ---------------------------------------------------------- how long a route lives

  lemma PushKeepsAll(c: Config, r: Relay, e: Event, k: Key, m: Msg)
    requires Arrival(c, r, e, k) != []
    ensures Survivor(FateOf(c, r, e, k, m), m) == Some(m)
  {
  }

  /** A route goes exactly in the operation in which the last of its messages leave. */
  lemma RouteGoesIff(c: Config, r: Relay, e: Event, k: Key)
    requires WellFormed(r) && k in r.queues
    ensures k !in Step(c, r, e).0.queues <==>
            forall m | m in r.queues[k] :: Survivor(FateOf(c, r, e, k, m), m).None?
  {
    StepRoutesLive(c, r, e);
    StepQueue(c, r, e, k);
    hide Step, FateOf, Survivor;
    var q := r.queues[k];
    var kept := Survivors(c, r, e, k, q);
    if Arrival(c, r, e, k) != [] {
      PushKeepsAll(c, r, e, k, q[0]);
    } else if kept != [] {
      var o := SurvivorFrom(c, r, e, k, q, kept[0]);
    } else {
      forall m | m in q ensures Survivor(FateOf(c, r, e, k, m), m).None? {
        if Survivor(FateOf(c, r, e, k, m), m).Some? {
          SurvivorIn(c, r, e, k, q, m);
        }
      }
    }
  }

  /** An unexpired message that no pull or ack of its route touches is kept. */
  lemma Untouched(c: Config, r: Relay, e: Event, k: Key, m: Msg)
    requires e.now < m.at + c.ttl && (e.ESweep? || e.key != k || !(e.EPull? || e.EAck?))
    ensures Survivor(FateOf(c, r, e, k, m), m) == Some(m)
  {
    hide Step;
  }

  /** However long nobody touches it, a route stays while it holds an unexpired message. */
  lemma {:induction false} IdleRouteStays(c: Config, es: seq<Event>, k: Key, m: Msg, i: nat, n: nat)
    requires AllAdmissible(c, es) && i <= n <= |es| && m in Queue(Before(c, es, i), k)
    requires forall j | i <= j < n :: es[j].now < m.at + c.ttl
    requires forall j | i <= j < n :: es[j].ESweep? || es[j].key != k || !(es[j].EPull? || es[j].EAck?)
    ensures k in Before(c, es, n).queues && m in Before(c, es, n).queues[k]
    decreases n
  {
    hide Step, After, WellFormed, FateOf, Survivor;
    if i < n {
      IdleRouteStays(c, es, k, m, i, n - 1);
      var r, e := Before(c, es, n - 1), es[n - 1];
      RunWellFormed(c, es, n - 1);
      Advance(c, es, n - 1);
      Untouched(c, r, e, k, m);
      MessageStep(c, r, e, k, m, Before(c, es, n));
    }
  }

  // ------------------------------------------------- the life of one accepted push

  ghost predicate AcceptedAt(c: Config, es: seq<Event>, i: nat)
    requires i < |es|
  {
    es[i].EEnqueue? && ReplyAt(c, es, i).enqueue == Accepted
  }

  /** `m` is the message that the push at `i` brought in; its lease may have changed since. */
  ghost predicate IsPushed(c: Config, es: seq<Event>, i: nat, m: Msg)
    requires i < |es| && es[i].EEnqueue?
  {
    m == Msg(Before(c, es, i).next, es[i].id, es[i].body, es[i].now, m.lease)
  }

  /** Just before operation `n`, the message pushed at `i` is queued on its route, unaltered. */
  ghost predicate Queued(c: Config, es: seq<Event>, i: nat, n: nat)
    requires i < |es| && es[i].EEnqueue? && n <= |es|
  {
    exists m :: m in Queue(Before(c, es, n), es[i].key) && IsPushed(c, es, i, m)
  }

  /** Operation `j` takes the message pushed at `i` out of the store, for reason `f`. */
  ghost predicate LeavesAt(c: Config, es: seq<Event>, i: nat, j: nat, f: Fate)
    requires i < |es| && es[i].EEnqueue? && j < |es|
  {
    && (f.Expired? || f.Delivered? || f.Acked?)
    && exists m :: m in Queue(Before(c, es, j), es[i].key) && IsPushed(c, es, i, m)
                   && FateOf(c, Before(c, es, j), es[j], es[i].key, m) == f
  }

  ghost predicate StillThere(c: Config, es: seq<Event>, i: nat, n: nat)
    requires i < n <= |es| && es[i].EEnqueue?
  {
    Queued(c, es, i, n) && forall j, f | i < j < n :: !LeavesAt(c, es, i, j, f)
  }

  ghost predicate LeftOnce(c: Config, es: seq<Event>, i: nat, n: nat, j: nat, f: Fate)
    requires i < n <= |es| && es[i].EEnqueue?
  {
    && i < j < n && LeavesAt(c, es, i, j, f)
    && (forall j', f' | i < j' < n && LeavesAt(c, es, i, j', f') :: j' == j && f' == f)
    && (forall p | j < p <= n :: Absent(Before(c, es, p), Before(c, es, i).next))
  }

  lemma {:induction false} NextGrows(c: Config, es: seq<Event>, i: nat, n: nat)
    requires i <= n <= |es|
    ensures Before(c, es, i).next <= Before(c, es, n).next
  {
    if i < n {
      NextGrows(c, es, i, n - 1);
      Advance(c, es, n - 1);
      StepNext(c, Before(c, es, n - 1), es[n - 1]);
    }
  }

  /** Two accepted pushes never share a number. */
  lemma NumbersNotReused(c: Config, es: seq<Event>, i: nat, j: nat)
    requires i < j < |es| && AcceptedAt(c, es, i) && AcceptedAt(c, es, j)
    ensures Before(c, es, i).next < Before(c, es, j).next
  {
    Advance(c, es, i);
    NextGrows(c, es, i + 1, j);
  }

  lemma PushedUnique(c: Config, es: seq<Event>, i: nat, n: nat, m: Msg, m': Msg)
    requires AllAdmissible(c, es) && i < |es| && es[i].EEnqueue? && n <= |es|
    requires m in Queue(Before(c, es, n), es[i].key) && IsPushed(c, es, i, m)
    requires m' in Queue(Before(c, es, n), es[i].key) && IsPushed(c, es, i, m')
    ensures m == m'
  {
    RunWellFormed(c, es, n);
    AscendingUnique(Before(c, es, n).queues[es[i].key], m, m');
  }

  lemma QueuedNext(c: Config, es: seq<Event>, i: nat, n: nat) returns (f: Fate)
    requires AllAdmissible(c, es) && i < n < |es| && es[i].EEnqueue? && Queued(c, es, i, n)
    ensures f.Kept? || f.Leased? ==> Queued(c, es, i, n + 1) && forall g :: !LeavesAt(c, es, i, n, g)
    ensures f.Expired? || f.Delivered? || f.Acked? ==>
              && LeavesAt(c, es, i, n, f) && Absent(Before(c, es, n + 1), Before(c, es, i).next)
              && forall g | LeavesAt(c, es, i, n, g) :: g == f
  {
    hide Step, WellFormed;
    var r, k := Before(c, es, n), es[i].key;
    var m :| m in Queue(r, k) && IsPushed(c, es, i, m);
    f := FateOf(c, r, es[n], k, m);
    RunWellFormed(c, es, n);
    Advance(c, es, n);
    MessageStep(c, r, es[n], k, m, Before(c, es, n + 1));
    forall g | LeavesAt(c, es, i, n, g) ensures g == f {
      var m' :| m' in Queue(r, k) && IsPushed(c, es, i, m') && FateOf(c, r, es[n], k, m') == g;
      PushedUnique(c, es, i, n, m, m');
    }
    if Survivor(f, m).Some? {
      assert IsPushed(c, es, i, Survivor(f, m).value);
    }
  }

  lemma GoneNext(c: Config, es: seq<Event>, i: nat, n: nat)
    requires AllAdmissible(c, es) && i < n < |es| && AcceptedAt(c, es, i)
    requires Absent(Before(c, es, n), Before(c, es, i).next)
    ensures Absent(Before(c, es, n + 1), Before(c, es, i).next)
    ensures forall f :: !LeavesAt(c, es, i, n, f)
  {
    RunWellFormed(c, es, n);
    Advance(c, es, i);
    NextGrows(c, es, i + 1, n);
    Advance(c, es, n);
    AbsentStep(c, Before(c, es, n), es[n], Before(c, es, i).next, Before(c, es, n + 1));
  }

  /**
   Conservation: at every later moment, the accepted message is either still queued
   on its route with its id, body and time unchanged and never left, or it left in
   exactly one step for exactly one reason and is nowhere in the store since.
   */
  lemma {:induction false} AcceptedIsConserved(c: Config, es: seq<Event>, i: nat, n: nat)
    requires AllAdmissible(c, es) && i < n <= |es| && AcceptedAt(c, es, i)
    ensures StillThere(c, es, i, n) || exists j, f :: LeftOnce(c, es, i, n, j, f)
    ensures !(StillThere(c, es, i, n) && exists j, f :: LeftOnce(c, es, i, n, j, f))
    decreases n
  {
    hide Step;
    if n == i + 1 {
      Advance(c, es, i);
      RunWellFormed(c, es, i);
      StepQueue(c, Before(c, es, i), es[i], es[i].key);
      var m := Msg(Before(c, es, i).next, es[i].id, es[i].body, es[i].now, None);
      assert m in Queue(Before(c, es, n), es[i].key) && IsPushed(c, es, i, m);
    } else {
      AcceptedIsConserved(c, es, i, n - 1);
      if StillThere(c, es, i, n - 1) {
        var f := QueuedNext(c, es, i, n - 1);
        if f.Kept? || f.Leased? {
          assert StillThere(c, es, i, n);
        } else {
          assert LeftOnce(c, es, i, n, n - 1, f);
        }
      } else {
        var j, f :| LeftOnce(c, es, i, n - 1, j, f);
        GoneNext(c, es, i, n - 1);
        assert LeftOnce(c, es, i, n, j, f);
      }
    }
  }

  // ------------------------------------------------------- what each reason means

  /** Operation `p` is a pull whose reply contains message `num`. */
  ghost predicate HandsOut(c: Config, es: seq<Event>, p: nat, num: nat)
    requires p < |es|
  {
    es[p].EPull? && exists m :: m in ReplyAt(c, es, p).pull.items && m.num == num
  }

  /** A lease on a stored message was set by an earlier lease pull that returned it. */
  lemma {:induction false} LeaseHasHistory(c: Config, es: seq<Event>, k: Key, n: nat, m: Msg) returns (p: nat)
    requires AllAdmissible(c, es) && n <= |es|
    requires m in Queue(Before(c, es, n), k) && m.lease.Some?
    ensures p < n && HandsOut(c, es, p, m.num) && es[p].mode == Lease && es[p].key == k
    ensures m.lease.value == es[p].now + c.lease
    ensures m.num < Before(c, es, p).next
    decreases n
  {
    hide Step;
    Advance(c, es, n - 1);
    RunWellFormed(c, es, n - 1);
    var r, e := Before(c, es, n - 1), es[n - 1];
    var o := StepOrigin(c, r, e, k, m);
    if o in Queue(r, k) && FateOf(c, r, e, k, o) == Kept {
      p := LeaseHasHistory(c, es, k, n - 1, o);
    } else {
      assert FateOf(c, r, e, k, o).Leased?;
      p := n - 1;
      assert o in ReplyAt(c, es, p).pull.items;
    }
  }

  /** The clock was at least the retention time after the push. */
  lemma ExpiredMeans(c: Config, es: seq<Event>, i: nat, j: nat)
    requires i < j < |es| && es[i].EEnqueue? && LeavesAt(c, es, i, j, Expired)
    ensures es[i].now <= es[j].now - c.ttl
    ensures !es[j].EEnqueue? && !es[j].ERedeem? && !es[j].ERevoke?
  {
  }

  /** The pull returned the message unaltered and unexpired. */
  lemma DeliveredMeans(c: Config, es: seq<Event>, i: nat, j: nat)
    requires i < j < |es| && es[i].EEnqueue? && LeavesAt(c, es, i, j, Delivered)
    ensures es[j].EPull? && es[j].mode == Legacy && es[j].key == es[i].key
    ensures exists m :: m in ReplyAt(c, es, j).pull.items && IsPushed(c, es, i, m)
    ensures es[j].now < es[i].now + c.ttl
  {
  }

  /** An acknowledged message was named by its id on its own route, after a lease pull returned it. */
  lemma AckedMeans(c: Config, es: seq<Event>, i: nat, j: nat) returns (p: nat)
    requires AllAdmissible(c, es) && i < j < |es| && AcceptedAt(c, es, i) && LeavesAt(c, es, i, j, Acked)
    ensures es[j].EAck? && es[j].key == es[i].key && es[i].id in es[j].ids
    ensures i < p < j && HandsOut(c, es, p, Before(c, es, i).next) && es[p].mode == Lease
    ensures es[j].now < es[i].now + c.ttl
  {
    hide Step;
    var r := Before(c, es, j);
    var m :| m in Queue(r, es[i].key) && IsPushed(c, es, i, m) && FateOf(c, r, es[j], es[i].key, m) == Acked;
    p := LeaseHasHistory(c, es, es[i].key, j, m);
    if p <= i {
      NextGrows(c, es, p, i);
    }
  }

  // ------------------------------------------------------------- lease exclusion

  lemma PulledItem(c: Config, r: Relay, e: Event, m: Msg)
    requires e.EPull? && m in Step(c, r, e).1.pull.items
    ensures e.key in r.queues && m in r.queues[e.key] && Awake(m, e.now)
    ensures FateOf(c, r, e, e.key, m) == if e.mode == Legacy then Delivered else Leased(e.now + c.lease)
  {
    var q := Queue(r, e.key);
    var cut := DropExpired(e.now - c.ttl);
    PullEdits(c, r, e, e.key);
    hide Step;
    BatchFrom(Edit(q, cut), e.max, e.budget, e.now, m);
    var o := EditOrigin(q, cut, m);
  }

  /** Once it has left, for whatever reason, no operation hands the message out again. */
  lemma NeverAgain(c: Config, es: seq<Event>, i: nat, j: nat, f: Fate, p: nat)
    requires AllAdmissible(c, es) && i < j < p < |es| && AcceptedAt(c, es, i) && LeavesAt(c, es, i, j, f)
    ensures !HandsOut(c, es, p, Before(c, es, i).next)
  {
    hide Step, After;
    AcceptedIsConserved(c, es, i, |es|);
    var num := Before(c, es, i).next;
    if HandsOut(c, es, p, num) {
      var m :| m in ReplyAt(c, es, p).pull.items && m.num == num;
      PulledItem(c, Before(c, es, p), es[p], m);
    }
  }

  /**
   What each reason for leaving means: a message expires at a clock at least the retention
   time after its push; a legacy pull returned what it took, unaltered and unexpired; an ack
   named its id after a lease pull had returned it. After that nobody is handed it again.
   */
  lemma LeavingMeans(c: Config, es: seq<Event>, i: nat, j: nat, f: Fate)
    requires AllAdmissible(c, es) && i < j < |es| && AcceptedAt(c, es, i) && LeavesAt(c, es, i, j, f)
    ensures f == Expired || f == Delivered || f == Acked
    ensures f == Expired <==> es[i].now + c.ttl <= es[j].now
    ensures f == Expired ==> !es[j].EEnqueue? && !es[j].ERedeem? && !es[j].ERevoke?
    ensures f == Delivered ==>
              && es[j].EPull? && es[j].mode == Legacy && es[j].key == es[i].key
              && exists m :: m in ReplyAt(c, es, j).pull.items && IsPushed(c, es, i, m)
    ensures f == Acked ==>
              && es[j].EAck? && es[j].key == es[i].key && es[i].id in es[j].ids
              && exists p :: i < p < j && HandsOut(c, es, p, Before(c, es, i).next) && es[p].mode == Lease
    ensures forall p | j < p < |es| :: !HandsOut(c, es, p, Before(c, es, i).next)
  {
    forall p | j < p < |es| ensures !HandsOut(c, es, p, Before(c, es, i).next) {
      NeverAgain(c, es, i, j, f, p);
    }
    hide Step, After;
    match f
    case Expired => ExpiredMeans(c, es, i, j);
    case Delivered => DeliveredMeans(c, es, i, j);
    case Acked => var p := AckedMeans(c, es, i, j);
    case _ =>
  }

  /** Message `num` is leased at least until `until`, wherever it is stored. */
  ghost predicate LeasedUntil(r: Relay, num: nat, until: int) {
    forall k, m | k in r.queues && m in r.queues[k] && m.num == num :: m.lease.Some? && m.lease.value >= until
  }

  lemma PullLeases(c: Config, r: Relay, e: Event, num: nat, r': Relay)
    requires WellFormed(r) && WellFormed(r') && r' == Step(c, r, e).0 && e.EPull?
    requires exists out :: out in Step(c, r, e).1.pull.items && out.num == num
    ensures num < r.next
    ensures if e.mode == Legacy then Absent(r', num) else LeasedUntil(r', num, e.now + c.lease)
  {
    hide Step, WellFormed;
    var out :| out in Step(c, r, e).1.pull.items && out.num == num;
    assert out.num < r.next by { PulledItem(c, r, e, out); NumBelow(r, e.key, out); }
    PulledItem(c, r, e, out);
    MessageStep(c, r, e, e.key, out, r');
    if e.mode == Lease {
      var leased := out.(lease := Some(e.now + c.lease));
      forall k, m | k in r'.queues && m in r'.queues[k] && m.num == num ensures m == leased {
        SameMessage(r', k, m, e.key, leased);
      }
    }
  }

  /** A step can only extend the lease of a leased message. */
  lemma LeaseExtends(c: Config, r: Relay, e: Event, num: nat, until: int, r': Relay)
    requires WellFormed(r) && r' == Step(c, r, e).0
    requires num < r.next && LeasedUntil(r, num, until)
    ensures LeasedUntil(r', num, until)
  {
    hide Step, After;
    assert forall k :: k in r.queues ==> Ascending(r.queues[k]);
    hide WellFormed, Ascending;
    forall k, m | k in r'.queues && m in r'.queues[k] && m.num == num
      ensures m.lease.Some? && m.lease.value >= until
    {
      ArrivalKey(c, r, e, k);
      var o := StepOrigin(c, r, e, k, m);
      if FateOf(c, r, e, k, o).Leased? {
        PulledItem(c, r, e, o);
      }
    }
  }

  /** After a lease delivery at `i`, the message is gone or leased until at least `now + lease`. */
  lemma {:induction false} LeaseHolds(c: Config, es: seq<Event>, i: nat, n: nat, num: nat)
    requires AllAdmissible(c, es) && i < n <= |es| && HandsOut(c, es, i, num)
    ensures num < Before(c, es, n).next
    ensures if es[i].mode == Legacy then Absent(Before(c, es, n), num)
            else LeasedUntil(Before(c, es, n), num, es[i].now + c.lease)
    decreases n
  {
    hide Step, After, WellFormed, Absent, LeasedUntil;
    var r, e, r' := Before(c, es, n - 1), es[n - 1], Before(c, es, n);
    Advance(c, es, n - 1);
    RunWellFormed(c, es, n - 1);
    RunWellFormed(c, es, n);
    StepNext(c, r, e);
    if n == i + 1 {
      PullLeases(c, r, e, num, r');
    } else {
      LeaseHolds(c, es, i, n - 1, num);
      if es[i].mode == Legacy {
        AbsentStep(c, r, e, num, r');
      } else {
        LeaseExtends(c, r, e, num, es[i].now + c.lease, r');
      }
    }
  }

  /** A message stays on the route it was handed out from. */
  lemma {:induction false} RouteFixed(c: Config, es: seq<Event>, i: nat, n: nat, num: nat, k: Key, m: Msg)
    requires AllAdmissible(c, es) && i < n <= |es| && HandsOut(c, es, i, num)
    requires m.num == num && m in Queue(Before(c, es, n), k)
    ensures es[i].key == k
    decreases n
  {
    hide Step;
    var r, e := Before(c, es, n - 1), es[n - 1];
    Advance(c, es, n - 1);
    RunWellFormed(c, es, n - 1);
    ArrivalKey(c, r, e, k);
    var o := StepOrigin(c, r, e, k, m);
    if i < n - 1 {
      LeaseHolds(c, es, i, n - 1, num);
      RouteFixed(c, es, i, n - 1, num, k, o);
    } else {
      var out :| out in ReplyAt(c, es, i).pull.items && out.num == num;
      PulledItem(c, r, e, out);
    }
  }

  /**
   Lease exclusion: whenever a run hands out the same message twice, the first
   delivery was a lease and the clocks of the two are at least a lease apart,
   however the clocks of all other operations run.
   */
  lemma DeliveriesApart(c: Config, es: seq<Event>, i: nat, j: nat, num: nat)
    requires AllAdmissible(c, es) && i < j < |es|
    requires HandsOut(c, es, i, num) && HandsOut(c, es, j, num)
    ensures es[i].mode == Lease && es[i].key == es[j].key && es[j].now >= es[i].now + c.lease
  {
    hide Step;
    LeaseHolds(c, es, i, j, num);
    RunWellFormed(c, es, j);
    var m :| m in ReplyAt(c, es, j).pull.items && m.num == num;
    PulledItem(c, Before(c, es, j), es[j], m);
    RouteFixed(c, es, i, j, num, es[j].key, m);
  }
}

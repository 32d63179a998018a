/** What pulls and acknowledgements deliver, and what they leave alone. */
module Delivery {
  import opened Base
  import opened RelaySpec
  import opened QueueLemmas
  import opened Fates
  import opened Runs
  import opened Limits
  import opened Sweeps
  import opened Conservation

  // -------------------------------------------------------------- what a pull takes

  /** The messages of route `k` that a pull at `now` may return, oldest first. */
  ghost function VisibleAt(c: Config, r: Relay, k: Key, now: int): seq<Msg> {
    Visible(Queue(Sweep(r, c.ttl, now), k), now)
  }

  /**
   A pull returns the longest prefix of the visible messages that keeps to both limits;
   it returns something whenever something is visible, and stays within the budget when
   no single body exceeds it.
   */
  lemma PullTakesLongestPrefix(c: Config, r: Relay, e: Event)
    requires e.EPull?
    ensures var v, out := VisibleAt(c, r, e.key, e.now), Step(c, r, e).1.pull.items;
            && |out| <= e.max && |out| <= |v| && out == v[..|out|] && Fits(out, e.budget)
            && (forall n | |out| < n <= Min(e.max, |v|) :: !Fits(v[..n], e.budget))
            && (v != [] && e.max > 0 ==> out != [])
            && ((forall m | m in v :: |m.body| <= e.budget) ==> Min(SizeOf(out), USIZE_MAX) <= e.budget)
  {
    var v := VisibleAt(c, r, e.key, e.now);
    var out := Step(c, r, e).1.pull.items;
    var n := Min(e.max, |v|);
    if n > 0 {
      assert Fits(v[..1], e.budget);
    }
    if |out| == 1 && (forall m | m in v :: |m.body| <= e.budget) {
      assert out[0] in v && out[..0] == [];
      assert SizeOf(out) == |out[0].body|;
    }
  }

  lemma SweptAscending(c: Config, r: Relay, k: Key, now: int)
    requires WellFormed(r)
    ensures Ascending(Queue(Sweep(r, c.ttl, now), k))
  {
    QueueOfSweep(r, c.ttl, now, k);
    EditAscending(Queue(r, k), DropExpired(now - c.ttl));
  }

  lemma InPrefixOrAfter(v: seq<Msg>, out: seq<Msg>, m: Msg)
    requires Ascending(v) && |out| <= |v| && out == v[..|out|] && m in v
    ensures m in out || forall o | o in out :: o.num < m.num
  {
    var i :| 0 <= i < |v| && v[i] == m;
    if i < |out| {
      assert out[i] == m;
    }
  }

  /**
   Nothing is held back: a stored, unexpired message that is not under a live lease is
   returned by the next pull of its route, unless the limits were used up on older ones.
   */
  lemma ReturnedOrOlderFirst(c: Config, r: Relay, e: Event, m: Msg)
    requires WellFormed(r) && e.EPull? && e.max > 0
    requires m in Queue(r, e.key) && e.now < m.at + c.ttl && Awake(m, e.now)
    ensures var out := Step(c, r, e).1.pull.items;
            m in out || (out != [] && forall o | o in out :: o.num < m.num)
  {
    hide Step, Sweep, WellFormed, Edit, Fits, Ascending;
    var q := Queue(Sweep(r, c.ttl, e.now), e.key);
    PullTakesLongestPrefix(c, r, e);
    QueueOfSweep(r, c.ttl, e.now, e.key);
    EditKeeps(Queue(r, e.key), DropExpired(e.now - c.ttl), m);
    SweptAscending(c, r, e.key, e.now);
    VisibleAscending(q, e.now);
    VisibleIff(q, e.now, m);
    InPrefixOrAfter(Visible(q, e.now), Step(c, r, e).1.pull.items, m);
  }

  lemma {:induction false} SmallBatchFits(v: seq<Msg>, maxBody: nat)
    requires forall m | m in v :: |m.body| <= maxBody
    requires |v| <= FINISH_SCAN_BATCH && maxBody <= MAX_BODY_BYTES_CEILING
    ensures SizeOf(v) <= PULL_BUDGET_BYTES
  {
    QueueBytes(v, maxBody);
    MulMonotone(|v|, FINISH_SCAN_BATCH, maxBody);
  }

  /** With legal body sizes, a batch of at most sixteen is never cut by the byte budget. */
  lemma BatchNeverCut(c: Config, r: Relay, e: Event, asked: nat)
    requires Legal(c) && e.EPull? && asked <= FINISH_SCAN_BATCH
    requires e.max == PullMax(c, asked) && e.budget == PullBudget(c)
    requires forall m | m in Queue(r, e.key) :: |m.body| <= MAX_BODY_BYTES_CEILING
    ensures var v := VisibleAt(c, r, e.key, e.now);
            |Step(c, r, e).1.pull.items| == Min(Min(asked, c.maxDepth), |v|)
  {
    var q := Queue(Sweep(r, c.ttl, e.now), e.key);
    var v := Visible(q, e.now);
    PullTakesLongestPrefix(c, r, e);
    QueueOfSweep(r, c.ttl, e.now, e.key);
    forall m | m in v ensures |m.body| <= MAX_BODY_BYTES_CEILING {
      VisibleIff(q, e.now, m);
      var o := EditOrigin(Queue(r, e.key), DropExpired(e.now - c.ttl), m);
    }
    var n := Min(e.max, |v|);
    SmallBatchFits(v[..n], MAX_BODY_BYTES_CEILING);
    hide Step;
    assert Fits(v[..n], e.budget);
  }

  lemma VisibleWithinQueue(c: Config, r: Relay, k: Key, now: int)
    requires WellFormed(r)
    ensures |VisibleAt(c, r, k, now)| <= |Queue(r, k)|
  {
    QueueOfSweep(r, c.ttl, now, k);
    EditAscending(Queue(r, k), DropExpired(now - c.ttl));
    VisibleAscending(Queue(Sweep(r, c.ttl, now), k), now);
  }

  /**
   A short batch means an empty mailbox: in every reachable store of a legal configuration,
   a handler pull that asks for at most sixteen messages gets all that are visible or as
   many as it asked for.
   */
  lemma ShortBatchMeansEmpty(c: Config, es: seq<Event>, i: nat, asked: nat)
    requires Legal(c) && AllAdmissible(c, es) && i < |es| && es[i].EPull? && asked <= FINISH_SCAN_BATCH
    requires es[i].max == PullMax(c, asked) && es[i].budget == PullBudget(c)
    ensures |ReplyAt(c, es, i).pull.items| == Min(asked, |VisibleAt(c, Before(c, es, i), es[i].key, es[i].now)|)
  {
    hide Step, After;
    var r, e := Before(c, es, i), es[i];
    RunBounded(c, es, i);
    RunWellFormed(c, es, i);
    BatchNeverCut(c, r, e, asked);
    VisibleWithinQueue(c, r, e.key, e.now);
  }

  // ------------------------------------------------------------- order of delivery

  /** Where a message of route `k` was before operation `i`, if its number is older than `i`. */
  lemma {:induction false} QueuedSince(c: Config, es: seq<Event>, k: Key, i: nat, n: nat, m: Msg) returns (o: Msg)
    requires AllAdmissible(c, es) && i <= n <= |es|
    requires m in Queue(Before(c, es, n), k) && m.num < Before(c, es, i).next
    ensures o in Queue(Before(c, es, i), k) && o.num == m.num
    ensures i < n ==> Survivor(FateOf(c, Before(c, es, i), es[i], k, o), o).Some?
    decreases n
  {
    hide Step, After, WellFormed, Ascending, FateOf, Survivor;
    if i == n {
      o := m;
    } else {
      var r, e := Before(c, es, n - 1), es[n - 1];
      RunWellFormed(c, es, n - 1);
      QueueAscending(r, k);
      Advance(c, es, n - 1);
      NextGrows(c, es, i, n - 1);
      ArrivalKey(c, r, e, k);
      var p := StepOrigin(c, r, e, k, m);
      o := QueuedSince(c, es, k, i, n - 1, p);
      if i == n - 1 {
        AscendingUnique(Queue(r, k), o, p);
      }
    }
  }

  /** A message that no operation has handed out yet is not leased. */
  lemma NotYetLeased(c: Config, es: seq<Event>, k: Key, i: nat, m: Msg)
    requires AllAdmissible(c, es) && i <= |es| && m in Queue(Before(c, es, i), k)
    requires forall p | 0 <= p < i :: !HandsOut(c, es, p, m.num)
    ensures m.lease == None
  {
    hide Step, After;
    if m.lease.Some? {
      var p := LeaseHasHistory(c, es, k, i, m);
    }
  }

  /**
   First deliveries are first in, first out: a message that no operation up to `i` hands out
   came in after every message that `i` hands out on its route, whatever is pushed, leased,
   acknowledged or expired in between and however the clocks run.
   */
  lemma FirstDeliveriesInOrder(c: Config, es: seq<Event>, i: nat, j: nat, a: nat, b: nat)
    requires AllAdmissible(c, es) && i < j < |es|
    requires es[i].EPull? && es[j].EPull? && es[i].key == es[j].key
    requires HandsOut(c, es, i, a) && HandsOut(c, es, j, b)
    requires forall p | 0 <= p <= i :: !HandsOut(c, es, p, b)
    ensures a < b
  {
    hide Step, After, WellFormed, Ascending;
    var k, r := es[j].key, Before(c, es, i);
    var out :| out in ReplyAt(c, es, i).pull.items && out.num == a;
    var m :| m in ReplyAt(c, es, j).pull.items && m.num == b;
    PulledItem(c, r, es[i], out);
    PulledItem(c, Before(c, es, j), es[j], m);
    RunWellFormed(c, es, i);
    NumBelow(r, k, out);
    if b < r.next {
      var o := QueuedSince(c, es, k, i, j, m);
      NotYetLeased(c, es, k, i, o);
      assert !HandsOut(c, es, i, b);
      PullTakesLongestPrefix(c, r, es[i]);
      ReturnedOrOlderFirst(c, r, es[i], o);
    }
  }

  /** On a route without lease pulls, deliveries of a whole run are in the order of acceptance. */
  lemma LegacyIsFifo(c: Config, es: seq<Event>, i: nat, j: nat, a: nat, b: nat)
    requires AllAdmissible(c, es) && i < j < |es|
    requires es[i].EPull? && es[j].EPull? && es[i].key == es[j].key
    requires forall p | 0 <= p < |es| :: !(es[p].EPull? && es[p].key == es[j].key && es[p].mode == Lease)
    requires HandsOut(c, es, i, a) && HandsOut(c, es, j, b)
    ensures a < b
  {
    hide Step, After;
    forall p | 0 <= p <= i ensures !HandsOut(c, es, p, b) {
      if HandsOut(c, es, p, b) {
        DeliveriesApart(c, es, p, j, b);
      }
    }
    FirstDeliveriesInOrder(c, es, i, j, a, b);
  }

  // ------------------------------------------------------------------------- drain

  lemma {:induction false} DropPrefix(q: seq<Msg>, n: nat, nums: set<nat>)
    requires Ascending(q) && n <= |q|
    requires forall m | m in q :: m.num in nums <==> m in q[..n]
    ensures Edit(q, DropNums(nums)) == q[n..]
  {
    if n == 0 {
      EditUntouched(q, DropNums(nums));
    } else {
      assert q[0] in q[..n];
      forall m | m in q[1..] ensures m.num in nums <==> m in q[1..][..n - 1] {
        if m in q[..n] {
          var i :| 0 <= i < n && q[..n][i] == m;
          assert i > 0 ==> q[1..][..n - 1][i - 1] == m;
        }
      }
      DropPrefix(q[1..], n - 1, nums);
    }
  }

  ghost predicate LegacyPull(c: Config, k: Key, q: seq<Msg>, e: Event) {
    && e.EPull? && e.key == k && e.mode == Legacy && e.max >= 1
    && (forall m | m in q :: m.at > e.now - c.ttl)
  }

  lemma LegacyPullTakesPrefix(c: Config, r: Relay, k: Key, e: Event) returns (n: nat)
    requires Ascending(Queue(r, k)) && LegacyPull(c, k, Queue(r, k), e)
    requires forall m | m in Queue(r, k) :: m.lease == None
    ensures n <= |Queue(r, k)| && (Queue(r, k) != [] ==> n >= 1)
    ensures Step(c, r, e).1.pull.items == Queue(r, k)[..n]
    ensures Queue(Step(c, r, e).0, k) == Queue(r, k)[n..]
  {
    var q := Queue(r, k);
    EditUntouched(q, DropExpired(e.now - c.ttl));
    VisibleAll(q, e.now);
    PullEdits(c, r, e, k);
    QueueOfSweep(r, c.ttl, e.now, k);
    PullTakesLongestPrefix(c, r, e);
    hide Step, Sweep;
    var out := Step(c, r, e).1.pull.items;
    n := |out|;
    forall m | m in q ensures m.num in Nums(out) <==> m in q[..n] {
      if m.num in Nums(out) {
        var o :| o in out && o.num == m.num;
        AscendingUnique(q, o, m);
      }
    }
    DropPrefix(q, n, Nums(out));
  }

  /** Everything the pulls of a sequence return, in order. */
  ghost function Collected(c: Config, r: Relay, es: seq<Event>): seq<Msg>
    decreases |es|
  {
    if es == [] then []
    else
      (if es[0].EPull? then Step(c, r, es[0]).1.pull.items else []) + Collected(c, Step(c, r, es[0]).0, es[1..])
  }

  ghost function Final(c: Config, r: Relay, es: seq<Event>): Relay
    decreases |es|
  {
    if es == [] then r else Final(c, Step(c, r, es[0]).0, es[1..])
  }

  lemma EmptyDrain(r: Relay, k: Key)
    requires RoutesLive(r.queues)
    ensures k in r.queues <==> 0 < |Queue(r, k)|
  {
  }

  lemma SuffixAscending(q: seq<Msg>, n: nat)
    requires Ascending(q) && n <= |q|
    ensures Ascending(q[n..])
  {
  }

  lemma Rejoin(q: seq<Msg>, n: nat, m: nat)
    requires n + m <= |q|
    ensures q[..n] + q[n..][..m] == q[..n + m] && q[n..][m..] == q[n + m..]
  {
  }

  /**
   Draining: whatever their limits, legacy pulls return the queue in order, at least one
   message each while any is left, and the one that takes the last message frees the route.
   */
  lemma {:induction false} Drain(c: Config, r: Relay, k: Key, es: seq<Event>)
    requires RoutesLive(r.queues) && Ascending(Queue(r, k))
    requires forall e | e in es :: LegacyPull(c, k, Queue(r, k), e)
    requires forall m | m in Queue(r, k) :: m.lease == None
    ensures var n := |Collected(c, r, es)|;
            && Min(|es|, |Queue(r, k)|) <= n <= |Queue(r, k)|
            && Collected(c, r, es) == Queue(r, k)[..n]
            && Queue(Final(c, r, es), k) == Queue(r, k)[n..]
            && (k in Final(c, r, es).queues <==> n < |Queue(r, k)|)
    decreases |es|
  {
    hide Step, Ascending, RoutesLive;
    var q := Queue(r, k);
    if es == [] {
      EmptyDrain(r, k);
    } else {
      var r' := Step(c, r, es[0]).0;
      var n := LegacyPullTakesPrefix(c, r, k, es[0]);
      StepRoutesLive(c, r, es[0]);
      assert Ascending(q[n..]) by { SuffixAscending(q, n); }
      forall e | e in es[1..] ensures LegacyPull(c, k, q[n..], e) {
        assert LegacyPull(c, k, q, e);
      }
      Drain(c, r', k, es[1..]);
      hide LegacyPull;
      Rejoin(q, n, |Collected(c, r', es[1..])|);
    }
  }

  // ----------------------------------------------------------------------- acks

  /** The messages a change removes. */
  ghost function Removed(q: seq<Msg>, ch: Change): set<Msg> {
    set m | m in q && Apply(ch, m).None?
  }

  lemma HeadDistinct(q: seq<Msg>)
    requires Ascending(q) && q != []
    ensures q[0] !in q[1..] && Ascending(q[1..])
  {
  }

  lemma RemovedCons(q: seq<Msg>, ch: Change)
    requires q != [] && q[0] !in q[1..]
    ensures |Removed(q, ch)| == |Removed(q[1..], ch)| + (if Apply(ch, q[0]).None? then 1 else 0)
  {
    hide Apply;
    assert forall m :: m in q <==> m == q[0] || m in q[1..];
    if Apply(ch, q[0]).None? {
      assert Removed(q, ch) == Removed(q[1..], ch) + {q[0]};
    } else {
      assert Removed(q, ch) == Removed(q[1..], ch);
    }
  }

  /** In a well-formed queue, a change removes as many messages as it selects. */
  lemma {:induction false} DroppedIsCount(q: seq<Msg>, ch: Change)
    requires Ascending(q)
    ensures Dropped(q, ch) == |Removed(q, ch)|
  {
    if q != [] {
      HeadDistinct(q);
      DroppedIsCount(q[1..], ch);
      RemovedCons(q, ch);
      hide Removed, Ascending, Apply;
    } else {
      assert Removed(q, ch) == {};
    }
  }

  lemma AckState(c: Config, r: Relay, e: Event)
    requires e.EAck?
    ensures Step(c, r, e).1.ack.acked == Dropped(Queue(Sweep(r, c.ttl, e.now), e.key), DropAcked(e.ids))
    ensures var s := Sweep(r, c.ttl, e.now);
            Step(c, r, e).0 == s.(queues := Put(s.queues, e.key, Edit(Queue(s, e.key), DropAcked(e.ids))))
  {
  }

  lemma AckKeeps(q: seq<Msg>, ids: seq<string>, m: Msg)
    requires m in q
    ensures m in Edit(q, DropAcked(ids)) <==> !(m.lease.Some? && m.id in ids)
  {
    if m in Edit(q, DropAcked(ids)) {
      var o := EditOrigin(q, DropAcked(ids), m);
    } else if !(m.lease.Some? && m.id in ids) {
      EditKeeps(q, DropAcked(ids), m);
    }
  }

  /** The unexpired leased copies that an ack names. */
  ghost function Named(c: Config, r: Relay, e: Event): set<Msg>
    requires e.EAck?
  {
    set m | m in Queue(Sweep(r, c.ttl, e.now), e.key) && m.lease.Some? && m.id in e.ids
  }

  lemma RemovedByAck(q: seq<Msg>, ids: seq<string>)
    ensures Removed(q, DropAcked(ids)) == set m | m in q && m.lease.Some? && m.id in ids
  {
  }

  /** An ack counts exactly the unexpired leased copies of its ids on its route. */
  lemma AckCounts(c: Config, r: Relay, e: Event)
    requires WellFormed(r) && e.EAck?
    ensures Step(c, r, e).1.ack.acked == |Named(c, r, e)|
  {
    hide Step, Sweep, WellFormed, Dropped, Removed;
    var q := Queue(Sweep(r, c.ttl, e.now), e.key);
    AckState(c, r, e);
    SweptAscending(c, r, e.key, e.now);
    DroppedIsCount(q, DropAcked(e.ids));
    RemovedByAck(q, e.ids);
  }

  /** An ack removes exactly those copies from what its sweep leaves. */
  lemma AckRemoves(c: Config, r: Relay, e: Event, m: Msg)
    requires e.EAck? && m in Queue(Sweep(r, c.ttl, e.now), e.key)
    ensures m in Queue(Step(c, r, e).0, e.key) <==> m !in Named(c, r, e)
  {
    var s := Sweep(r, c.ttl, e.now);
    AckState(c, r, e);
    hide Step, Sweep, Edit;
    QueueOfPut(s, e.key, Edit(Queue(s, e.key), DropAcked(e.ids)), e.key);
    AckKeeps(Queue(s, e.key), e.ids, m);
  }

  ghost predicate NoLeasedCopy(r: Relay, k: Key, ids: seq<string>) {
    forall m | m in Queue(r, k) :: m.lease.None? || m.id !in ids
  }

  lemma ArrivalUnleased(c: Config, r: Relay, e: Event, k: Key)
    ensures forall m | m in Arrival(c, r, e, k) :: m.lease == None
  {
  }

  /** Apart from lease pulls, a message that survives a step is unchanged, and an ack did not name it. */
  lemma SurvivesUnchanged(c: Config, r: Relay, e: Event, k: Key, o: Msg, m: Msg)
    requires Survivor(FateOf(c, r, e, k, o), o) == Some(m)
    requires !(e.EPull? && e.key == k && e.mode == Lease)
    ensures m == o
    ensures e.EAck? && e.key == k ==> m.lease.None? || m.id !in e.ids
  {
    hide Step;
  }

  lemma NoLeasedCopyStep(c: Config, r: Relay, e: Event, k: Key, ids: seq<string>)
    requires WellFormed(r)
    requires NoLeasedCopy(r, k, ids) || (e.EAck? && e.key == k && e.ids == ids)
    requires !(e.EPull? && e.key == k && e.mode == Lease)
    ensures NoLeasedCopy(Step(c, r, e).0, k, ids)
  {
    QueueAscending(r, k);
    hide Step, WellFormed, Ascending, FateOf, Survivor;
    forall m | m in Queue(Step(c, r, e).0, k) ensures m.lease.None? || m.id !in ids {
      var o := StepOrigin(c, r, e, k, m);
      ArrivalUnleased(c, r, e, k);
      if Survivor(FateOf(c, r, e, k, o), o) == Some(m) {
        SurvivesUnchanged(c, r, e, k, o, m);
      }
    }
  }

  lemma {:induction false} NoLeasedCopyRun(c: Config, es: seq<Event>, i: nat, j: nat)
    requires AllAdmissible(c, es) && i < j <= |es| && es[i].EAck?
    requires forall n | i < n < j :: !(es[n].EPull? && es[n].key == es[i].key && es[n].mode == Lease)
    ensures NoLeasedCopy(Before(c, es, j), es[i].key, es[i].ids)
    decreases j
  {
    hide Step, After, WellFormed, NoLeasedCopy;
    Advance(c, es, j - 1);
    RunWellFormed(c, es, j - 1);
    if i < j - 1 {
      NoLeasedCopyRun(c, es, i, j - 1);
    }
    NoLeasedCopyStep(c, Before(c, es, j - 1), es[j - 1], es[i].key, es[i].ids);
  }

  lemma NothingNamed(c: Config, r: Relay, e: Event)
    requires e.EAck? && NoLeasedCopy(r, e.key, e.ids)
    ensures Named(c, r, e) == {}
  {
    QueueOfSweep(r, c.ttl, e.now, e.key);
    hide Sweep;
    if Named(c, r, e) != {} {
      var m :| m in Named(c, r, e);
      var o := EditOrigin(Queue(r, e.key), DropExpired(e.now - c.ttl), m);
      assert false;
    }
  }

  /** Repeating an ack with no lease on that route in between acknowledges nothing more. */
  lemma RepeatedAckIsZero(c: Config, es: seq<Event>, i: nat, j: nat)
    requires AllAdmissible(c, es) && i < j < |es|
    requires es[i].EAck? && es[j].EAck? && es[j].key == es[i].key && es[j].ids == es[i].ids
    requires forall n | i < n < j :: !(es[n].EPull? && es[n].key == es[i].key && es[n].mode == Lease)
    ensures ReplyAt(c, es, j).ack.acked == 0
  {
    hide Step, After;
    RunWellFormed(c, es, j);
    NoLeasedCopyRun(c, es, i, j);
    AckCounts(c, Before(c, es, j), es[j]);
    NothingNamed(c, Before(c, es, j), es[j]);
  }

  // ------------------------------------------------------ lease, then ack, is legacy

  lemma InIds(out: seq<Msg>, m: Msg)
    requires m in out
    ensures m.id in IdsOf(out)
  {
    var i :| 0 <= i < |out| && out[i] == m;
    assert IdsOf(out)[i] == m.id;
  }

  /** No leased message of `q` outside the batch `out` carries an id of the batch. */
  ghost predicate NoOtherLeasedCopy(q: seq<Msg>, out: seq<Msg>) {
    forall m | m in q && m !in out && m.lease.Some? :: m.id !in IdsOf(out)
  }

  /** Leasing a batch and acknowledging its ids drops the batch, unless another leased copy shares an id. */
  lemma LeaseAckEdits(q: seq<Msg>, out: seq<Msg>, until: int)
    requires Ascending(q) && forall m | m in out :: m in q
    ensures Edit(Edit(q, LeaseNums(Nums(out), until)), DropAcked(IdsOf(out))) == Edit(q, DropNums(Nums(out)))
            <==> NoOtherLeasedCopy(q, out)
  {
    var lease, ack, drop := LeaseNums(Nums(out), until), DropAcked(IdsOf(out)), DropNums(Nums(out));
    forall m | m in q ensures m.num in Nums(out) <==> m in out {
      if m.num in Nums(out) {
        var o :| o in out && o.num == m.num;
        AscendingUnique(q, o, m);
      }
    }
    if NoOtherLeasedCopy(q, out) {
      forall m | m in q
        ensures Apply(drop, m) == if Apply(lease, m).None? then None else Apply(ack, Apply(lease, m).value)
      {
        if m in out {
          InIds(out, m);
        }
      }
      EditCompose(q, lease, ack, drop);
    } else {
      var m :| m in q && m !in out && m.lease.Some? && m.id in IdsOf(out);
      EditKeeps(q, drop, m);
      if m in Edit(Edit(q, lease), ack) {
        var o := EditOrigin(Edit(q, lease), ack, m);
      }
    }
  }

  lemma PullState(c: Config, r: Relay, e: Event)
    requires e.EPull?
    ensures var s := Sweep(r, c.ttl, e.now);
            var out := Batch(Queue(s, e.key), e.max, e.budget, e.now);
            && Step(c, r, e).1.pull.items == out
            && Step(c, r, e).0 == s.(queues := Put(s.queues, e.key,
                 Edit(Queue(s, e.key), PullChange(out, e.mode, e.now + c.lease))))
  {
  }

  lemma PutTwice(queues: map<Key, seq<Msg>>, k: Key, first: seq<Msg>, second: seq<Msg>)
    ensures Put(Put(queues, k, first), k, second) == Put(queues, k, second)
  {
  }

  /** The state after a lease pull of `out` and an ack, at the same clock, of `out`'s ids. */
  lemma LeaseAckState(c: Config, r: Relay, s: Relay, k: Key, q: seq<Msg>, out: seq<Msg>, now: int, leased: Relay)
    requires s == Sweep(r, c.ttl, now) && q == Queue(s, k)
    requires leased == s.(queues := Put(s.queues, k, Edit(q, LeaseNums(Nums(out), now + c.lease))))
    ensures Step(c, leased, EAck(k, IdsOf(out), now)).0 == s.(queues := Put(s.queues, k,
              Edit(Edit(q, LeaseNums(Nums(out), now + c.lease)), DropAcked(IdsOf(out)))))
  {
    AckState(c, leased, EAck(k, IdsOf(out), now));
    SweptIsFresh(r, c.ttl, now);
    hide Step, Sweep;
    EditFresh(s, c.ttl, now, k, LeaseNums(Nums(out), now + c.lease));
    FreshIsSwept(leased, c.ttl, now);
    hide Fresh, Edit;
    QueueOfPut(s, k, Edit(q, LeaseNums(Nums(out), now + c.lease)), k);
    PutTwice(s.queues, k, Edit(q, LeaseNums(Nums(out), now + c.lease)),
             Edit(Edit(q, LeaseNums(Nums(out), now + c.lease)), DropAcked(IdsOf(out))));
  }

  lemma PullStateIs(c: Config, r: Relay, k: Key, max: nat, budget: nat, now: int, mode: PullMode)
    ensures var s := Sweep(r, c.ttl, now);
            var q := Queue(s, k);
            var out := Batch(q, max, budget, now);
            var step := Step(c, r, EPull(k, max, budget, now, mode));
            && step.1.pull.items == out
            && step.0 == s.(queues := Put(s.queues, k, Edit(q,
                 if mode == Legacy then DropNums(Nums(out)) else LeaseNums(Nums(out), now + c.lease))))
  {
    PullState(c, r, EPull(k, max, budget, now, mode));
  }

  lemma PutInjective(queues: map<Key, seq<Msg>>, k: Key, a: seq<Msg>, b: seq<Msg>)
    ensures Put(queues, k, a) == Put(queues, k, b) <==> a == b
  {
    if Put(queues, k, a) == Put(queues, k, b) {
      assert a == [] <==> k !in Put(queues, k, a);
      assert b == [] <==> k !in Put(queues, k, b);
    }
  }

  lemma PutDecides(s: Relay, k: Key, a: seq<Msg>, b: seq<Msg>)
    ensures s.(queues := Put(s.queues, k, a)) == s.(queues := Put(s.queues, k, b)) <==> a == b
  {
    PutInjective(s.queues, k, a, b);
  }

  /**
   A lease pull followed by the ack of everything it returned reaches the state of the
   corresponding legacy pull exactly when no other leased copy on the route shares one
   of the returned ids.
   */
  lemma LeaseThenAckIsLegacy(c: Config, r: Relay, k: Key, max: nat, budget: nat, now: int)
    requires WellFormed(r)
    ensures var leased := Step(c, r, EPull(k, max, budget, now, Lease));
            var acked := Step(c, leased.0, EAck(k, IdsOf(leased.1.pull.items), now));
            var legacy := Step(c, r, EPull(k, max, budget, now, Legacy));
            && leased.1.pull.items == legacy.1.pull.items
            && (acked.0 == legacy.0 <==>
                NoOtherLeasedCopy(Queue(Sweep(r, c.ttl, now), k), leased.1.pull.items))
  {
    hide Step, Sweep, Batch, WellFormed, Ascending, Edit, IdsOf, Put, NoOtherLeasedCopy;
    var s := Sweep(r, c.ttl, now);
    var q := Queue(s, k);
    var out := Batch(q, max, budget, now);
    var leased := Step(c, r, EPull(k, max, budget, now, Lease)).0;
    PullStateIs(c, r, k, max, budget, now, Lease);
    PullStateIs(c, r, k, max, budget, now, Legacy);
    SweptAscending(c, r, k, now);
    forall m | m in out ensures m in q {
      BatchFrom(q, max, budget, now, m);
    }
    LeaseAckState(c, r, s, k, q, out, now, leased);
    LeaseAckEdits(q, out, now + c.lease);
    PutDecides(s, k, Edit(Edit(q, LeaseNums(Nums(out), now + c.lease)), DropAcked(IdsOf(out))),
               Edit(q, DropNums(Nums(out))));
  }

  // ------------------------------------------------------------------ independence

  lemma SweepIgnoresSlots(r: Relay, slots: map<Key, Slot>, ttl: int, now: int)
    ensures Sweep(r.(slots := slots), ttl, now).queues == Sweep(r, ttl, now).queues
    ensures Sweep(r.(slots := slots), ttl, now).next == r.next == Sweep(r, ttl, now).next
  {
  }

  /**
   For a key that is not a slot, status, push, pull and ack answer and act the same
   whatever the slot table holds and whatever ticket is presented.
   */
  lemma SlotTableIsIrrelevant(c: Config, r: Relay, slots: map<Key, Slot>, e: Event, ticket: Option<Hash -> bool>)
    requires e.EStatus? || e.EEnqueue? || e.EPull? || e.EAck?
    requires e.key !in r.slots && e.key !in slots
    ensures var other := if e.EEnqueue? then e.(ticket := ticket) else e;
            var (a, b) := (Step(c, r, e), Step(c, r.(slots := slots), other));
            a.1 == b.1 && a.0.queues == b.0.queues && a.0.next == b.0.next
  {
    var b := r.(slots := slots);
    SweepIgnoresSlots(r, slots, c.ttl, e.now);
    hide Sweep, Batch, Edit, Put;
    if e.EPull? {
      PullState(c, r, e);
      PullState(c, b, e);
    }
  }

  /** An operation on one route does to every other route what its own sweep does, and no more. */
  lemma OtherRoutesOnlySwept(c: Config, r: Relay, e: Event, k: Key)
    requires WellFormed(r) && (e.ESweep? || e.key != k)
    ensures Queue(Step(c, r, e).0, k) ==
            if SweepCommits(c, r, e) then Edit(Queue(r, k), DropExpired(e.now - c.ttl)) else Queue(r, k)
  {
    StepQueue(c, r, e, k);
    if SweepCommits(c, r, e) {
      SweptQueue(c, r, e, k);
    } else {
      AllKept(c, r, e, k, Queue(r, k));
    }
    hide Step;
  }
}

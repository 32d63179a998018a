/**
 What one step does to one message. `FateOf` names the five things that can
 happen; `StepQueue` proves that a step changes every queue exactly by giving
 each message its fate, in order, and appending at most one accepted message.
 */
module Fates {
  import opened Base
  import opened RelaySpec
  import opened QueueLemmas

  datatype Fate = Kept | Leased(until: int) | Expired | Delivered | Acked

  // ------------------------------------------------------------- well-formedness

  ghost predicate SlotOk(o: Slot) {
    && (if o.state == Active then o.bundle != [] && o.sig != [] else o.bundle == [] && o.sig == [])
    && (o.ticket.Some? ==> o.state == Consumed)
  }

  ghost predicate QueueOk(q: seq<Msg>, next: nat) {
    q != [] && Ascending(q) && forall m | m in q :: m.num < next
  }

  /** No message number occurs on two routes. */
  ghost predicate NumsApart(r: Relay) {
    forall k, k', m, m' | k in r.queues && k' in r.queues && k != k' && m in r.queues[k] && m' in r.queues[k'] ::
      m.num != m'.num
  }

  ghost predicate WellFormed(r: Relay) {
    && (forall k | k in r.queues :: QueueOk(r.queues[k], r.next))
    && NumsApart(r)
    && (forall k | k in r.slots :: SlotOk(r.slots[k]))
  }

  /** What the handlers check before they call the store. */
  ghost predicate Admissible(c: Config, e: Event) {
    && (e.EEnqueue? ==> 0 < |e.body| <= c.maxBody)
    && (e.ECreate? ==> e.bundle != [] && e.sig != [] && e.expiry > e.now)
  }

  // ---------------------------------------------------------------------- fates

  /** The operations that sweep, and whose transaction commits. `Enqueue`, `Redeem` and `Revoke` never do. */
  ghost predicate SweepCommits(c: Config, r: Relay, e: Event) {
    || e.ESweep? || e.EStatus? || e.EPull? || e.EAck?
    || (e.ECreate? && Step(c, r, e).1.create == Created)
  }

  ghost function FateOf(c: Config, r: Relay, e: Event, k: Key, m: Msg): Fate {
    if SweepCommits(c, r, e) && m.at + c.ttl <= e.now then Expired
    else if e.EPull? && e.key == k && m in Step(c, r, e).1.pull.items then
      if e.mode == Legacy then Delivered else Leased(e.now + c.lease)
    else if e.EAck? && e.key == k && m.lease.Some? && m.id in e.ids then Acked
    else Kept
  }

  function Survivor(f: Fate, m: Msg): Option<Msg> {
    match f
    case Kept => Some(m)
    case Leased(until) => Some(m.(lease := Some(until)))
    case _ => None
  }

  ghost function Survivors(c: Config, r: Relay, e: Event, k: Key, q: seq<Msg>): seq<Msg> {
    if q == [] then []
    else
      var rest := Survivors(c, r, e, k, q[1..]);
      match Survivor(FateOf(c, r, e, k, q[0]), q[0])
      case None => rest
      case Some(m) => [m] + rest
  }

  /** The message an accepted push appends to the queue of `k`. */
  ghost function Arrival(c: Config, r: Relay, e: Event, k: Key): seq<Msg> {
    if e.EEnqueue? && e.key == k && Step(c, r, e).1.enqueue == Accepted
    then [Msg(r.next, e.id, e.body, e.now, None)] else []
  }

  lemma {:induction false} TwoEdits(c: Config, r: Relay, e: Event, k: Key, q: seq<Msg>, first: Change, second: Change)
    requires forall m | m in q ::
      Survivor(FateOf(c, r, e, k, m), m) ==
      if Apply(first, m).None? then None else Apply(second, Apply(first, m).value)
    ensures Survivors(c, r, e, k, q) == Edit(Edit(q, first), second)
  {
    if q != [] {
      TwoEdits(c, r, e, k, q[1..], first, second);
      if Apply(first, q[0]).Some? {
        assert Edit(q, first)[1..] == Edit(q[1..], first);
      }
    }
  }

  lemma {:induction false} AllKept(c: Config, r: Relay, e: Event, k: Key, q: seq<Msg>)
    requires forall m | m in q :: FateOf(c, r, e, k, m) == Kept
    ensures Survivors(c, r, e, k, q) == q
  {
    if q != [] {
      AllKept(c, r, e, k, q[1..]);
      assert q == [q[0]] + q[1..];
    }
  }

  lemma QueueOfSweep(r: Relay, ttl: int, now: int, k: Key)
    ensures Queue(Sweep(r, ttl, now), k) == Edit(Queue(r, k), DropExpired(now - ttl))
  {
  }

  lemma QueueOfPut(r: Relay, k: Key, q: seq<Msg>, other: Key)
    ensures Queue(r.(queues := Put(r.queues, k, q)), other) == if other == k then q else Queue(r, other)
  {
  }

  /** A batch contains a message of the queue exactly when it contains its number. */
  lemma BatchByNumber(q: seq<Msg>, cut: Change, out: seq<Msg>, m: Msg)
    requires Ascending(q) && m in q && Apply(cut, m) == Some(m) && cut.DropExpired?
    requires forall o | o in out :: o in Edit(q, cut)
    ensures m in out <==> m.num in Nums(out)
  {
    if m.num in Nums(out) {
      var o :| o in out && o.num == m.num;
      var origin := EditOrigin(q, cut, o);
      AscendingUnique(q, m, origin);
    }
  }

  /** The state a pull leaves on route `k`, as two row edits. */
  lemma PullEdits(c: Config, r: Relay, e: Event, k: Key)
    requires e.EPull?
    ensures var swept := Edit(Queue(r, k), DropExpired(e.now - c.ttl));
            var out := Step(c, r, e).1.pull.items;
            && (k == e.key ==> out == Batch(swept, e.max, e.budget, e.now))
            && Queue(Step(c, r, e).0, k) ==
                 if k == e.key then Edit(swept, PullChange(out, e.mode, e.now + c.lease)) else swept
  {
    var s := Sweep(r, c.ttl, e.now);
    QueueOfSweep(r, c.ttl, e.now, k);
    QueueOfSweep(r, c.ttl, e.now, e.key);
    var out := Batch(Queue(s, e.key), e.max, e.budget, e.now);
    QueueOfPut(s, e.key, Edit(Queue(s, e.key), PullChange(out, e.mode, e.now + c.lease)), k);
  }

  lemma PulledFate(c: Config, r: Relay, e: Event, m: Msg)
    requires e.EPull? && Ascending(Queue(r, e.key)) && m in Queue(r, e.key)
    ensures var cut := DropExpired(e.now - c.ttl);
            var ch := PullChange(Step(c, r, e).1.pull.items, e.mode, e.now + c.lease);
            Survivor(FateOf(c, r, e, e.key, m), m) == if Apply(cut, m).None? then None else Apply(ch, m)
  {
    var q := Queue(r, e.key);
    var cut := DropExpired(e.now - c.ttl);
    PullEdits(c, r, e, e.key);
    var out := Step(c, r, e).1.pull.items;
    hide Step, Batch;
    forall o | o in out ensures o in Edit(q, cut) {
      BatchFrom(Edit(q, cut), e.max, e.budget, e.now, o);
    }
    if Apply(cut, m) == Some(m) {
      BatchByNumber(q, cut, out, m);
    }
  }

  /** A step that only sweeps route `k`. */
  lemma SweptQueue(c: Config, r: Relay, e: Event, k: Key)
    requires SweepCommits(c, r, e) && !(e.EPull? && e.key == k) && !(e.EAck? && e.key == k)
    ensures Survivors(c, r, e, k, Queue(r, k)) == Edit(Queue(r, k), DropExpired(e.now - c.ttl))
  {
    var cut := DropExpired(e.now - c.ttl);
    TwoEdits(c, r, e, k, Queue(r, k), cut, DropNums({}));
    EditUntouched(Edit(Queue(r, k), cut), DropNums({}));
  }

  lemma PullQueue(c: Config, r: Relay, e: Event, k: Key)
    requires e.EPull? && (k in r.queues ==> Ascending(r.queues[k]))
    ensures Queue(Step(c, r, e).0, k) == Survivors(c, r, e, k, Queue(r, k))
  {
    PullEdits(c, r, e, k);
    if k == e.key {
      var ch := PullChange(Step(c, r, e).1.pull.items, e.mode, e.now + c.lease);
      forall m | m in Queue(r, k)
        ensures Survivor(FateOf(c, r, e, k, m), m) ==
                if Apply(DropExpired(e.now - c.ttl), m).None? then None else Apply(ch, m)
      {
        PulledFate(c, r, e, m);
      }
      TwoEdits(c, r, e, k, Queue(r, k), DropExpired(e.now - c.ttl), ch);
    } else {
      SweptQueue(c, r, e, k);
    }
  }

  lemma AckQueue(c: Config, r: Relay, e: Event, k: Key)
    requires e.EAck?
    ensures Queue(Step(c, r, e).0, k) == Survivors(c, r, e, k, Queue(r, k))
  {
    var s := Sweep(r, c.ttl, e.now);
    QueueOfSweep(r, c.ttl, e.now, k);
    QueueOfPut(s, e.key, Edit(Queue(s, e.key), DropAcked(e.ids)), k);
    if k == e.key {
      TwoEdits(c, r, e, k, Queue(r, k), DropExpired(e.now - c.ttl), DropAcked(e.ids));
    } else {
      SweptQueue(c, r, e, k);
    }
  }

  lemma PushedQueue(c: Config, r: Relay, e: Event, k: Key)
    requires e.EEnqueue?
    ensures Queue(Step(c, r, e).0, k) == Survivors(c, r, e, k, Queue(r, k)) + Arrival(c, r, e, k)
  {
    AllKept(c, r, e, k, Queue(r, k));
    hide Survivors, FateOf, SlotGate;
    if Step(c, r, e).1.enqueue == Accepted {
      assert Queue(Step(c, r, e).0, k) == Queue(r, k) + Arrival(c, r, e, k);
    } else {
      assert Arrival(c, r, e, k) == [];
    }
  }

  lemma SweptQueues(c: Config, r: Relay, e: Event)
    requires !e.EPull? && !e.EAck? && !e.EEnqueue?
    ensures Step(c, r, e).0.queues == if SweepCommits(c, r, e) then Sweep(r, c.ttl, e.now).queues else r.queues
  {
    hide Sweep;
  }

  lemma OtherQueue(c: Config, r: Relay, e: Event, k: Key)
    requires !e.EPull? && !e.EAck? && !e.EEnqueue?
    ensures Queue(Step(c, r, e).0, k) == Survivors(c, r, e, k, Queue(r, k)) + Arrival(c, r, e, k)
  {
    SweptQueues(c, r, e);
    assert Arrival(c, r, e, k) == [];
    if SweepCommits(c, r, e) {
      SweptQueue(c, r, e, k);
      QueueOfSweep(r, c.ttl, e.now, k);
    } else {
      AllKept(c, r, e, k, Queue(r, k));
    }
    hide Step, Survivors, FateOf, Sweep, SweepCommits;
  }

  /** A step gives every message of every queue its fate, in order, and appends what it accepts. */
  lemma StepQueue(c: Config, r: Relay, e: Event, k: Key)
    requires k in r.queues ==> Ascending(r.queues[k])
    ensures Queue(Step(c, r, e).0, k) == Survivors(c, r, e, k, Queue(r, k)) + Arrival(c, r, e, k)
  {
    if e.EPull? {
      PullQueue(c, r, e, k);
    } else if e.EAck? {
      AckQueue(c, r, e, k);
    } else if e.EEnqueue? {
      PushedQueue(c, r, e, k);
    } else {
      OtherQueue(c, r, e, k);
    }
  }

  // ------------------------------------------------------------- single messages

  lemma {:induction false} SurvivorIn(c: Config, r: Relay, e: Event, k: Key, q: seq<Msg>, m: Msg)
    requires m in q && Survivor(FateOf(c, r, e, k, m), m).Some?
    ensures Survivor(FateOf(c, r, e, k, m), m).value in Survivors(c, r, e, k, q)
  {
    if m != q[0] {
      SurvivorIn(c, r, e, k, q[1..], m);
    }
  }

  lemma {:induction false} SurvivorFrom(c: Config, r: Relay, e: Event, k: Key, q: seq<Msg>, m: Msg) returns (o: Msg)
    requires m in Survivors(c, r, e, k, q)
    ensures o in q && Survivor(FateOf(c, r, e, k, o), o) == Some(m)
    ensures o.num == m.num
  {
    if Survivor(FateOf(c, r, e, k, q[0]), q[0]) == Some(m) {
      o := q[0];
    } else {
      o := SurvivorFrom(c, r, e, k, q[1..], m);
    }
  }

  lemma {:induction false} SurvivorsAscending(c: Config, r: Relay, e: Event, k: Key, q: seq<Msg>)
    requires Ascending(q)
    ensures Ascending(Survivors(c, r, e, k, q)) && |Survivors(c, r, e, k, q)| <= |q|
  {
    if q != [] {
      SurvivorsAscending(c, r, e, k, q[1..]);
      var rest := Survivors(c, r, e, k, q[1..]);
      forall j | 0 <= j < |rest| ensures q[0].num < rest[j].num {
        var o := SurvivorFrom(c, r, e, k, q[1..], rest[j]);
      }
    }
  }

  /** Where a message of the new state comes from. */
  lemma StepOrigin(c: Config, r: Relay, e: Event, k: Key, m: Msg) returns (o: Msg)
    requires k in r.queues ==> Ascending(r.queues[k])
    requires m in Queue(Step(c, r, e).0, k)
    ensures || (o in Queue(r, k) && Survivor(FateOf(c, r, e, k, o), o) == Some(m) && o.num == m.num)
            || (o == m && Arrival(c, r, e, k) == [m])
  {
    StepQueue(c, r, e, k);
    if m in Survivors(c, r, e, k, Queue(r, k)) {
      o := SurvivorFrom(c, r, e, k, Queue(r, k), m);
    } else {
      o := m;
    }
  }

  // ------------------------------------------------------------ the step keeps it

  ghost predicate RoutesLive(queues: map<Key, seq<Msg>>) {
    forall k | k in queues :: queues[k] != []
  }

  lemma PutLive(queues: map<Key, seq<Msg>>, k: Key, q: seq<Msg>)
    requires RoutesLive(queues)
    ensures RoutesLive(Put(queues, k, q))
  {
  }

  lemma StepRoutesLive(c: Config, r: Relay, e: Event)
    requires RoutesLive(r.queues)
    ensures RoutesLive(Step(c, r, e).0.queues)
  {
    match e
    case EPull(k, max, budget, now, mode) =>
      var s := Sweep(r, c.ttl, now);
      var q := Queue(s, k);
      PutLive(s.queues, k, Edit(q, PullChange(Batch(q, max, budget, now), mode, now + c.lease)));
    case EAck(k, ids, now) =>
      var s := Sweep(r, c.ttl, now);
      PutLive(s.queues, k, Edit(Queue(s, k), DropAcked(ids)));
    case _ =>
  }

  lemma SurvivorsOk(c: Config, r: Relay, e: Event, k: Key, q: seq<Msg>, next: nat)
    requires Ascending(q) && forall m | m in q :: m.num < next
    ensures Ascending(Survivors(c, r, e, k, q)) && forall m | m in Survivors(c, r, e, k, q) :: m.num < next
  {
    SurvivorsAscending(c, r, e, k, q);
    forall m | m in Survivors(c, r, e, k, q) ensures m.num < next {
      var o := SurvivorFrom(c, r, e, k, q, m);
    }
  }

  lemma AppendOk(kept: seq<Msg>, arrival: seq<Msg>, next: nat, next': nat)
    requires Ascending(kept) && forall m | m in kept :: m.num < next
    requires |arrival| <= 1 && (forall m | m in arrival :: m.num == next) && next' == next + |arrival|
    ensures Ascending(kept + arrival) && forall m | m in kept + arrival :: m.num < next'
  {
  }

  lemma ArrivalKey(c: Config, r: Relay, e: Event, k: Key)
    ensures |Arrival(c, r, e, k)| <= 1
    ensures |Arrival(c, r, e, k)| == 1 <==> e.EEnqueue? && e.key == k && Step(c, r, e).1.enqueue == Accepted
    ensures forall m | m in Arrival(c, r, e, k) :: m.num == r.next
  {
  }

  /** The counter moves by one with each accepted push and otherwise stays. */
  lemma StepNext(c: Config, r: Relay, e: Event)
    ensures Step(c, r, e).0.next == r.next + (if e.EEnqueue? && Step(c, r, e).1.enqueue == Accepted then 1 else 0)
  {
  }

  lemma StepQueueOk(c: Config, r: Relay, e: Event, k: Key, r': Relay)
    requires WellFormed(r) && r' == Step(c, r, e).0
    requires k in r'.queues
    ensures QueueOk(r'.queues[k], r'.next)
  {
    StepRoutesLive(c, r, e);
    StepQueue(c, r, e, k);
    StepNext(c, r, e);
    ArrivalKey(c, r, e, k);
    SurvivorsOk(c, r, e, k, Queue(r, k), r.next);
    if e.EEnqueue? && e.key != k {
      AppendOk(Survivors(c, r, e, k, Queue(r, k)), [], r.next, r.next);
    } else {
      AppendOk(Survivors(c, r, e, k, Queue(r, k)), Arrival(c, r, e, k), r.next, r'.next);
    }
  }

  /** A number on route `k` was there before, or was just assigned to a push on `k`. */
  lemma NumOrigin(c: Config, r: Relay, e: Event, r': Relay, k: Key, m: Msg)
    requires WellFormed(r) && r' == Step(c, r, e).0
    requires k in r'.queues && m in r'.queues[k]
    ensures || (m.num < r.next && k in r.queues && exists o | o in r.queues[k] :: o.num == m.num)
            || (m.num == r.next && e.EEnqueue? && e.key == k)
  {
    var o := StepOrigin(c, r, e, k, m);
  }

  lemma StepNumsApart(c: Config, r: Relay, e: Event, r': Relay)
    requires WellFormed(r) && r' == Step(c, r, e).0
    ensures NumsApart(r')
  {
    forall k, k', m, m' | k in r'.queues && k' in r'.queues && k != k' && m in r'.queues[k] && m' in r'.queues[k']
      ensures m.num != m'.num
    {
      NumOrigin(c, r, e, r', k, m);
      NumOrigin(c, r, e, r', k', m');
    }
  }

  lemma StepSlotsOk(c: Config, r: Relay, e: Event, r': Relay)
    requires WellFormed(r) && Admissible(c, e) && r' == Step(c, r, e).0
    ensures forall k | k in r'.slots :: SlotOk(r'.slots[k])
  {
  }

  /** Every step keeps the well-formedness of queues and slots. */
  lemma StepWellFormed(c: Config, r: Relay, e: Event)
    requires WellFormed(r) && Admissible(c, e)
    ensures WellFormed(Step(c, r, e).0)
  {
    var r' := Step(c, r, e).0;
    forall k | k in r'.queues ensures QueueOk(r'.queues[k], r'.next) {
      StepQueueOk(c, r, e, k, r');
    }
    StepNumsApart(c, r, e, r');
    StepSlotsOk(c, r, e, r');
  }
}

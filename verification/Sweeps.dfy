/**
 Background retention sweeps cannot be observed in the replies of the store: every
 operation that answers from messages sweeps for itself. Only redeem and revoke can
 tell, and only whether the row of a dead slot is still there. What clients of the
 handlers can tell, through the rate buckets, is in module `Requests`.
 */
module Sweeps {
  import opened Base
  import opened RelaySpec
  import opened QueueLemmas
  import opened Fates

  // --------------------------------------------------------------- sweep algebra

  lemma SweptTwiceQueue(q: seq<Msg>, ttl: nat, t1: int, t2: int)
    ensures Edit(Edit(q, DropExpired(t1 - ttl)), DropExpired(t2 - ttl)) == Edit(q, DropExpired(Max(t1, t2) - ttl))
    ensures Edit(q, DropExpired(t1 - ttl)) == [] ==> Edit(q, DropExpired(Max(t1, t2) - ttl)) == []
  {
    EditCompose(q, DropExpired(t1 - ttl), DropExpired(t2 - ttl), DropExpired(Max(t1, t2) - ttl));
  }

  lemma SweepKeys(r: Relay, ttl: int, now: int, k: Key)
    ensures k in Sweep(r, ttl, now).queues <==> Edit(Queue(r, k), DropExpired(now - ttl)) != []
    ensures k in Sweep(r, ttl, now).queues ==>
              Sweep(r, ttl, now).queues[k] == Edit(Queue(r, k), DropExpired(now - ttl))
  {
  }

  /** Two sweeps, in either clock order, are one sweep with the later clock. */
  lemma SweepTwice(r: Relay, ttl: nat, t1: int, t2: int)
    ensures Sweep(Sweep(r, ttl, t1), ttl, t2) == Sweep(r, ttl, Max(t1, t2))
  {
    var s := Sweep(r, ttl, t1);
    var left, right := Sweep(s, ttl, t2), Sweep(r, ttl, Max(t1, t2));
    assert left.slots == right.slots && left.next == right.next;
    hide Sweep;
    forall k ensures k in left.queues <==> k in right.queues
             ensures k in left.queues ==> left.queues[k] == right.queues[k]
    {
      QueueOfSweep(r, ttl, t1, k);
      SweepKeys(s, ttl, t2, k);
      SweepKeys(r, ttl, Max(t1, t2), k);
      SweptTwiceQueue(Queue(r, k), ttl, t1, t2);
    }
    assert left.queues == right.queues;
  }

  /** Nothing in the state is due at `now`. */
  ghost predicate Fresh(r: Relay, ttl: int, now: int) {
    && RoutesLive(r.queues)
    && (forall k, m | k in r.queues && m in r.queues[k] :: m.at > now - ttl)
    && (forall k | k in r.slots :: r.slots[k].expiry > now)
  }

  lemma FreshIsSwept(r: Relay, ttl: int, now: int)
    requires Fresh(r, ttl, now)
    ensures Sweep(r, ttl, now) == r
  {
    forall k | k in r.queues ensures Edit(r.queues[k], DropExpired(now - ttl)) == r.queues[k] {
      EditUntouched(r.queues[k], DropExpired(now - ttl));
    }
    assert Sweep(r, ttl, now).queues == r.queues;
    assert Sweep(r, ttl, now).slots == r.slots;
  }

  lemma SweptIsFresh(r: Relay, ttl: int, now: int)
    ensures Fresh(Sweep(r, ttl, now), ttl, now)
  {
    var s := Sweep(r, ttl, now);
    forall k, m | k in s.queues && m in s.queues[k] ensures m.at > now - ttl {
      var o := EditOrigin(r.queues[k], DropExpired(now - ttl), m);
    }
  }

  lemma EditFresh(s: Relay, ttl: int, now: int, k: Key, ch: Change)
    requires Fresh(s, ttl, now)
    ensures Fresh(s.(queues := Put(s.queues, k, Edit(Queue(s, k), ch))), ttl, now)
  {
    PutLive(s.queues, k, Edit(Queue(s, k), ch));
    forall m | m in Edit(Queue(s, k), ch) ensures m.at > now - ttl {
      var o := EditOrigin(Queue(s, k), ch, m);
    }
  }

  // ------------------------------------------------------ runs with extra sweeps

  /** Status, pull and ack answer from the swept state and leave a swept state. */
  predicate SweepsFirst(e: Event) {
    e.EStatus? || e.EPull? || e.EAck?
  }

  /**
   Clocks do not run backwards from `now`, and a push stores its message with the clock
   of its own status call, which `swept` says has happened at `now`.
   */
  predicate Orderly(es: seq<Event>, now: int, swept: bool) {
    es == [] ||
    var e := es[0];
    && e.now >= now
    && (e.EEnqueue? ==> e.now == now && swept)
    && Orderly(es[1..], e.now, SweepsFirst(e) || (swept && e.now == now))
  }

  /** The run without its background sweeps. */
  function Strip(es: seq<Event>): seq<Event> {
    if es == [] then []
    else if es[0].ESweep? then Strip(es[1..])
    else [es[0]] + Strip(es[1..])
  }

  /**
   A reply without what only redeem and revoke can tell: whether the row of a dead slot is
   still there. What a redemption says of a live slot, and the blobs it returns, is kept.
   */
  function Gist(y: Reply): Reply {
    match y
    case YRedeem(RedeemRevoked) => YRedeem(NotFound)
    case YRedeem(RedeemExpired) => YRedeem(NotFound)
    case YRevoke(_) => YRevoke(RevokeNotFound)
    case _ => y
  }

  /** What the callers of all other operations are told. */
  ghost function Observed(c: Config, r: Relay, es: seq<Event>): seq<Reply>
    decreases |es|
  {
    if es == [] then []
    else
      var rest := Observed(c, Step(c, r, es[0]).0, es[1..]);
      if es[0].ESweep? then rest else [Gist(Step(c, r, es[0]).1)] + rest
  }

  /** Two states that a sweep at `now` makes equal; both are already swept when `swept` says so. */
  ghost predicate Alike(c: Config, a: Relay, b: Relay, now: int, swept: bool) {
    && Sweep(a, c.ttl, now) == Sweep(b, c.ttl, now)
    && (swept ==> Fresh(a, c.ttl, now) && a == b)
  }

  lemma AlikeLater(c: Config, a: Relay, b: Relay, now: int, later: int)
    requires Sweep(a, c.ttl, now) == Sweep(b, c.ttl, now) && now <= later
    ensures Sweep(a, c.ttl, later) == Sweep(b, c.ttl, later)
  {
    SweepTwice(a, c.ttl, now, later);
    SweepTwice(b, c.ttl, now, later);
  }

  lemma PullFresh(c: Config, r: Relay, e: Event)
    requires e.EPull?
    ensures Fresh(Step(c, r, e).0, c.ttl, e.now)
  {
    var s := Sweep(r, c.ttl, e.now);
    var ch := PullChange(Batch(Queue(s, e.key), e.max, e.budget, e.now), e.mode, e.now + c.lease);
    SweptIsFresh(r, c.ttl, e.now);
    EditFresh(s, c.ttl, e.now, e.key, ch);
    hide Sweep, Fresh, Edit, Batch, PullChange, Put, Queue;
  }

  lemma AckFresh(c: Config, r: Relay, e: Event)
    requires e.EAck?
    ensures Fresh(Step(c, r, e).0, c.ttl, e.now)
  {
    SweptIsFresh(r, c.ttl, e.now);
    EditFresh(Sweep(r, c.ttl, e.now), c.ttl, e.now, e.key, DropAcked(e.ids));
    hide Sweep, Fresh, Edit, Put, Queue;
  }

  lemma SweepsFirstStep(c: Config, a: Relay, b: Relay, e: Event)
    requires SweepsFirst(e) && Sweep(a, c.ttl, e.now) == Sweep(b, c.ttl, e.now)
    ensures Step(c, a, e) == Step(c, b, e)
    ensures Fresh(Step(c, a, e).0, c.ttl, e.now)
  {
    hide Sweep, Fresh, Edit, Batch, PullChange, Put, Queue, Dropped;
    if e.EPull? {
      PullFresh(c, a, e);
    } else if e.EAck? {
      AckFresh(c, a, e);
    } else {
      SweptIsFresh(a, c.ttl, e.now);
    }
  }

  lemma CreateStep(c: Config, a: Relay, b: Relay, e: Event, now: int, swept: bool)
    requires e.ECreate? && Admissible(c, e) && now <= e.now && Alike(c, a, b, now, swept)
    ensures Step(c, a, e).1 == Step(c, b, e).1
    ensures Alike(c, Step(c, a, e).0, Step(c, b, e).0, e.now, swept && e.now == now)
  {
    AlikeLater(c, a, b, now, e.now);
    SweptIsFresh(a, c.ttl, e.now);
    if swept && e.now == now {
      FreshIsSwept(a, c.ttl, now);
    }
  }

  lemma AdmitFresh(c: Config, a: Relay, e: Event)
    requires e.EEnqueue? && Fresh(a, c.ttl, e.now) && c.ttl > 0
    ensures Fresh(Step(c, a, e).0, c.ttl, e.now)
  {
    var b := Admit(a, e.key, e.id, e.body, e.now);
    forall k, m | k in b.queues && m in b.queues[k] ensures m.at > e.now - c.ttl {
      if m !in Queue(a, k) {
        assert m.at == e.now;
      }
    }
  }

  lemma SweepStep(c: Config, a: Relay, b: Relay, e: Event, now: int, swept: bool)
    requires e.ESweep? && now <= e.now && Alike(c, a, b, now, swept)
    ensures Alike(c, Step(c, a, e).0, b, e.now, swept && e.now == now)
  {
    AlikeLater(c, a, b, now, e.now);
    SweepTwice(a, c.ttl, e.now, e.now);
    SweptIsFresh(a, c.ttl, e.now);
    if swept && e.now == now {
      FreshIsSwept(a, c.ttl, now);
    }
  }

  /** A redemption and a sweep of the same clock commute: a due row is never redeemed. */
  lemma RedeemCommutes(r: Relay, ttl: int, k: Key, now: int, ticketHash: Hash, verify: Hash -> bool)
    ensures Sweep(Redeem(r, k, now, ticketHash, verify).0, ttl, now) ==
            Redeem(Sweep(r, ttl, now), k, now, ticketHash, verify).0
  {
    assert Sweep(Redeem(r, k, now, ticketHash, verify).0, ttl, now).slots ==
           Redeem(Sweep(r, ttl, now), k, now, ticketHash, verify).0.slots;
    hide Edit;
  }

  lemma RedeemGist(r: Relay, ttl: int, k: Key, now: int, ticketHash: Hash, verify: Hash -> bool)
    ensures Gist(YRedeem(Redeem(r, k, now, ticketHash, verify).1)) ==
            Gist(YRedeem(Redeem(Sweep(r, ttl, now), k, now, ticketHash, verify).1))
  {
    hide Edit;
  }

  /** A revocation may change a due row, and then the sweep takes it away. */
  lemma RevokeCommutes(r: Relay, ttl: int, k: Key, now: int, verify: Hash -> bool)
    ensures Sweep(Revoke(r, k, verify).0, ttl, now) == Revoke(Sweep(r, ttl, now), k, verify).0
  {
    assert Sweep(Revoke(r, k, verify).0, ttl, now).slots == Revoke(Sweep(r, ttl, now), k, verify).0.slots;
    hide Edit;
  }

  lemma SlotStepFresh(c: Config, r: Relay, e: Event, now: int)
    requires (e.ERedeem? || e.ERevoke?) && Fresh(r, c.ttl, now)
    ensures Fresh(Step(c, r, e).0, c.ttl, now)
  {
    assert Step(c, r, e).0.queues == r.queues;
  }

  lemma RedeemStep(c: Config, a: Relay, b: Relay, e: Event, now: int, swept: bool)
    requires e.ERedeem? && now <= e.now && Alike(c, a, b, now, swept)
    ensures Gist(Step(c, a, e).1) == Gist(Step(c, b, e).1)
    ensures Alike(c, Step(c, a, e).0, Step(c, b, e).0, e.now, swept && e.now == now)
  {
    AlikeLater(c, a, b, now, e.now);
    if swept && e.now == now {
      SlotStepFresh(c, a, e, now);
    }
    RedeemCommutes(a, c.ttl, e.key, e.now, e.ticketHash, e.verify);
    RedeemCommutes(b, c.ttl, e.key, e.now, e.ticketHash, e.verify);
    RedeemGist(a, c.ttl, e.key, e.now, e.ticketHash, e.verify);
    RedeemGist(b, c.ttl, e.key, e.now, e.ticketHash, e.verify);
    hide Sweep, Fresh, Redeem, Gist;
  }

  lemma RevokeStep(c: Config, a: Relay, b: Relay, e: Event, now: int, swept: bool)
    requires e.ERevoke? && now <= e.now && Alike(c, a, b, now, swept)
    ensures Gist(Step(c, a, e).1) == Gist(Step(c, b, e).1)
    ensures Alike(c, Step(c, a, e).0, Step(c, b, e).0, e.now, swept && e.now == now)
  {
    AlikeLater(c, a, b, now, e.now);
    if swept && e.now == now {
      SlotStepFresh(c, a, e, now);
    }
    RevokeCommutes(a, c.ttl, e.key, e.now, e.verify);
    RevokeCommutes(b, c.ttl, e.key, e.now, e.verify);
    hide Sweep, Fresh, Revoke;
  }

  /** One operation, in both runs when it is not a background sweep, keeps the states alike. */
  lemma AlikeStep(c: Config, a: Relay, b: Relay, e: Event, now: int, swept: bool)
    requires c.ttl > 0 && Admissible(c, e) && Orderly([e], now, swept) && Alike(c, a, b, now, swept)
    ensures var b' := if e.ESweep? then b else Step(c, b, e).0;
            Alike(c, Step(c, a, e).0, b', e.now, SweepsFirst(e) || (swept && e.now == now))
    ensures e.ESweep? || Gist(Step(c, a, e).1) == Gist(Step(c, b, e).1)
  {
    hide Step, Sweep, Fresh, Gist;
    AlikeLater(c, a, b, now, e.now);
    if e.ESweep? {
      SweepStep(c, a, b, e, now, swept);
    } else if SweepsFirst(e) {
      SweepsFirstStep(c, a, b, e);
    } else if e.ECreate? {
      CreateStep(c, a, b, e, now, swept);
    } else if e.ERedeem? {
      RedeemStep(c, a, b, e, now, swept);
    } else if e.ERevoke? {
      RevokeStep(c, a, b, e, now, swept);
    } else {
      AdmitFresh(c, a, e);
    }
  }

  lemma {:induction false} SameObservations(c: Config, a: Relay, b: Relay, es: seq<Event>, now: int, swept: bool)
    requires c.ttl > 0 && (forall e | e in es :: Admissible(c, e))
    requires Orderly(es, now, swept) && Alike(c, a, b, now, swept)
    ensures Observed(c, a, es) == Observed(c, b, Strip(es))
    decreases |es|
  {
    hide Step, Alike, Admissible, Gist;
    if es != [] {
      var e := es[0];
      AlikeStep(c, a, b, e, now, swept);
      var b' := if e.ESweep? then b else Step(c, b, e).0;
      SameObservations(c, Step(c, a, e).0, b', es[1..], e.now, SweepsFirst(e) || (swept && e.now == now));
      if !e.ESweep? {
        assert Strip(es)[0] == e && Strip(es)[1..] == Strip(es[1..]);
      }
    }
  }

  /**
   Background sweeps are unobservable: in a run with clocks that do not run backwards,
   redemptions and revocations included, removing every background sweep changes no
   status, push, pull, ack or create reply, and no redeem reply except between the causes
   that name a dead slot: not found, revoked, expired.
   */
  lemma SweepsAreUnobservable(c: Config, es: seq<Event>, start: int)
    requires c.ttl > 0 && (forall e | e in es :: Admissible(c, e)) && Orderly(es, start, false)
    ensures Observed(c, EMPTY, es) == Observed(c, EMPTY, Strip(es))
  {
    SameObservations(c, EMPTY, EMPTY, es, start, false);
  }

  /**
   Redeem and revoke do not sweep. A sweep at `t` changes what they answer exactly when
   the slot's row was still there and due at `t`.
   */
  lemma RedeemAndRevokeCanTell(c: Config, r: Relay, k: Key, t: int, now: int, ticketHash: Hash, verify: Hash -> bool)
    ensures Redeem(Sweep(r, c.ttl, t), k, now, ticketHash, verify).1 == Redeem(r, k, now, ticketHash, verify).1 <==>
            !(k in r.slots && r.slots[k].expiry <= t)
    ensures Revoke(Sweep(r, c.ttl, t), k, verify).1 == Revoke(r, k, verify).1 <==>
            !(k in r.slots && r.slots[k].expiry <= t)
  {
  }
}

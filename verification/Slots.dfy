/**
 Invite slots over whole runs. A slot is the time between one `Created` reply
 for a key and the sweep that deletes the row; a later slot of the same key is
 a different one.
 */
module Slots {
  import opened Base
  import opened RelaySpec
  import opened Fates
  import opened Runs

  // ------------------------------------------------------------------- one step

  ghost predicate CreatesSlot(c: Config, r: Relay, e: Event, k: Key) {
    e.ECreate? && e.key == k && Step(c, r, e).1.create == Created
  }

  ghost predicate RedeemsSlot(c: Config, r: Relay, e: Event, k: Key) {
    e.ERedeem? && e.key == k && Step(c, r, e).1.redeem.Redeemed?
  }

  ghost predicate RevokesSlot(c: Config, r: Relay, e: Event, k: Key) {
    e.ERevoke? && e.key == k && Step(c, r, e).1.revoke == RevokedNow
  }

  ghost predicate PushesInto(c: Config, r: Relay, e: Event, k: Key) {
    e.EEnqueue? && e.key == k && Step(c, r, e).1.enqueue == Accepted
  }

  /** The step keeps the slot of `k`: the row neither goes nor is replaced. */
  ghost predicate KeepsSlot(c: Config, r: Relay, e: Event, k: Key) {
    k in r.slots && k in Step(c, r, e).0.slots && !CreatesSlot(c, r, e, k)
  }

  /** The row of a kept slot changes only by a redemption, a revocation or a push that uses its ticket. */
  lemma SlotStep(c: Config, r: Relay, e: Event, k: Key)
    requires KeepsSlot(c, r, e, k)
    ensures var o := r.slots[k];
            Step(c, r, e).0.slots[k] ==
              if RedeemsSlot(c, r, e, k)
              then o.(state := Consumed, ticket := Some(e.ticketHash), bundle := [], sig := [])
              else if RevokesSlot(c, r, e, k) then o.(state := Revoked, ticket := None, bundle := [], sig := [])
              else if PushesInto(c, r, e, k) then o.(ticket := None)
              else o
  {
  }

  /**
   A redemption succeeds exactly for an active, unexpired slot whose capability verifies, and
   returns its blobs; each cause of a refusal has its own condition, in the documented order.
   */
  lemma RedeemCauses(c: Config, r: Relay, e: Event)
    requires e.ERedeem?
    ensures var y, known := Step(c, r, e).1.redeem, e.key in r.slots;
            && (y == NotFound <==> !known)
            && (y == RedeemRevoked <==> known && r.slots[e.key].state == Revoked)
            && (y == RedeemExpired <==> known && r.slots[e.key].state != Revoked && r.slots[e.key].expiry <= e.now)
            && (y == AlreadyUsed <==> known && r.slots[e.key].state == Consumed && e.now < r.slots[e.key].expiry)
            && (y == CapInvalid <==> known && r.slots[e.key].state == Active && e.now < r.slots[e.key].expiry
                                     && !e.verify(r.slots[e.key].capHash))
            && (y.Redeemed? <==> known && r.slots[e.key].state == Active && e.now < r.slots[e.key].expiry
                                 && e.verify(r.slots[e.key].capHash))
            && (y.Redeemed? ==> y == Redeemed(r.slots[e.key].bundle, r.slots[e.key].sig))
    ensures !Step(c, r, e).1.redeem.Redeemed? ==> Step(c, r, e).0 == r
  {
  }

  /** Room for one more message on `k`. */
  ghost predicate Room(c: Config, r: Relay, k: Key) {
    if k in r.queues then |r.queues[k]| < c.maxDepth else |r.queues| < c.maxRoutes
  }

  /** The ticket that opens the slot of `k`, or no slot at all. */
  ghost predicate TicketOpens(r: Relay, e: Event)
    requires e.EEnqueue?
  {
    e.key in r.slots ==>
      var o := r.slots[e.key];
      && o.state != Revoked && e.now < o.expiry
      && o.ticket.Some? && e.ticket.Some? && e.ticket.value(o.ticket.value)
  }

  /**
   Each reply to a push has its own cause, and the causes exclude each other: the slot
   speaks before the queue, the queue before the route cap, and both report true counts.
   */
  lemma PushCauses(c: Config, r: Relay, e: Event)
    requires e.EEnqueue?
    ensures var y, slot, route := Step(c, r, e).1.enqueue, e.key in r.slots, e.key in r.queues;
            && (y == SlotRejected(SlotRevoked) <==> slot && r.slots[e.key].state == Revoked)
            && (y == SlotRejected(SlotExpired) <==>
                slot && r.slots[e.key].state != Revoked && r.slots[e.key].expiry <= e.now)
            && (y == SlotRejected(TicketInvalid) <==>
                slot && r.slots[e.key].state != Revoked && e.now < r.slots[e.key].expiry && !TicketOpens(r, e))
            && (y.Overloaded? <==> TicketOpens(r, e) && route && |r.queues[e.key]| >= c.maxDepth)
            && (y.Overloaded? ==> y.depth == |r.queues[e.key]|)
            && (y.RouteCap? <==> TicketOpens(r, e) && !route && |r.queues| >= c.maxRoutes)
            && (y.RouteCap? ==> y.live == |r.queues|)
            && (y == Accepted <==> TicketOpens(r, e) && Room(c, r, e.key))
  {
  }

  /**
   The exact cause of each reply to a revocation: the token is checked before anything is
   said about the slot, and its expiry does not matter.
   */
  lemma RevokeCauses(c: Config, r: Relay, e: Event)
    requires e.ERevoke?
    ensures var y, known := Step(c, r, e).1.revoke, e.key in r.slots;
            && (y == RevokeNotFound <==> !known)
            && (y == TokenInvalid <==> known && !e.verify(r.slots[e.key].revokeHash))
            && (y == AlreadyRevoked <==>
                known && e.verify(r.slots[e.key].revokeHash) && r.slots[e.key].state == Revoked)
            && (y == RevokedNow <==>
                known && e.verify(r.slots[e.key].revokeHash) && r.slots[e.key].state != Revoked)
    ensures Step(c, r, e).1.revoke != RevokedNow ==> Step(c, r, e).0 == r
  {
  }

  /** The exact cause of each reply to a creation, judged on the swept table; a refusal changes nothing. */
  lemma CreateCauses(c: Config, r: Relay, e: Event)
    requires e.ECreate?
    ensures var y, slots := Step(c, r, e).1.create, Sweep(r, c.ttl, e.now).slots;
            && (y == Duplicate <==> e.key in slots)
            && (y.CapFull? <==> e.key !in slots && |slots| >= c.maxSlots)
            && (y.CapFull? ==> y.live == |slots|)
            && (y == Created <==> e.key !in slots && |slots| < c.maxSlots)
            && (forall k :: k in slots <==> k in r.slots && e.now < r.slots[k].expiry)
    ensures Step(c, r, e).1.create != Created ==> Step(c, r, e).0 == r
  {
  }

  lemma AdmitChanges(r: Relay, k: Key, id: string, body: Bytes, now: int)
    ensures var s := Admit(r, k, id, body, now);
            && Queue(s, k) == Queue(r, k) + [Msg(r.next, id, body, now, None)]
            && s.queues.Keys == r.queues.Keys + {k} && s.next == r.next + 1
            && (forall o | o in r.queues && o != k :: s.queues[o] == r.queues[o])
            && s.slots.Keys == r.slots.Keys
            && (forall o | o in r.slots :: s.slots[o] == if o == k then r.slots[o].(ticket := None) else r.slots[o])
  {
  }

  /**
   A push is all or nothing: it is accepted exactly when the state changes at all, and then
   the only changes are one message at the end of its queue, the ticket, and the counter.
   */
  lemma PushAllOrNothing(c: Config, r: Relay, e: Event)
    requires e.EEnqueue?
    ensures var s := Step(c, r, e).0;
            && (Step(c, r, e).1.enqueue == Accepted <==> s != r)
            && (s != r ==>
                && Queue(s, e.key) == Queue(r, e.key) + [Msg(r.next, e.id, e.body, e.now, None)]
                && s.queues.Keys == r.queues.Keys + {e.key} && s.next == r.next + 1
                && (forall k | k in r.queues && k != e.key :: s.queues[k] == r.queues[k])
                && s.slots.Keys == r.slots.Keys
                && (forall k | k in r.slots ::
                      s.slots[k] == if k == e.key then r.slots[k].(ticket := None) else r.slots[k]))
  {
    AdmitChanges(r, e.key, e.id, e.body, e.now);
    hide Admit, EnqueueReply;
  }

  /** A slot goes only by a committed sweep at or after its expiry; nothing ever evicts it. */
  lemma SlotGoes(c: Config, r: Relay, e: Event, k: Key)
    requires k in r.slots && !KeepsSlot(c, r, e, k)
    ensures SweepCommits(c, r, e) && r.slots[k].expiry <= e.now
  {
  }

  /** 0 waiting to be redeemed, 1 redeemed with a live ticket, 2 ticket used, 3 revoked. */
  function Rank(o: Slot): nat {
    match o.state
    case Active => 0
    case Consumed => if o.ticket.Some? then 1 else 2
    case Revoked => 3
  }

  lemma RankStep(c: Config, r: Relay, e: Event, k: Key)
    requires WellFormed(r) && KeepsSlot(c, r, e, k)
    ensures var before, after := Rank(r.slots[k]), Rank(Step(c, r, e).0.slots[k]);
            && before <= after
            && (RedeemsSlot(c, r, e, k) ==> before == 0 && after == 1)
            && (PushesInto(c, r, e, k) ==> before == 1 && after == 2)
            && (RevokesSlot(c, r, e, k) <==> before < 3 && after == 3)
            && (before == 0 && after > 0 ==> RedeemsSlot(c, r, e, k) || RevokesSlot(c, r, e, k))
            && (before == 1 && after == 2 ==> PushesInto(c, r, e, k))
  {
    SlotStep(c, r, e, k);
    if RedeemsSlot(c, r, e, k) {
      RedeemCauses(c, r, e);
    } else if RevokesSlot(c, r, e, k) {
      RevokeCauses(c, r, e);
    } else if PushesInto(c, r, e, k) {
      PushCauses(c, r, e);
    }
    hide Step;
  }

  /** A live ticket is spent exactly by a push that commits its message or by a revocation. */
  lemma TicketAndMessage(c: Config, r: Relay, e: Event, k: Key)
    requires WellFormed(r) && KeepsSlot(c, r, e, k) && r.slots[k].ticket.Some?
    ensures Step(c, r, e).0.slots[k].ticket != r.slots[k].ticket <==>
            PushesInto(c, r, e, k) || RevokesSlot(c, r, e, k)
    ensures PushesInto(c, r, e, k) ==>
              && Queue(Step(c, r, e).0, k) == Queue(r, k) + [Msg(r.next, e.id, e.body, e.now, None)]
              && Step(c, r, e).0.slots[k].ticket == None
  {
    hide Step;
    SlotStep(c, r, e, k);
    RankStep(c, r, e, k);
    if PushesInto(c, r, e, k) {
      PushAllOrNothing(c, r, e);
    }
  }

  // ----------------------------------------------------------------- one slot's life

  /** The slot of `k` present before operation `i` is still the one present before operation `j`. */
  ghost predicate SameSlot(c: Config, es: seq<Event>, k: Key, i: nat, j: nat) {
    && i <= j <= |es|
    && k in Before(c, es, i).slots
    && forall n | i <= n < j :: KeepsSlot(c, Before(c, es, n), es[n], k)
  }

  ghost predicate RedeemsAt(c: Config, es: seq<Event>, k: Key, n: nat)
    requires n < |es|
  {
    RedeemsSlot(c, Before(c, es, n), es[n], k)
  }

  ghost predicate PushesAt(c: Config, es: seq<Event>, k: Key, n: nat)
    requires n < |es|
  {
    PushesInto(c, Before(c, es, n), es[n], k)
  }

  ghost predicate RevokesAt(c: Config, es: seq<Event>, k: Key, n: nat)
    requires n < |es|
  {
    RevokesSlot(c, Before(c, es, n), es[n], k)
  }

  /**
   Lifecycle: what identifies a slot never changes, and its state only moves forward:
   active, redeemed, ticket used, revoked.
   */
  lemma {:induction false} SlotLife(c: Config, es: seq<Event>, k: Key, i: nat, j: nat)
    requires AllAdmissible(c, es) && SameSlot(c, es, k, i, j)
    ensures k in Before(c, es, j).slots
    ensures var o, o' := Before(c, es, i).slots[k], Before(c, es, j).slots[k];
            && o'.expiry == o.expiry && o'.capHash == o.capHash && o'.revokeHash == o.revokeHash
            && Rank(o) <= Rank(o') && SlotOk(o) && SlotOk(o')
    decreases j
  {
    hide Step, After;
    RunWellFormed(c, es, j);
    RunWellFormed(c, es, i);
    if i < j {
      SlotLife(c, es, k, i, j - 1);
      RunWellFormed(c, es, j - 1);
      Advance(c, es, j - 1);
      SlotStep(c, Before(c, es, j - 1), es[j - 1], k);
      RankStep(c, Before(c, es, j - 1), es[j - 1], k);
    }
  }

  /** At most one redemption of a slot succeeds, and at most one push is accepted into it. */
  lemma AtMostOnce(c: Config, es: seq<Event>, k: Key, i: nat, j: nat, p: nat, q: nat)
    requires AllAdmissible(c, es) && SameSlot(c, es, k, i, j) && i <= p < q < j
    ensures !(RedeemsAt(c, es, k, p) && RedeemsAt(c, es, k, q))
    ensures !(PushesAt(c, es, k, p) && PushesAt(c, es, k, q))
    ensures !(RevokesAt(c, es, k, p) && (RedeemsAt(c, es, k, q) || PushesAt(c, es, k, q)))
  {
    hide Step, After, WellFormed, Rank;
    RunWellFormed(c, es, p);
    RunWellFormed(c, es, q);
    Advance(c, es, p);
    RankStep(c, Before(c, es, p), es[p], k);
    RankStep(c, Before(c, es, q), es[q], k);
    SlotLife(c, es, k, p + 1, q);
  }

  /** A live ticket is the one that a redemption of this very slot stored. */
  lemma {:induction false} TicketComesFromRedeem(c: Config, es: seq<Event>, k: Key, i: nat, j: nat) returns (p: nat)
    requires AllAdmissible(c, es) && SameSlot(c, es, k, i, j)
    requires Before(c, es, i).slots[k].state == Active
    requires k in Before(c, es, j).slots && Before(c, es, j).slots[k].ticket.Some?
    ensures i <= p < j && RedeemsAt(c, es, k, p)
    ensures Before(c, es, j).slots[k].ticket == Some(es[p].ticketHash)
    decreases j
  {
    hide Step, After;
    RunWellFormed(c, es, i);
    var r, e := Before(c, es, j - 1), es[j - 1];
    Advance(c, es, j - 1);
    SlotLife(c, es, k, i, j - 1);
    SlotStep(c, r, e, k);
    if RedeemsAt(c, es, k, j - 1) {
      p := j - 1;
    } else {
      p := TicketComesFromRedeem(c, es, k, i, j - 1);
    }
  }

  /**
   Single use: a push accepted into a slot comes after the slot's one redemption and
   was checked against the ticket hash which that redemption stored.
   */
  lemma PushNeedsRedeem(c: Config, es: seq<Event>, k: Key, i: nat, j: nat, q: nat) returns (p: nat)
    requires AllAdmissible(c, es) && SameSlot(c, es, k, i, j) && i <= q < j
    requires Before(c, es, i).slots[k].state == Active
    requires PushesAt(c, es, k, q)
    ensures i <= p < q && RedeemsAt(c, es, k, p)
    ensures es[q].ticket.Some? && es[q].ticket.value(es[p].ticketHash)
    ensures forall p' | i <= p' < j && RedeemsAt(c, es, k, p') :: p' == p
  {
    hide Step, After;
    assert SameSlot(c, es, k, i, q);
    PushCauses(c, Before(c, es, q), es[q]);
    p := TicketComesFromRedeem(c, es, k, i, q);
    forall p' | i <= p' < j && RedeemsAt(c, es, k, p') ensures p' == p {
      if p' < p {
        AtMostOnce(c, es, k, i, j, p', p);
      } else if p < p' {
        AtMostOnce(c, es, k, i, j, p, p');
      }
    }
  }

  /** A fresh slot is active, with the published blobs and no ticket. */
  lemma CreatedIsActive(c: Config, es: seq<Event>, k: Key, i: nat)
    requires i < |es| && CreatesSlot(c, Before(c, es, i), es[i], k)
    ensures k in Before(c, es, i + 1).slots
    ensures var e := es[i];
            Before(c, es, i + 1).slots[k] == Slot(Active, e.expiry, e.capHash, e.revokeHash, e.bundle, e.sig, None)
    ensures k !in Sweep(Before(c, es, i), c.ttl, es[i].now).slots
  {
    Advance(c, es, i);
  }

  // ------------------------------------------------------------------- tombstones

  /** No committed sweep from `i` up to `j` has a clock at or past `expiry`. */
  ghost predicate NotYetExpired(c: Config, es: seq<Event>, i: nat, j: nat, expiry: int) {
    i <= j <= |es| && forall n | i <= n < j && SweepCommits(c, Before(c, es, n), es[n]) :: es[n].now < expiry
  }

  lemma {:induction false} SlotStays(c: Config, es: seq<Event>, k: Key, i: nat, j: nat)
    requires AllAdmissible(c, es) && i <= j <= |es| && k in Before(c, es, i).slots
    requires NotYetExpired(c, es, i, j, Before(c, es, i).slots[k].expiry)
    ensures SameSlot(c, es, k, i, j)
    decreases j
  {
    hide Step, After;
    if i < j {
      SlotStays(c, es, k, i, j - 1);
      SlotLife(c, es, k, i, j - 1);
      if !KeepsSlot(c, Before(c, es, j - 1), es[j - 1], k) {
        SlotGoes(c, Before(c, es, j - 1), es[j - 1], k);
      }
    }
  }

  lemma RevokedStep(c: Config, es: seq<Event>, k: Key, i: nat, j: nat)
    requires i < j <= |es|
    requires var was := exists n :: i <= n < j - 1 && RevokesAt(c, es, k, n);
             var slots, slots' := Before(c, es, j - 1).slots, Before(c, es, j).slots;
             && k in slots && k in slots'
             && (slots[k].state == Revoked <==> was)
             && Rank(slots[k]) <= Rank(slots'[k])
             && (RevokesAt(c, es, k, j - 1) <==> slots[k].state != Revoked && slots'[k].state == Revoked)
    ensures Before(c, es, j).slots[k].state == Revoked <==> exists n :: i <= n < j && RevokesAt(c, es, k, n)
  {
    hide RevokesAt, Before;
    if exists n :: i <= n < j && RevokesAt(c, es, k, n) {
      var n :| i <= n < j && RevokesAt(c, es, k, n);
      assert n == j - 1 || n < j - 1;
    }
  }

  /** Revoked exactly when some operation of the slot's life revoked it. */
  lemma {:induction false} RevokedIff(c: Config, es: seq<Event>, k: Key, i: nat, j: nat)
    requires AllAdmissible(c, es) && SameSlot(c, es, k, i, j) && Before(c, es, i).slots[k].state != Revoked
    ensures k in Before(c, es, j).slots
    ensures Before(c, es, j).slots[k].state == Revoked <==> exists n :: i <= n < j && RevokesAt(c, es, k, n)
    decreases j
  {
    hide Step, After, WellFormed, SweepCommits;
    SlotLife(c, es, k, i, j);
    if i < j {
      RevokedIff(c, es, k, i, j - 1);
      SlotLife(c, es, k, i, j - 1);
      RunWellFormed(c, es, j - 1);
      Advance(c, es, j - 1);
      RankStep(c, Before(c, es, j - 1), es[j - 1], k);
      RevokedStep(c, es, k, i, j);
    }
  }

  lemma RedeemedRow(c: Config, es: seq<Event>, k: Key, i: nat)
    requires i < |es| && RedeemsAt(c, es, k, i)
    ensures k in Before(c, es, i).slots && k in Before(c, es, i + 1).slots
    ensures Before(c, es, i + 1).slots[k].state == Consumed
    ensures Before(c, es, i + 1).slots[k].expiry == Before(c, es, i).slots[k].expiry
  {
    Advance(c, es, i);
  }

  /**
   Tombstones: after a redemption, until the slot's expiry is swept, another redeem
   attempt learns that the invite was used (or revoked since), never that it is unknown.
   */
  lemma SecondRedeem(c: Config, es: seq<Event>, k: Key, i: nat, j: nat)
    requires AllAdmissible(c, es) && i < j < |es| && RedeemsAt(c, es, k, i)
    requires k in Before(c, es, i).slots
    requires NotYetExpired(c, es, i + 1, j, Before(c, es, i).slots[k].expiry)
    requires es[j].ERedeem? && es[j].key == k && es[j].now < Before(c, es, i).slots[k].expiry
    ensures ReplyAt(c, es, j).redeem ==
            if exists n :: i + 1 <= n < j && RevokesAt(c, es, k, n) then RedeemRevoked else AlreadyUsed
  {
    hide After, SweepCommits, WellFormed;
    RedeemedRow(c, es, k, i);
    SlotStays(c, es, k, i + 1, j);
    SlotLife(c, es, k, i + 1, j);
    RevokedIff(c, es, k, i + 1, j);
    hide Step;
    RedeemCauses(c, Before(c, es, j), es[j]);
  }

  // ------------------------------------------------------- a refused push costs nothing

  lemma RefusedGate(c: Config, r: Relay, e: Event)
    requires e.EEnqueue? && e.key in r.slots
    requires Step(c, r, e).1.enqueue.Overloaded? || Step(c, r, e).1.enqueue.RouteCap?
    ensures Step(c, r, e).0 == r
    ensures var o := r.slots[e.key];
            o.state != Revoked && o.ticket.Some? && e.ticket.Some? && e.ticket.value(o.ticket.value)
  {
    PushCauses(c, r, e);
    PushAllOrNothing(c, r, e);
    hide Step;
  }

  lemma {:induction false} TicketStays(c: Config, es: seq<Event>, k: Key, i: nat, j: nat)
    requires AllAdmissible(c, es) && SameSlot(c, es, k, i, j)
    requires Before(c, es, i).slots[k].ticket.Some?
    requires forall n | i <= n < j :: !PushesAt(c, es, k, n) && !RevokesAt(c, es, k, n)
    ensures k in Before(c, es, j).slots && Before(c, es, j).slots[k] == Before(c, es, i).slots[k]
    decreases j
  {
    hide Step, After, WellFormed;
    if i < j {
      TicketStays(c, es, k, i, j - 1);
      SlotLife(c, es, k, i, j - 1);
      RunWellFormed(c, es, j - 1);
      Advance(c, es, j - 1);
      assert !PushesAt(c, es, k, j - 1) && !RevokesAt(c, es, k, j - 1);
      SlotStep(c, Before(c, es, j - 1), es[j - 1], k);
      RankStep(c, Before(c, es, j - 1), es[j - 1], k);
    }
  }

  /**
   A push refused for depth or for the route cap changes nothing, although the ticket is
   burnt before the check; while the slot keeps its ticket, the same ticket is admitted
   as soon as there is room.
   */
  lemma RefusedPushRetries(c: Config, es: seq<Event>, k: Key, i: nat, j: nat)
    requires AllAdmissible(c, es) && SameSlot(c, es, k, i, j) && i < j < |es|
    requires es[i].EEnqueue? && es[i].key == k
    requires ReplyAt(c, es, i).enqueue.Overloaded? || ReplyAt(c, es, i).enqueue.RouteCap?
    requires forall n | i < n < j :: !PushesAt(c, es, k, n) && !RevokesAt(c, es, k, n)
    requires es[j].EEnqueue? && es[j].key == k && es[j].ticket == es[i].ticket
    requires Room(c, Before(c, es, j), k) && es[j].now < Before(c, es, i).slots[k].expiry
    ensures Before(c, es, i + 1) == Before(c, es, i)
    ensures ReplyAt(c, es, j).enqueue == Accepted
  {
    hide Step, After, WellFormed, Room;
    Advance(c, es, i);
    RefusedGate(c, Before(c, es, i), es[i]);
    TicketStays(c, es, k, i + 1, j);
    PushCauses(c, Before(c, es, j), es[j]);
  }

  // ------------------------------------------------- an expired slot stops being one

  /** The two store calls of one push, with no other operation between them. */
  ghost function PushReply(c: Config, r: Relay, k: Key, now: int, ticket: Option<Hash -> bool>): EnqueueOutcome {
    EnqueueReply(Sweep(r, c.ttl, now), k, now, c.maxDepth, c.maxRoutes, ticket)
  }

  /**
   The contract says that a push into an expired slot is refused as expired. With nothing
   between its two calls it never is: the status call of the same push has already swept
   the row, with the same clock. So a slot refuses a push without a ticket exactly while its expiry is in the future,
   and afterwards the push is an ordinary one.
   */
  lemma ExpiredSlotIsOrdinary(c: Config, r: Relay, k: Key, now: int, ticket: Option<Hash -> bool>)
    requires k in r.slots
    ensures PushReply(c, r, k, now, None).SlotRejected? <==> r.slots[k].expiry > now
    ensures PushReply(c, r, k, now, ticket) != SlotRejected(SlotExpired)
    ensures r.slots[k].expiry <= now ==>
              PushReply(c, r, k, now, ticket) == PushReply(c, r.(slots := map[]), k, now, None)
  {
    var s, bare := Sweep(r, c.ttl, now), Sweep(r.(slots := map[]), c.ttl, now);
    assert s.queues == bare.queues;
  }

  /** A concrete expired slot that takes a push from a sender without any ticket. */
  lemma ExpiredSlotTakesAnyPush(c: Config)
    requires c.maxRoutes >= 1
    ensures var o := Slot(Active, 10, "cap", "revoke", [1], [2], None);
            PushReply(c, Relay(map[], map["invite" := o], 1), "invite", 10, None) == Accepted
  {
    var r := Relay(map[], map["invite" := Slot(Active, 10, "cap", "revoke", [1], [2], None)], 1);
    assert |Sweep(r, c.ttl, 10).queues.Keys| == 0;
  }

  /** The slot of `k` was created at `p` with an expiry that `j` has reached, and it is still there, unrevoked. */
  ghost predicate StaleSlot(c: Config, es: seq<Event>, k: Key, p: nat, j: nat)
    requires p < j < |es|
  {
    && CreatesSlot(c, Before(c, es, p), es[p], k) && es[p].expiry <= es[j].now
    && SameSlot(c, es, k, p + 1, j)
    && forall n | p < n < j :: !RevokesAt(c, es, k, n)
  }

  /** A status call leaves no slot that is due at its clock. */
  lemma StatusClears(c: Config, r: Relay, e: Event, k: Key)
    requires e.EStatus? && k in Step(c, r, e).0.slots
    ensures Step(c, r, e).0.slots[k].expiry > e.now
  {
  }

  lemma {:induction false} StaleSlotCreated(c: Config, es: seq<Event>, k: Key, i: nat, j: nat, now: int)
    returns (p: nat)
    requires AllAdmissible(c, es) && i < j <= |es| && es[i].EStatus? && es[i].now == now
    requires k in Before(c, es, j).slots && Before(c, es, j).slots[k].expiry <= now
    ensures i < p < j && CreatesSlot(c, Before(c, es, p), es[p], k) && SameSlot(c, es, k, p + 1, j)
    decreases j
  {
    hide After, Step;
    var r, e := Before(c, es, j - 1), es[j - 1];
    Advance(c, es, j - 1);
    if j == i + 1 {
      StatusClears(c, r, e, k);
      assert false;
    } else if CreatesSlot(c, r, e, k) {
      p := j - 1;
    } else {
      if k !in r.slots {
        StepAddsSlot(c, r, e, k);
      }
      SlotStep(c, r, e, k);
      p := StaleSlotCreated(c, es, k, i, j - 1, now);
    }
  }

  /**
   With other operations between the two calls of a push, the push is refused as expired
   exactly when the slot was created in between, with an expiry that the pusher's clock
   has reached: by a creator whose clock is behind the pusher's.
   */
  lemma ExpiredReplyNeedsSkew(c: Config, es: seq<Event>, k: Key, i: nat, j: nat)
    requires AllAdmissible(c, es) && i < j < |es|
    requires es[i].EStatus? && es[j].EEnqueue? && es[j].key == k && es[j].now == es[i].now
    ensures ReplyAt(c, es, j).enqueue == SlotRejected(SlotExpired) <==>
            exists p :: i < p < j && StaleSlot(c, es, k, p, j)
    ensures forall p | i < p < j && StaleSlot(c, es, k, p, j) :: es[p].now < es[j].now
  {
    hide Step, After, WellFormed;
    var r := Before(c, es, j);
    PushCauses(c, r, es[j]);
    if ReplyAt(c, es, j).enqueue == SlotRejected(SlotExpired) {
      var p := StaleSlotCreated(c, es, k, i, j, es[j].now);
      CreatedIsActive(c, es, k, p);
      SlotLife(c, es, k, p + 1, j);
      RevokedIff(c, es, k, p + 1, j);
      assert StaleSlot(c, es, k, p, j);
    }
    forall p | i < p < j && StaleSlot(c, es, k, p, j)
      ensures ReplyAt(c, es, j).enqueue == SlotRejected(SlotExpired) && es[p].now < es[j].now
    {
      CreatedIsActive(c, es, k, p);
      SlotLife(c, es, k, p + 1, j);
      RevokedIff(c, es, k, p + 1, j);
      assert Admissible(c, es[p]);
    }
  }
}

/**
 The relay as a simple machine: one FIFO queue per live route, one table of
 invite slots, and the counter that numbers messages. Every store operation is
 one atomic step of this machine. Module `DurableStore` proves that the flat
 tables of the source behave exactly like it.
 */
module RelaySpec {
  import opened Base

  type Key = string
  type Hash = string

  /** A stored message. `num` is the row number SQLite assigned to it. */
  datatype Msg = Msg(num: nat, id: string, body: Bytes, at: int, lease: Option<int>)

  datatype SlotState = Active | Consumed | Revoked

  datatype Slot = Slot(
    state: SlotState,
    expiry: int,
    capHash: Hash,
    revokeHash: Hash,
    bundle: Bytes,
    sig: Bytes,
    ticket: Option<Hash>)

  datatype Relay = Relay(queues: map<Key, seq<Msg>>, slots: map<Key, Slot>, next: nat)

  /** Retention and lease seconds of the store, and the limits the handlers pass to it. */
  datatype Config = Config(
    ttl: nat,
    lease: nat,
    maxBody: nat,
    maxDepth: nat,
    maxRoutes: nat,
    maxSlots: nat)

  const EMPTY := Relay(map[], map[], 1)

  // ---------------------------------------------------------------- row edits

  /** What one UPDATE or DELETE statement does to the message rows it selects. */
  datatype Change =
    | DropExpired(cutoff: int)
    | DropNums(nums: set<nat>)
    | LeaseNums(nums: set<nat>, until: int)
    | DropAcked(ids: seq<string>)

  function Apply(ch: Change, m: Msg): Option<Msg> {
    match ch
    case DropExpired(cutoff) => if m.at <= cutoff then None else Some(m)
    case DropNums(nums) => if m.num in nums then None else Some(m)
    case LeaseNums(nums, until) => if m.num in nums then Some(m.(lease := Some(until))) else Some(m)
    case DropAcked(ids) => if m.lease.Some? && m.id in ids then None else Some(m)
  }

  function Edit(q: seq<Msg>, ch: Change): seq<Msg> {
    if q == [] then []
    else
      var rest := Edit(q[1..], ch);
      match Apply(ch, q[0])
      case None => rest
      case Some(m) => [m] + rest
  }

  // ------------------------------------------------------------------ queues

  function Queue(r: Relay, k: Key): seq<Msg> {
    if k in r.queues then r.queues[k] else []
  }

  /** A route exists exactly while its queue is nonempty. */
  function Put(queues: map<Key, seq<Msg>>, k: Key, q: seq<Msg>): map<Key, seq<Msg>> {
    if q == [] then queues - {k} else queues[k := q]
  }

  function Nums(q: seq<Msg>): set<nat> {
    set m | m in q :: m.num
  }

  function IdsOf(q: seq<Msg>): seq<string> {
    seq(|q|, i requires 0 <= i < |q| => q[i].id)
  }

  // ------------------------------------------------------- retention and status

  function Sweep(r: Relay, ttl: int, now: int): Relay {
    var cut := DropExpired(now - ttl);
    r.(
      queues := map k | k in r.queues && Edit(r.queues[k], cut) != [] :: Edit(r.queues[k], cut),
      slots := map k | k in r.slots && r.slots[k].expiry > now :: r.slots[k])
  }

  datatype RouteStatus = RouteStatus(routeExists: bool, depth: nat, liveRoutes: nat)

  function StatusOf(r: Relay, k: Key): RouteStatus {
    RouteStatus(k in r.queues, |Queue(r, k)|, |r.queues|)
  }

  // --------------------------------------------------------------------- push

  datatype SlotReject = SlotExpired | SlotRevoked | TicketInvalid

  datatype EnqueueOutcome =
    | Accepted
    | Overloaded(depth: nat)
    | RouteCap(live: nat)
    | SlotRejected(reason: SlotReject)

  /** Why the slot table refuses a push to `k`, if it does. */
  function SlotGate(r: Relay, k: Key, now: int, ticket: Option<Hash -> bool>): Option<SlotReject> {
    if k !in r.slots then None
    else
      var o := r.slots[k];
      if o.state == Revoked then Some(SlotRevoked)
      else if o.expiry <= now then Some(SlotExpired)
      else if o.ticket.Some? && ticket.Some? && ticket.value(o.ticket.value) then None
      else Some(TicketInvalid)
  }

  function EnqueueReply(r: Relay, k: Key, now: int, maxDepth: nat, maxRoutes: nat,
                        ticket: Option<Hash -> bool>): EnqueueOutcome
  {
    var gate := SlotGate(r, k, now, ticket);
    if gate.Some? then SlotRejected(gate.value)
    else if k in r.queues then
      if |r.queues[k]| >= maxDepth then Overloaded(|r.queues[k]|) else Accepted
    else
      if |r.queues| >= maxRoutes then RouteCap(|r.queues|) else Accepted
  }

  function Admit(r: Relay, k: Key, id: string, body: Bytes, now: int): Relay {
    Relay(
      r.queues[k := Queue(r, k) + [Msg(r.next, id, body, now, None)]],
      if k in r.slots then r.slots[k := r.slots[k].(ticket := None)] else r.slots,
      r.next + 1)
  }

  function Enqueue(r: Relay, k: Key, id: string, body: Bytes, now: int, maxDepth: nat, maxRoutes: nat,
                   ticket: Option<Hash -> bool>): (Relay, EnqueueOutcome)
  {
    var y := EnqueueReply(r, k, now, maxDepth, maxRoutes, ticket);
    (if y == Accepted then Admit(r, k, id, body, now) else r, y)
  }

  // --------------------------------------------------------------------- pull

  datatype PullMode = Legacy | Lease

  function SizeOf(q: seq<Msg>): nat {
    if q == [] then 0 else SizeOf(q[..|q| - 1]) + |q[|q| - 1].body|
  }

  /** A batch fits when it is a single message or its bytes stay within the budget. */
  predicate Fits(batch: seq<Msg>, budget: nat) {
    |batch| <= 1 || Min(SizeOf(batch), USIZE_MAX) <= budget
  }

  /** The longest prefix of at most `n` messages that fits, searched from above. */
  function LongestFit(v: seq<Msg>, n: nat, budget: nat): (len: nat)
    requires n <= |v|
    ensures len <= n && Fits(v[..len], budget)
    ensures forall k :: len < k <= n ==> !Fits(v[..k], budget)
  {
    if Fits(v[..n], budget) then n else LongestFit(v, n - 1, budget)
  }

  predicate Awake(m: Msg, now: int) {
    m.lease.None? || m.lease.value <= now
  }

  function Visible(q: seq<Msg>, now: int): seq<Msg> {
    if q == [] then []
    else (if Awake(q[0], now) then [q[0]] else []) + Visible(q[1..], now)
  }

  function Batch(q: seq<Msg>, max: nat, budget: nat, now: int): seq<Msg> {
    var v := Visible(q, now);
    v[..LongestFit(v, Min(max, |v|), budget)]
  }

  function PullChange(out: seq<Msg>, mode: PullMode, until: int): Change {
    if mode == Legacy then DropNums(Nums(out)) else LeaseNums(Nums(out), until)
  }

  datatype PullOutcome = PullOutcome(items: seq<Msg>, drained: bool)

  function Pull(r: Relay, ttl: int, lease: int, k: Key, max: nat, budget: nat, now: int, mode: PullMode)
    : (Relay, PullOutcome)
  {
    var s := Sweep(r, ttl, now);
    var q := Queue(s, k);
    var out := Batch(q, max, budget, now);
    var rest := Edit(q, PullChange(out, mode, now + lease));
    (s.(queues := Put(s.queues, k, rest)), PullOutcome(out, q != [] && rest == []))
  }

  // ---------------------------------------------------------------------- ack

  datatype AckOutcome = AckOutcome(acked: nat, drained: bool)

  /** How many messages a change removes. */
  function Dropped(q: seq<Msg>, ch: Change): nat {
    if q == [] then 0 else (if Apply(ch, q[0]).None? then 1 else 0) + Dropped(q[1..], ch)
  }

  function Ack(r: Relay, ttl: int, k: Key, ids: seq<string>, now: int): (Relay, AckOutcome) {
    var s := Sweep(r, ttl, now);
    var q := Queue(s, k);
    var rest := Edit(q, DropAcked(ids));
    (s.(queues := Put(s.queues, k, rest)), AckOutcome(Dropped(q, DropAcked(ids)), q != [] && rest == []))
  }

  // ------------------------------------------------------------- invite slots

  datatype CreateOutcome = Created | Duplicate | CapFull(live: nat)

  function Create(r: Relay, ttl: int, k: Key, capHash: Hash, revokeHash: Hash, bundle: Bytes, sig: Bytes,
                  expiry: int, now: int, maxSlots: nat): (Relay, CreateOutcome)
  {
    var s := Sweep(r, ttl, now);
    if k in s.slots then (r, Duplicate)
    else if |s.slots| >= maxSlots then (r, CapFull(|s.slots|))
    else (s.(slots := s.slots[k := Slot(Active, expiry, capHash, revokeHash, bundle, sig, None)]), Created)
  }

  datatype RedeemOutcome =
    | Redeemed(bundle: Bytes, sig: Bytes)
    | NotFound
    | RedeemRevoked
    | RedeemExpired
    | AlreadyUsed
    | CapInvalid

  function Redeem(r: Relay, k: Key, now: int, ticketHash: Hash, verify: Hash -> bool): (Relay, RedeemOutcome) {
    if k !in r.slots then (r, NotFound)
    else
      var o := r.slots[k];
      if o.state == Revoked then (r, RedeemRevoked)
      else if o.expiry <= now then (r, RedeemExpired)
      else if o.state == Consumed then (r, AlreadyUsed)
      else if !verify(o.capHash) then (r, CapInvalid)
      else
        (r.(slots := r.slots[k := o.(state := Consumed, ticket := Some(ticketHash), bundle := [], sig := [])]),
         Redeemed(o.bundle, o.sig))
  }

  datatype RevokeOutcome = RevokedNow | AlreadyRevoked | RevokeNotFound | TokenInvalid

  function Revoke(r: Relay, k: Key, verify: Hash -> bool): (Relay, RevokeOutcome) {
    if k !in r.slots then (r, RevokeNotFound)
    else
      var o := r.slots[k];
      if !verify(o.revokeHash) then (r, TokenInvalid)
      else if o.state == Revoked then (r, AlreadyRevoked)
      else (r.(slots := r.slots[k := o.(state := Revoked, ticket := None, bundle := [], sig := [])]), RevokedNow)
  }

  // ------------------------------------------------------------------- events

  /** One store operation with its arguments. `now` is whatever the caller read. */
  datatype Event =
    | ESweep(now: int)
    | EStatus(key: Key, now: int)
    | EEnqueue(key: Key, id: string, body: Bytes, now: int, ticket: Option<Hash -> bool>)
    | EPull(key: Key, max: nat, budget: nat, now: int, mode: PullMode)
    | EAck(key: Key, ids: seq<string>, now: int)
    | ECreate(key: Key, capHash: Hash, revokeHash: Hash, bundle: Bytes, sig: Bytes, expiry: int, now: int)
    | ERedeem(key: Key, now: int, ticketHash: Hash, verify: Hash -> bool)
    | ERevoke(key: Key, now: int, verify: Hash -> bool)

  datatype Reply =
    | YSwept
    | YStatus(status: RouteStatus)
    | YEnqueue(enqueue: EnqueueOutcome)
    | YPull(pull: PullOutcome)
    | YAck(ack: AckOutcome)
    | YCreate(create: CreateOutcome)
    | YRedeem(redeem: RedeemOutcome)
    | YRevoke(revoke: RevokeOutcome)

  function Step(c: Config, r: Relay, e: Event): (s: (Relay, Reply))
    ensures e.EStatus? ==> s.1.YStatus?
    ensures e.EEnqueue? ==> s.1.YEnqueue?
    ensures e.EPull? ==> s.1.YPull?
    ensures e.EAck? ==> s.1.YAck?
    ensures e.ECreate? ==> s.1.YCreate?
    ensures e.ERedeem? ==> s.1.YRedeem?
    ensures e.ERevoke? ==> s.1.YRevoke?
  {
    match e
    case ESweep(now) => (Sweep(r, c.ttl, now), YSwept)
    case EStatus(k, now) =>
      var s := Sweep(r, c.ttl, now);
      (s, YStatus(StatusOf(s, k)))
    case EEnqueue(k, id, body, now, ticket) =>
      var (s, y) := Enqueue(r, k, id, body, now, c.maxDepth, c.maxRoutes, ticket);
      (s, YEnqueue(y))
    case EPull(k, max, budget, now, mode) =>
      var (s, y) := Pull(r, c.ttl, c.lease, k, max, budget, now, mode);
      (s, YPull(y))
    case EAck(k, ids, now) =>
      var (s, y) := Ack(r, c.ttl, k, ids, now);
      (s, YAck(y))
    case ECreate(k, capHash, revokeHash, bundle, sig, expiry, now) =>
      var (s, y) := Create(r, c.ttl, k, capHash, revokeHash, bundle, sig, expiry, now, c.maxSlots);
      (s, YCreate(y))
    case ERedeem(k, now, ticketHash, verify) =>
      var (s, y) := Redeem(r, k, now, ticketHash, verify);
      (s, YRedeem(y))
    case ERevoke(k, now, verify) =>
      var (s, y) := Revoke(r, k, verify);
      (s, YRevoke(y))
  }
}

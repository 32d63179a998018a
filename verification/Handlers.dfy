/**
 The request handlers, each alone. A push is a status call that only advises, a
 rate token, and the enqueue that decides. Pull, ack and invite creation are one
 store operation behind their guards. `Interleaving` puts anything in between.
 */
module Handlers {
  import opened Base
  import opened RelaySpec
  import opened Limits
  import B = RateBucket
  import Codec
  import D = DurableStore
  import Slots

  const MAX_ACK_IDS: nat := 4096

  /** The shared state of the handlers: the store and the rate buckets. */
  datatype Core = Core(relay: Relay, rates: map<Key, B.Level>, createRate: B.Level)

  // --------------------------------------------------------------- steps of a push

  datatype Push = Push(key: Key, id: string, body: Bytes, now: int, ticket: Option<Hash -> bool>)

  datatype PushAnswer =
    | PushOk(id: string)
    | EmptyBody
    | BodyTooLarge
    | QueueFull
    | RoutesFull
    | RateLimited
    | SlotRefused(reason: SlotReject)

  /** The checks before the store is touched. */
  function PushGuard(c: Config, p: Push): Option<PushAnswer> {
    if p.body == [] then Some(EmptyBody)
    else if |p.body| > c.maxBody then Some(BodyTooLarge)
    else None
  }

  /** The routes that a sweep removed. */
  function Gone(before: Relay, after: Relay): set<Key> {
    before.queues.Keys - after.queues.Keys
  }

  /** Buckets of routes that a sweep removed are dropped. */
  function Pruned(rates: map<Key, B.Level>, before: Relay, after: Relay): map<Key, B.Level> {
    rates - Gone(before, after)
  }

  /** The early refusal: the route looks full, or there is no room for a new one. */
  function StatusAnswer(c: Config, s: RouteStatus): Option<PushAnswer> {
    if s.routeExists && s.depth >= c.maxDepth then Some(QueueFull)
    else if !s.routeExists && s.liveRoutes >= c.maxRoutes then Some(RoutesFull)
    else None
  }

  /** Step one: sweep, and refuse early. */
  function StatusPart(c: Config, a: Core, key: Key, now: int): (Core, Option<PushAnswer>) {
    var r := Sweep(a.relay, c.ttl, now);
    (a.(relay := r, rates := Pruned(a.rates, a.relay, r)), StatusAnswer(c, StatusOf(r, key)))
  }

  /** The bucket a push to `key` draws from at `mono`: a fresh one if the route has none. */
  function BucketOf(ctl: B.Controls, rates: map<Key, B.Level>, key: Key, mono: int): B.Level {
    if key in rates then rates[key] else B.Fresh(ctl, mono)
  }

  /** Step two: one token from the bucket of the route. */
  function RatePart(ctl: B.Controls, a: Core, key: Key, mono: int): (Core, Option<PushAnswer>) {
    var (next, ok) := B.Consumed(ctl, BucketOf(ctl, a.rates, key, mono), mono);
    (a.(rates := a.rates[key := next]), if ok then None else Some(RateLimited))
  }

  function CommitAnswer(p: Push, y: EnqueueOutcome): PushAnswer {
    match y
    case Accepted => PushOk(p.id)
    case Overloaded(_) => QueueFull
    case RouteCap(_) => RoutesFull
    case SlotRejected(reason) => SlotRefused(reason)
  }

  /** Step three: the transaction that checks everything again and stores the message. */
  function CommitPart(c: Config, a: Core, p: Push): (Core, PushAnswer) {
    var (r, y) := Enqueue(a.relay, p.key, p.id, p.body, p.now, c.maxDepth, c.maxRoutes, p.ticket);
    (a.(relay := r, rates := if y.RouteCap? then a.rates - {p.key} else a.rates), CommitAnswer(p, y))
  }

  /** A push with nothing between its steps. */
  function PushPart(s: Settings, a: Core, p: Push, mono: int): (Core, PushAnswer) {
    var refused := PushGuard(s.config, p);
    if refused.Some? then (a, refused.value)
    else
      var (b, full) := StatusPart(s.config, a, p.key, p.now);
      if full.Some? then (b, full.value)
      else
        var (d, limited) := RatePart(s.push, b, p.key, mono);
        if limited.Some? then (d, limited.value) else CommitPart(s.config, d, p)
  }

  /**
   What the transaction of a push answers, whatever came between it and the first checks:
   each answer has its own cause, and only a refusal for the route cap releases the bucket.
   */
  lemma CommitAnswers(c: Config, a: Core, p: Push)
    ensures var (b, y) := CommitPart(c, a, p);
            var opens := Slots.TicketOpens(a.relay, EEnqueue(p.key, p.id, p.body, p.now, p.ticket));
            var slot, route := p.key in a.relay.slots, p.key in a.relay.queues;
            && (y.PushOk? <==> opens && Slots.Room(c, a.relay, p.key)) && (y.PushOk? ==> y.id == p.id)
            && (y == QueueFull <==> opens && route && |a.relay.queues[p.key]| >= c.maxDepth)
            && (y == RoutesFull <==> opens && !route && |a.relay.queues| >= c.maxRoutes)
            && (y == SlotRefused(SlotRevoked) <==> slot && a.relay.slots[p.key].state == Revoked)
            && (y == SlotRefused(SlotExpired) <==>
                slot && a.relay.slots[p.key].state != Revoked && a.relay.slots[p.key].expiry <= p.now)
            && (y == SlotRefused(TicketInvalid) <==>
                && slot && a.relay.slots[p.key].state != Revoked && p.now < a.relay.slots[p.key].expiry && !opens)
            && b.relay == (if y.PushOk? then Admit(a.relay, p.key, p.id, p.body, p.now) else a.relay)
            && b.rates == (if y == RoutesFull then a.rates - {p.key} else a.rates) && b.createRate == a.createRate
  {
    Slots.PushCauses(c, a.relay, EEnqueue(p.key, p.id, p.body, p.now, p.ticket));
    hide Admit;
  }

  /**
   What a push that meets no other request is told. A body is refused exactly when it is
   empty or too large, before anything happens. After that the second check of the limits
   is idle: a push is refused for room exactly by the first check, before it costs a token;
   and whatever the reply, the relay is the swept one plus at most that one message.
   */
  lemma PushAnswers(s: Settings, a: Core, p: Push, mono: int)
    ensures var (b, y) := PushPart(s, a, p, mono);
            && (y == EmptyBody <==> p.body == [])
            && (y == BodyTooLarge <==> |p.body| > s.config.maxBody)
            && (y == EmptyBody || y == BodyTooLarge ==> b == a)
    ensures 0 < |p.body| <= s.config.maxBody ==>
              var (b, y) := PushPart(s, a, p, mono);
              var r := Sweep(a.relay, s.config.ttl, p.now);
              var route, room := p.key in r.queues, Slots.Room(s.config, r, p.key);
              var rates := Pruned(a.rates, a.relay, r);
              var (level, token) := B.Consumed(s.push, BucketOf(s.push, rates, p.key, mono), mono);
              var gate := SlotGate(r, p.key, p.now, p.ticket);
              && (y == QueueFull <==> route && |r.queues[p.key]| >= s.config.maxDepth)
              && (y == RoutesFull <==> !route && |r.queues| >= s.config.maxRoutes)
              && (y == RateLimited <==> room && !token)
              && (y.SlotRefused? <==> room && token && gate.Some?)
              && (y.SlotRefused? ==> gate == Some(y.reason) && y.reason != SlotExpired)
              && (y.PushOk? <==> room && token && gate == None) && (y.PushOk? ==> y.id == p.id)
              && b.relay == (if y.PushOk? then Admit(r, p.key, p.id, p.body, p.now) else r)
              && b.rates == (if room then rates[p.key := level] else rates) && b.createRate == a.createRate
  {
    hide Edit, Admit, B.Refilled;
  }

  // ------------------------------------------------------------- pull, ack and create

  datatype PullAnswer = BadMax | BadAckMode | NoContent | Items(items: seq<D.StoredMsg>)

  function PullEvent(c: Config, key: Key, max: Option<nat>, ackMode: Option<string>, now: int): Result<Event> {
    var asked := if max.Some? then max.value else 1;
    if asked == 0 then Err("ERR_BAD_MAX")
    else if ackMode.None? then Ok(EPull(key, PullMax(c, asked), PullBudget(c), now, Legacy))
    else if ackMode.value == "lease" then Ok(EPull(key, PullMax(c, asked), PullBudget(c), now, Lease))
    else Err("ERR_BAD_ACK_MODE")
  }

  /** Drained routes lose their bucket, as do routes the sweep of the same call removed. */
  function AfterDrain(c: Config, a: Core, r: Relay, key: Key, now: int, drained: bool): Core {
    var rates := Pruned(a.rates, a.relay, Sweep(a.relay, c.ttl, now));
    a.(relay := r, rates := if drained then rates - {key} else rates)
  }

  function PullPart(c: Config, a: Core, key: Key, max: nat, mode: PullMode, now: int): (Core, PullAnswer) {
    var (r, y) := Pull(a.relay, c.ttl, c.lease, key, max, PullBudget(c), now, mode);
    (AfterDrain(c, a, r, key, now, y.drained), if y.items == [] then NoContent else Items(D.Wire(y.items)))
  }

  predicate AckIdsOk(ids: seq<string>) {
    ids != [] && |ids| <= MAX_ACK_IDS
  }

  function AckPart(c: Config, a: Core, key: Key, ids: seq<string>, now: int): (Core, Result<nat>) {
    if !AckIdsOk(ids) then (a, Err("ERR_BAD_ACK_IDS"))
    else
      var (r, y) := Ack(a.relay, c.ttl, key, ids, now);
      (AfterDrain(c, a, r, key, now, y.drained), Ok(y.acked))
  }

  /** A parsed creation request, with the two blobs still encoded. */
  datatype CreateReq = CreateReq(
    slotKey: Key,
    idBlank: bool,
    capHash: Hash,
    capBlank: bool,
    revokeHash: Hash,
    expiry: int,
    bundle64: string,
    sig64: string)

  /** A creation request whose fields are there and whose blobs decode to something. */
  ghost predicate BlobsDecode(req: Option<CreateReq>) {
    && req.Some? && !req.value.idBlank && !req.value.capBlank
    && (var bundle, sig := Codec.Decoded(req.value.bundle64), Codec.Decoded(req.value.sig64);
        bundle.Some? && sig.Some? && bundle.value != [] && sig.value != [])
  }

  ghost predicate BlobsFit(lim: InviteLimits, req: CreateReq)
    requires BlobsDecode(Some(req))
  {
    && |Codec.Decoded(req.bundle64).value| <= lim.maxBundleBytes
    && |Codec.Decoded(req.sig64).value| <= lim.maxBundleBytes
  }

  /** The checks between the rate gate and the store; an over-long expiry is lowered, not refused. */
  ghost function CreateGuard(lim: InviteLimits, req: Option<CreateReq>, now: int): (y: Result<Event>)
    ensures y.Ok? <==> BlobsDecode(req) && BlobsFit(lim, req.value) && now < req.value.expiry
    ensures y == Err("ERR_INVITE_BAD_BODY") <==> !BlobsDecode(req)
    ensures y == Err("ERR_INVITE_TOO_LARGE") <==> BlobsDecode(req) && !BlobsFit(lim, req.value)
    ensures y == Err("ERR_INVITE_EXPIRED") <==> BlobsDecode(req) && BlobsFit(lim, req.value) && req.value.expiry <= now
    ensures y.Ok? ==>
      && y.value.ECreate? && y.value.bundle != [] && y.value.sig != []
      && |y.value.bundle| <= lim.maxBundleBytes && |y.value.sig| <= lim.maxBundleBytes
      && y.value.now == now && y.value.expiry == Min(req.value.expiry, now + lim.maxExpirySecs)
      && (lim.maxExpirySecs > 0 ==> y.value.expiry > now)
    ensures y.Ok? ==>
      && y.value.key == req.value.slotKey
      && y.value.capHash == req.value.capHash && y.value.revokeHash == req.value.revokeHash
      && Codec.Decoded(req.value.bundle64) == Some(y.value.bundle)
      && Codec.Decoded(req.value.sig64) == Some(y.value.sig)
  {
    if req.None? || req.value.idBlank || req.value.capBlank then Err("ERR_INVITE_BAD_BODY")
    else
      var q := req.value;
      var bundle, sig := Codec.Decoded(q.bundle64), Codec.Decoded(q.sig64);
      if bundle.None? || sig.None? || bundle.value == [] || sig.value == [] then Err("ERR_INVITE_BAD_BODY")
      else if |bundle.value| > lim.maxBundleBytes || |sig.value| > lim.maxBundleBytes then Err("ERR_INVITE_TOO_LARGE")
      else if q.expiry <= now then Err("ERR_INVITE_EXPIRED")
      else
        Ok(ECreate(q.slotKey, q.capHash, q.revokeHash, bundle.value, sig.value,
                   Min(q.expiry, now + lim.maxExpirySecs), now))
  }

  /** The checks before the store, with the level of the creation bucket after them. */
  ghost function CreateGate(lim: InviteLimits, level: B.Level, bodyLen: nat, req: Option<CreateReq>, now: int,
                            mono: int): (B.Level, Result<Event>)
  {
    if bodyLen > Codec.InviteCreateBodyCap(lim.maxBundleBytes) then (level, Err("ERR_INVITE_TOO_LARGE"))
    else
      var (next, ok) := B.Consumed(lim.create, level, mono);
      (next, if ok then CreateGuard(lim, req, now) else Err("ERR_RATE_LIMITED"))
  }

  ghost function CreatePart(s: Settings, a: Core, bodyLen: nat, req: Option<CreateReq>, now: int, mono: int)
    : (Core, Result<CreateOutcome>)
  {
    var (level, gate) := CreateGate(s.invite, a.createRate, bodyLen, req, now, mono);
    match gate
    case Err(code) => (a.(createRate := level), Err(code))
    case Ok(e) =>
      var (r, y) := Create(a.relay, s.config.ttl, e.key, e.capHash, e.revokeHash, e.bundle, e.sig, e.expiry,
                           now, s.config.maxSlots);
      (a.(createRate := level, relay := r), Ok(y))
  }

  /** The request passes all its checks. */
  ghost predicate CreatePasses(lim: InviteLimits, bodyLen: nat, token: bool, req: Option<CreateReq>, now: int) {
    && bodyLen <= Codec.InviteCreateBodyCap(lim.maxBundleBytes) && token
    && BlobsDecode(req) && BlobsFit(lim, req.value) && now < req.value.expiry
  }

  /**
   Each answer to a creation has its own cause: the body cap before the token, the token
   before the request is read, and the slot table last. A slot is published exactly when
   all checks pass and the swept table has a free place for a new key; nothing else changes
   the relay. A request within the body cap pays its token whatever else is wrong with it.
   */
  lemma CreateAnswers(s: Settings, a: Core, bodyLen: nat, req: Option<CreateReq>, now: int, mono: int)
    ensures var (b, y) := CreatePart(s, a, bodyLen, req, now, mono);
            var slots := Sweep(a.relay, s.config.ttl, now).slots;
            var (level, token) := B.Consumed(s.invite.create, a.createRate, mono);
            var inCap := bodyLen <= Codec.InviteCreateBodyCap(s.invite.maxBundleBytes);
            var passes := CreatePasses(s.invite, bodyLen, token, req, now);
            && (y == Err("ERR_RATE_LIMITED") <==> inCap && !token)
            && (y == Err("ERR_INVITE_BAD_BODY") <==> inCap && token && !BlobsDecode(req))
            && (y == Err("ERR_INVITE_TOO_LARGE") <==>
                !inCap || (token && BlobsDecode(req) && !BlobsFit(s.invite, req.value)))
            && (y == Err("ERR_INVITE_EXPIRED") <==>
                inCap && token && BlobsDecode(req) && BlobsFit(s.invite, req.value) && req.value.expiry <= now)
            && (y == Ok(Duplicate) <==> passes && req.value.slotKey in slots)
            && (y == Ok(CapFull(|slots|)) <==> passes && req.value.slotKey !in slots && |slots| >= s.config.maxSlots)
            && (y == Ok(Created) <==> passes && req.value.slotKey !in slots && |slots| < s.config.maxSlots)
            && b.createRate == (if inCap then level else a.createRate)
            && b.rates == a.rates
  {
    hide Sweep, B.Refilled, Codec.Decoded;
  }

  /** A created slot carries what the request asked for, with its expiry lowered to the ceiling. */
  lemma CreatePublishes(s: Settings, a: Core, bodyLen: nat, req: Option<CreateReq>, now: int, mono: int)
    ensures var (b, y) := CreatePart(s, a, bodyLen, req, now, mono);
            var slots := Sweep(a.relay, s.config.ttl, now).slots;
            && (y != Ok(Created) ==> b.relay == a.relay)
            && (y == Ok(Created) ==>
                && BlobsDecode(req)
                && b.relay == Sweep(a.relay, s.config.ttl, now).(slots := slots[req.value.slotKey :=
                     Slot(Active, Min(req.value.expiry, now + s.invite.maxExpirySecs), req.value.capHash,
                          req.value.revokeHash, Codec.Decoded(req.value.bundle64).value,
                          Codec.Decoded(req.value.sig64).value, None)]))
  {
    hide Sweep, B.Consumed, Codec.Decoded;
  }

  // ------------------------------------------------------------------- the handlers

  class AppState {
    const settings: Settings
    const store: D.Store
    const inviteCreateRate: B.PushRateBucket
    var pushRates: map<Key, B.Level>

    ghost predicate Valid()
      reads this, store
    {
      && store.Valid() && store.ttl == settings.config.ttl && store.lease == settings.config.lease
      && settings.push.burst <= USIZE_MAX && settings.invite.create.burst <= USIZE_MAX
    }

    ghost function View(): Core
      reads this, store, inviteCreateRate
    {
      Core(store.View(), pushRates, inviteCreateRate.View())
    }

    constructor (settings: Settings, start: int)
      requires settings.push.burst <= USIZE_MAX && settings.invite.create.burst <= USIZE_MAX
      ensures Valid() && this.settings == settings
      ensures View() == Core(EMPTY, map[], B.Fresh(settings.invite.create, start))
    {
      this.settings := settings;
      store := new D.Store(settings.config.ttl, settings.config.lease);
      inviteCreateRate := new B.PushRateBucket(settings.invite.create, start);
      pushRates := map[];
    }

    method LogAndPruneSweep(stats: D.SweepStats)
      modifies this
      ensures pushRates == old(pushRates) - stats.removedRoutes
    {
      pushRates := pushRates - stats.removedRoutes;
    }

    method PushStatus(key: Key, now: int) returns (answer: Option<PushAnswer>)
      requires Valid()
      modifies this, store
      ensures Valid()
      ensures (View(), answer) == StatusPart(settings.config, old(View()), key, now)
    {
      var status, stats := store.RouteStatus(key, now);
      LogAndPruneSweep(stats);
      if status.routeExists && status.depth >= settings.config.maxDepth {
        return Some(QueueFull);
      }
      if !status.routeExists && status.liveRoutes >= settings.config.maxRoutes {
        return Some(RoutesFull);
      }
      return None;
    }

    /** The bucket is taken out of the map, used, and put back. */
    method PushRate(key: Key, mono: int) returns (answer: Option<PushAnswer>)
      requires Valid()
      modifies this
      ensures Valid()
      ensures (View(), answer) == RatePart(settings.push, old(View()), key, mono)
    {
      var bucket := new B.PushRateBucket(settings.push, mono);
      if key in pushRates {
        bucket.tokens := pushRates[key].tokens;
        bucket.lastRefill := pushRates[key].lastRefill;
      }
      var ok := bucket.TryConsume(settings.push, mono);
      pushRates := pushRates[key := bucket.View()];
      return if ok then None else Some(RateLimited);
    }

    method PushCommit(p: Push) returns (answer: PushAnswer)
      requires Valid()
      modifies this, store
      ensures Valid()
      ensures (View(), answer) == CommitPart(settings.config, old(View()), p)
    {
      var outcome := store.Enqueue(p.key, p.id, p.body, p.now, settings.config.maxDepth,
                                   settings.config.maxRoutes, p.ticket);
      match outcome
      case Accepted => return PushOk(p.id);
      case Overloaded(_) => return QueueFull;
      case RouteCap(_) =>
        pushRates := pushRates - {p.key};
        return RoutesFull;
      case SlotRejected(reason) => return SlotRefused(reason);
    }

    /** The three steps in a row; between two of them the source holds no lock. */
    method PushMessage(p: Push, mono: int) returns (answer: PushAnswer)
      requires Valid()
      modifies this, store
      ensures Valid()
      ensures (View(), answer) == PushPart(settings, old(View()), p, mono)
    {
      hide D.Abs, D.Coherent, StatusPart, RatePart, CommitPart;
      if p.body == [] {
        return EmptyBody;
      }
      if |p.body| > settings.config.maxBody {
        return BodyTooLarge;
      }
      var full := PushStatus(p.key, p.now);
      if full.Some? {
        return full.value;
      }
      var limited := PushRate(p.key, mono);
      if limited.Some? {
        return limited.value;
      }
      answer := PushCommit(p);
    }

    method PullMessage(key: Key, max: Option<nat>, ackMode: Option<string>, now: int) returns (answer: PullAnswer)
      requires Valid()
      modifies this, store
      ensures Valid()
      ensures match PullEvent(settings.config, key, max, ackMode, now)
              case Err(code) => View() == old(View()) && answer == if code == "ERR_BAD_MAX" then BadMax else BadAckMode
              case Ok(e) => (View(), answer) == PullPart(settings.config, old(View()), key, e.max, e.mode, now)
    {
      var asked := if max.Some? then max.value else 1;
      if asked == 0 {
        return BadMax;
      }
      var limit := PullMax(settings.config, asked);
      var mode := Legacy;
      if ackMode.Some? {
        if ackMode.value == "lease" {
          mode := Lease;
        } else {
          return BadAckMode;
        }
      }
      var items, drained, stats := store.Pull(key, limit, PullBudget(settings.config), now, mode);
      LogAndPruneSweep(stats);
      if drained {
        pushRates := pushRates - {key};
      }
      return if items == [] then NoContent else Items(items);
    }

    method AckMessages(key: Key, ids: seq<string>, now: int) returns (answer: Result<nat>)
      requires Valid()
      modifies this, store
      ensures Valid()
      ensures (View(), answer) == AckPart(settings.config, old(View()), key, ids, now)
    {
      if ids == [] || |ids| > MAX_ACK_IDS {
        return Err("ERR_BAD_ACK_IDS");
      }
      var acked, drained, stats := store.Ack(key, ids, now);
      LogAndPruneSweep(stats);
      if drained {
        pushRates := pushRates - {key};
      }
      return Ok(acked);
    }

    /** `req` is None when the body does not parse. */
    method InviteCreate(bodyLen: nat, req: Option<CreateReq>, now: int, mono: int)
      returns (answer: Result<CreateOutcome>)
      requires Valid()
      modifies store, inviteCreateRate
      ensures Valid()
      ensures (View(), answer) == CreatePart(settings, old(View()), bodyLen, req, now, mono)
    {
      hide D.Abs, D.Coherent, Create, Codec.Decoded;
      if bodyLen > Codec.InviteCreateBodyCap(settings.invite.maxBundleBytes) {
        return Err("ERR_INVITE_TOO_LARGE");
      }
      var ok := inviteCreateRate.TryConsume(settings.invite.create, mono);
      if !ok {
        return Err("ERR_RATE_LIMITED");
      }
      if req.None? {
        return Err("ERR_INVITE_BAD_BODY");
      }
      var q := req.value;
      if q.idBlank || q.capBlank {
        return Err("ERR_INVITE_BAD_BODY");
      }
      var bundle := Codec.Decode(q.bundle64);
      var sig := Codec.Decode(q.sig64);
      if bundle.None? || sig.None? {
        return Err("ERR_INVITE_BAD_BODY");
      }
      if bundle.value == [] || sig.value == [] {
        return Err("ERR_INVITE_BAD_BODY");
      }
      if |bundle.value| > settings.invite.maxBundleBytes || |sig.value| > settings.invite.maxBundleBytes {
        return Err("ERR_INVITE_TOO_LARGE");
      }
      if q.expiry <= now {
        return Err("ERR_INVITE_EXPIRED");
      }
      var expiry := Min(q.expiry, now + settings.invite.maxExpirySecs);
      var outcome := store.InviteCreate(q.slotKey, q.capHash, q.revokeHash, bundle.value, sig.value, expiry, now,
                                        settings.config.maxSlots);
      return Ok(outcome);
    }
  }
}

/**
 Whole requests, one after another, with the rate buckets: what a background
 sweep and its pruning of buckets can change for the clients.
 */
module Requests {
  import opened Base
  import opened RelaySpec
  import opened QueueLemmas
  import opened Fates
  import opened Handlers
  import opened Limits
  import opened Sweeps
  import B = RateBucket
  import Delivery
  import Slots

  /** A request with its arguments, or the background sweep. */
  datatype Call =
    | PushCall(p: Push, mono: int)
    | PullCall(key: Key, max: Option<nat>, ackMode: Option<string>, now: int)
    | AckCall(key: Key, ids: seq<string>, now: int)
    | CreateCall(bodyLen: nat, req: Option<CreateReq>, now: int, mono: int)
    | RedeemCall(key: Key, now: int, ticketHash: Hash, verify: Hash -> bool)
    | RevokeCall(key: Key, now: int, verify: Hash -> bool)
    | SweepCall(now: int)

  datatype Answer =
    | APush(push: PushAnswer)
    | APull(pull: PullAnswer)
    | AAck(ack: Result<nat>)
    | ACreate(create: Result<CreateOutcome>)
    | ARedeem(redeem: RedeemOutcome)
    | ARevoke(revoke: RevokeOutcome)
    | ASwept

  function Clock(call: Call): int {
    if call.PushCall? then call.p.now else call.now
  }

  /** A background sweep: the relay is swept, and the routes it removed lose their buckets. */
  function Tidy(c: Config, a: Core, now: int): Core {
    var r := Sweep(a.relay, c.ttl, now);
    a.(relay := r, rates := Pruned(a.rates, a.relay, r))
  }

  function PullRequest(c: Config, a: Core, key: Key, max: Option<nat>, ackMode: Option<string>, now: int)
    : (Core, PullAnswer)
  {
    match PullEvent(c, key, max, ackMode, now)
    case Err(code) => (a, if code == "ERR_BAD_MAX" then BadMax else BadAckMode)
    case Ok(e) => PullPart(c, a, key, e.max, e.mode, now)
  }

  ghost function Handle(s: Settings, a: Core, call: Call): (Core, Answer) {
    match call
    case PushCall(p, mono) =>
      var (b, y) := PushPart(s, a, p, mono);
      (b, APush(y))
    case PullCall(key, max, ackMode, now) =>
      var (b, y) := PullRequest(s.config, a, key, max, ackMode, now);
      (b, APull(y))
    case AckCall(key, ids, now) =>
      var (b, y) := AckPart(s.config, a, key, ids, now);
      (b, AAck(y))
    case CreateCall(bodyLen, req, now, mono) =>
      var (b, y) := CreatePart(s, a, bodyLen, req, now, mono);
      (b, ACreate(y))
    case RedeemCall(key, now, ticketHash, verify) =>
      var (r, y) := Redeem(a.relay, key, now, ticketHash, verify);
      (a.(relay := r), ARedeem(y))
    case RevokeCall(key, now, verify) =>
      var (r, y) := Revoke(a.relay, key, verify);
      (a.(relay := r), ARevoke(y))
    case SweepCall(now) => (Tidy(s.config, a, now), ASwept)
  }

  // -------------------------------------------------- what a pull and an ack do

  /** The messages of `k` that have not expired at `now`, oldest first. */
  ghost predicate IsUnexpired(c: Config, r: Relay, k: Key, now: int, q: seq<Msg>) {
    Ascending(q) && forall m :: m in q <==> m in Queue(r, k) && now < m.at + c.ttl
  }

  lemma CutMembers(q: seq<Msg>, ttl: int, now: int)
    ensures forall m :: m in Edit(q, DropExpired(now - ttl)) <==> m in q && now < m.at + ttl
  {
    var cut := DropExpired(now - ttl);
    forall m ensures m in Edit(q, cut) <==> m in q && now < m.at + ttl {
      if m in Edit(q, cut) {
        var o := EditOrigin(q, cut, m);
      } else if m in q && now < m.at + ttl {
        EditKeeps(q, cut, m);
      }
    }
  }

  lemma SweptIsUnexpired(c: Config, r: Relay, k: Key, now: int)
    requires WellFormed(r)
    ensures IsUnexpired(c, r, k, now, Queue(Sweep(r, c.ttl, now), k))
  {
    hide Sweep, WellFormed, Ascending, Edit;
    Delivery.SweptAscending(c, r, k, now);
    QueueOfSweep(r, c.ttl, now, k);
    CutMembers(Queue(r, k), c.ttl, now);
  }

  lemma ByNumber(q: seq<Msg>, out: seq<Msg>, m: Msg)
    requires Ascending(q) && m in q && forall o | o in out :: o in q
    ensures m.num in Nums(out) <==> m in out
  {
    if m.num in Nums(out) {
      var o :| o in out && o.num == m.num;
      AscendingUnique(q, o, m);
    }
  }

  lemma {:induction false} LeasedAt(q: seq<Msg>, nums: set<nat>, until: int, i: nat)
    requires i < |q|
    ensures |Edit(q, LeaseNums(nums, until))| == |q|
    ensures Edit(q, LeaseNums(nums, until))[i] == if q[i].num in nums then q[i].(lease := Some(until)) else q[i]
  {
    if |q| > 1 {
      LeasedAt(q[1..], nums, until, if i > 0 then i - 1 else 0);
    }
  }

  /** `after` is `before` with the messages of `out` leased until `until`, and nothing else changed. */
  ghost predicate OnlyLeased(before: seq<Msg>, after: seq<Msg>, out: seq<Msg>, until: int) {
    && |after| == |before|
    && forall i | 0 <= i < |before| ::
         after[i] == if before[i] in out then before[i].(lease := Some(until)) else before[i]
  }

  /** `after` is `before` without exactly the messages of `out`. */
  ghost predicate OnlyRemoved(before: seq<Msg>, after: seq<Msg>, out: set<Msg>) {
    Ascending(after) && forall m :: m in after <==> m in before && m !in out
  }

  lemma LeaseEdit(q: seq<Msg>, out: seq<Msg>, until: int)
    requires Ascending(q) && forall o | o in out :: o in q
    ensures OnlyLeased(q, Edit(q, LeaseNums(Nums(out), until)), out, until)
  {
    if q != [] {
      LeasedAt(q, Nums(out), until, 0);
    }
    hide Edit, Ascending;
    forall i | 0 <= i < |q|
      ensures Edit(q, LeaseNums(Nums(out), until))[i] == if q[i] in out then q[i].(lease := Some(until)) else q[i]
    {
      LeasedAt(q, Nums(out), until, i);
      ByNumber(q, out, q[i]);
    }
  }

  lemma LegacyEdit(q: seq<Msg>, out: seq<Msg>)
    requires Ascending(q) && forall o | o in out :: o in q
    ensures OnlyRemoved(q, Edit(q, DropNums(Nums(out))), set m | m in out)
  {
    var ch := DropNums(Nums(out));
    EditAscending(q, ch);
    forall m ensures m in Edit(q, ch) <==> m in q && m !in out {
      if m in Edit(q, ch) {
        var o := EditOrigin(q, ch, m);
        ByNumber(q, out, m);
      } else if m in q && m !in out {
        ByNumber(q, out, m);
        EditKeeps(q, ch, m);
      }
    }
  }

  /** The longest prefix of `v` within the item limit and the byte budget; one message is always within the budget. */
  ghost predicate LongestPrefix(v: seq<Msg>, out: seq<Msg>, limit: nat, budget: nat) {
    && |out| <= Min(limit, |v|) && out == v[..|out|]
    && (|out| <= 1 || Min(SizeOf(out), USIZE_MAX) <= budget)
    && forall n | |out| < n <= Min(limit, |v|) :: n > 1 && Min(SizeOf(v[..n]), USIZE_MAX) > budget
  }

  /** The messages of `q` with no live lease, oldest first. */
  ghost predicate IsAwake(q: seq<Msg>, now: int, v: seq<Msg>) {
    Ascending(v) && forall m :: m in v <==> m in q && (m.lease.None? || m.lease.value <= now)
  }

  lemma VisibleIsAwake(q: seq<Msg>, now: int)
    requires Ascending(q)
    ensures IsAwake(q, now, Visible(q, now))
  {
    VisibleAscending(q, now);
    hide Ascending, Visible;
    forall m ensures m in Visible(q, now) <==> m in q && Awake(m, now) {
      VisibleIff(q, now, m);
    }
  }

  lemma PulledPrefix(c: Config, r: Relay, e: Event)
    requires e.EPull?
    ensures LongestPrefix(Delivery.VisibleAt(c, r, e.key, e.now), Step(c, r, e).1.pull.items, e.max, e.budget)
  {
    Delivery.PullTakesLongestPrefix(c, r, e);
    hide Step, Delivery.VisibleAt, SizeOf;
  }

  lemma PulledQueue(c: Config, r: Relay, e: Event) returns (v: seq<Msg>)
    requires WellFormed(r) && e.EPull?
    ensures var q, out := Queue(Sweep(r, c.ttl, e.now), e.key), Step(c, r, e).1.pull.items;
            var after := Queue(Step(c, r, e).0, e.key);
            && IsAwake(q, e.now, v) && LongestPrefix(v, out, e.max, e.budget)
            && (if e.mode == Lease then OnlyLeased(q, after, out, e.now + c.lease)
                else OnlyRemoved(q, after, set m | m in out))
  {
    hide Step, Sweep, WellFormed, Edit, Ascending, Visible, IsAwake, LongestPrefix, OnlyLeased, OnlyRemoved, Batch;
    PullEdits(c, r, e, e.key);
    QueueOfSweep(r, c.ttl, e.now, e.key);
    Delivery.SweptAscending(c, r, e.key, e.now);
    PulledPrefix(c, r, e);
    var q, out := Queue(Sweep(r, c.ttl, e.now), e.key), Step(c, r, e).1.pull.items;
    v := Visible(q, e.now);
    VisibleIsAwake(q, e.now);
    forall o | o in out ensures o in q {
      BatchFrom(q, e.max, e.budget, e.now, o);
    }
    if e.mode == Lease {
      LeaseEdit(q, out, e.now + c.lease);
    } else {
      LegacyEdit(q, out);
    }
  }

  /**
   What a pull request is told and what it does. It is refused exactly for a max of zero or
   an unknown mode, and then changes nothing. Otherwise it returns the longest prefix of the
   unexpired messages without a live lease that keeps to both limits. In mode "lease" every
   unexpired message stays, and those returned are leased; without a mode those returned go.
   */
  lemma PullMeans(c: Config, a: Core, key: Key, max: Option<nat>, ackMode: Option<string>, now: int)
    returns (q: seq<Msg>, v: seq<Msg>, out: seq<Msg>)
    requires WellFormed(a.relay)
    ensures var (b, y) := PullRequest(c, a, key, max, ackMode, now);
            && (y == BadMax <==> max == Some(0))
            && (y == BadAckMode <==> max != Some(0) && ackMode.Some? && ackMode.value != "lease")
            && (y == BadMax || y == BadAckMode ==> b == a)
            && (y != BadMax && y != BadAckMode ==>
                && IsUnexpired(c, a.relay, key, now, q) && IsAwake(q, now, v)
                && LongestPrefix(v, out, Min(if max.Some? then max.value else 1, c.maxDepth),
                                 Max(16 * 1024 * 1024, c.maxBody))
                && (y == NoContent <==> out == [])
                && (y != NoContent ==>
                    && y.Items? && |y.items| == |out|
                    && forall i | 0 <= i < |out| :: y.items[i].msgId == out[i].id && y.items[i].body == out[i].body)
                && (if ackMode.Some? then OnlyLeased(q, Queue(b.relay, key), out, now + c.lease)
                    else OnlyRemoved(q, Queue(b.relay, key), set m | m in out)))
  {
    hide Sweep, WellFormed, Edit, Batch, Ascending, LongestPrefix, OnlyLeased, OnlyRemoved, IsUnexpired, IsAwake;
    q, v, out := [], [], [];
    var e := PullEvent(c, key, max, ackMode, now);
    if e.Ok? {
      v := PulledQueue(c, a.relay, e.value);
      q, out := Queue(Sweep(a.relay, c.ttl, now), key), Step(c, a.relay, e.value).1.pull.items;
      SweptIsUnexpired(c, a.relay, key, now);
    }
  }

  lemma AckEdit(q: seq<Msg>, ids: seq<string>)
    requires Ascending(q)
    ensures OnlyRemoved(q, Edit(q, DropAcked(ids)), set m | m in q && m.lease.Some? && m.id in ids)
  {
    EditAscending(q, DropAcked(ids));
    hide Ascending, Edit;
    forall m ensures m in Edit(q, DropAcked(ids)) <==> m in q && !(m.lease.Some? && m.id in ids) {
      if m in q {
        Delivery.AckKeeps(q, ids, m);
      } else if m in Edit(q, DropAcked(ids)) {
        var o := EditOrigin(q, DropAcked(ids), m);
      }
    }
  }

  lemma AckedQueue(c: Config, r: Relay, e: Event)
    requires WellFormed(r) && e.EAck?
    ensures OnlyRemoved(Queue(Sweep(r, c.ttl, e.now), e.key), Queue(Step(c, r, e).0, e.key), Delivery.Named(c, r, e))
  {
    hide Step, Sweep, WellFormed, Edit, Ascending, OnlyRemoved;
    var s := Sweep(r, c.ttl, e.now);
    var q := Queue(s, e.key);
    Delivery.SweptAscending(c, r, e.key, e.now);
    Delivery.AckState(c, r, e);
    QueueOfPut(s, e.key, Edit(q, DropAcked(e.ids)), e.key);
    AckEdit(q, e.ids);
    assert Delivery.Named(c, r, e) == set m | m in q && m.lease.Some? && m.id in e.ids;
  }

  /**
   What an ack request is told and what it does. It is refused exactly when it names no id
   or more than 4096, and then changes nothing. Otherwise exactly the unexpired leased
   messages of the route with a named id go, and their number is the answer.
   */
  lemma AckMeans(c: Config, a: Core, key: Key, ids: seq<string>, now: int)
    requires WellFormed(a.relay)
    ensures var (b, y) := AckPart(c, a, key, ids, now);
            var named := set m | m in Queue(a.relay, key) && now < m.at + c.ttl && m.lease.Some? && m.id in ids;
            && (y.Ok? <==> 1 <= |ids| <= 4096)
            && (y.Err? ==> y.error == "ERR_BAD_ACK_IDS" && b == a)
            && (y.Ok? ==>
                && y.value == |named|
                && Ascending(Queue(b.relay, key))
                && forall m :: m in Queue(b.relay, key) <==>
                     m in Queue(a.relay, key) && now < m.at + c.ttl && m !in named)
  {
    hide Sweep, WellFormed, Edit, Dropped, Ascending;
    if AckIdsOk(ids) {
      var e := EAck(key, ids, now);
      Delivery.AckCounts(c, a.relay, e);
      AckedQueue(c, a.relay, e);
      SweptIsUnexpired(c, a.relay, key, now);
      var named := set m | m in Queue(a.relay, key) && now < m.at + c.ttl && m.lease.Some? && m.id in ids;
      assert Delivery.Named(c, a.relay, e) == named;
    }
  }

  // ------------------------------------------------------------ tidying, as algebra

  lemma SweepShrinks(r: Relay, ttl: int, now: int)
    ensures Sweep(r, ttl, now).queues.Keys <= r.queues.Keys
  {
  }

  lemma TidyTwice(c: Config, a: Core, t1: int, t2: int)
    ensures Tidy(c, Tidy(c, a, t1), t2) == Tidy(c, a, Max(t1, t2))
  {
    var r := Sweep(a.relay, c.ttl, t1);
    SweepTwice(a.relay, c.ttl, t1, t2);
    SweepShrinks(a.relay, c.ttl, t1);
    SweepShrinks(r, c.ttl, t2);
    hide Sweep;
    assert Gone(a.relay, Sweep(r, c.ttl, t2)) == Gone(a.relay, r) + Gone(r, Sweep(r, c.ttl, t2));
  }

  /** `a` is `b` with more sweeps: at `now` both tidy to the same, and `a` holds no more routes and buckets. */
  ghost predicate Ahead(c: Config, a: Core, b: Core, now: int) {
    && Tidy(c, a, now) == Tidy(c, b, now)
    && a.relay.queues.Keys <= b.relay.queues.Keys && a.rates.Keys <= b.rates.Keys
  }

  lemma AheadLater(c: Config, a: Core, b: Core, now: int, later: int)
    requires Ahead(c, a, b, now) && now <= later
    ensures Ahead(c, a, b, later)
  {
    TidyTwice(c, a, now, later);
    TidyTwice(c, b, now, later);
    hide Tidy;
  }

  // -------------------------------------------------------------- one request

  /** A push, a pull or an ack that passes its first checks works on the tidied state. */
  lemma TidiesFirst(s: Settings, a: Core, b: Core, call: Call)
    requires Tidy(s.config, a, Clock(call)) == Tidy(s.config, b, Clock(call))
    requires call.PushCall? || call.PullCall? || call.AckCall?
    ensures Handle(s, a, call).1 == Handle(s, b, call).1
    ensures Handle(s, a, call).0 == Handle(s, b, call).0 || (Handle(s, a, call).0 == a && Handle(s, b, call).0 == b)
  {
    hide Sweep, StatusAnswer, StatusOf, RatePart, CommitPart, PushGuard, Batch, Edit, Dropped;
  }

  /** The creation is successful, and its sweep removes a route that has a bucket. */
  ghost predicate LeavesBucket(s: Settings, a: Core, call: Call) {
    && call.CreateCall? && Handle(s, a, call).1 == ACreate(Ok(Created))
    && exists k :: k in Gone(a.relay, Sweep(a.relay, s.config.ttl, call.now)) && k in a.rates
  }

  /** What a creation does, in terms of its sweep. */
  lemma CreateShape(s: Settings, a: Core, call: Call)
    requires call.CreateCall?
    ensures var (b, y) := Handle(s, a, call);
            var r := Sweep(a.relay, s.config.ttl, call.now);
            && b.rates == a.rates
            && (if y == ACreate(Ok(Created)) then b.relay == r.(slots := b.relay.slots) else b.relay == a.relay)
  {
    hide Sweep, CreateGate;
  }

  lemma CreateSame(s: Settings, a: Core, b: Core, call: Call)
    requires call.CreateCall? && a.createRate == b.createRate
    requires Sweep(a.relay, s.config.ttl, call.now) == Sweep(b.relay, s.config.ttl, call.now)
    ensures Handle(s, a, call).1 == Handle(s, b, call).1
    ensures Handle(s, a, call).0.createRate == Handle(s, b, call).0.createRate
    ensures Handle(s, a, call).1 == ACreate(Ok(Created)) ==> Handle(s, a, call).0.relay == Handle(s, b, call).0.relay
  {
    hide Sweep, CreateGate;
  }

  /** A creation that leaves no bucket leaves the rates as tidying would. */
  lemma NoBucketLeft(s: Settings, a: Core, call: Call)
    requires call.CreateCall? && Handle(s, a, call).1 == ACreate(Ok(Created)) && !LeavesBucket(s, a, call)
    ensures Handle(s, a, call).0.rates == Tidy(s.config, a, call.now).rates
  {
    CreateShape(s, a, call);
    var gone := Gone(a.relay, Sweep(a.relay, s.config.ttl, call.now));
    hide Handle, Sweep, Gone;
    assert forall k | k in gone :: k !in a.rates;
    assert a.rates - gone == a.rates;
  }

  lemma CreateAhead(s: Settings, a: Core, b: Core, call: Call)
    requires call.CreateCall? && Ahead(s.config, a, b, call.now) && !LeavesBucket(s, b, call)
    ensures Handle(s, a, call).1 == Handle(s, b, call).1
    ensures Ahead(s.config, Handle(s, a, call).0, Handle(s, b, call).0, call.now)
  {
    CreateSame(s, a, b, call);
    CreateShape(s, a, call);
    CreateShape(s, b, call);
    if Handle(s, a, call).1 == ACreate(Ok(Created)) {
      assert !LeavesBucket(s, a, call);
      NoBucketLeft(s, a, call);
      NoBucketLeft(s, b, call);
    }
    hide Handle, Sweep, LeavesBucket;
  }

  /** A reply without what only redeem and revoke can tell, as in `Sweeps.Gist`. */
  function Told(y: Answer): Answer {
    match y
    case ARedeem(o) => ARedeem(Gist(YRedeem(o)).redeem)
    case ARevoke(_) => ARevoke(RevokeNotFound)
    case _ => y
  }

  lemma SweptQueuesAlone(r: Relay, r': Relay, ttl: int, now: int)
    requires r.queues == r'.queues
    ensures Sweep(r, ttl, now).queues == Sweep(r', ttl, now).queues
  {
  }

  /** Redeem and revoke touch no queue and no bucket, and commute with tidying. */
  lemma SlotCallTidies(s: Settings, a: Core, call: Call)
    requires call.RedeemCall? || call.RevokeCall?
    ensures var b := Handle(s, a, call).0;
            && b.relay.queues == a.relay.queues && b.rates == a.rates
            && Tidy(s.config, b, call.now) == Handle(s, Tidy(s.config, a, call.now), call).0
  {
    var b := Handle(s, a, call).0;
    SweptQueuesAlone(a.relay, b.relay, s.config.ttl, call.now);
    if call.RedeemCall? {
      RedeemCommutes(a.relay, s.config.ttl, call.key, call.now, call.ticketHash, call.verify);
    } else {
      RevokeCommutes(a.relay, s.config.ttl, call.key, call.now, call.verify);
    }
    hide Sweep;
  }

  lemma SlotCallAhead(s: Settings, a: Core, b: Core, call: Call)
    requires (call.RedeemCall? || call.RevokeCall?) && Ahead(s.config, a, b, call.now)
    ensures Told(Handle(s, a, call).1) == Told(Handle(s, b, call).1)
    ensures Ahead(s.config, Handle(s, a, call).0, Handle(s, b, call).0, call.now)
  {
    SlotCallTidies(s, a, call);
    SlotCallTidies(s, b, call);
    if call.RedeemCall? {
      RedeemGist(a.relay, s.config.ttl, call.key, call.now, call.ticketHash, call.verify);
      RedeemGist(b.relay, s.config.ttl, call.key, call.now, call.ticketHash, call.verify);
    }
    hide Sweep, Gist, Redeem, Revoke;
  }

  /** One request, in both runs when it is not a background sweep. */
  lemma RequestStep(s: Settings, a: Core, b: Core, call: Call)
    requires Ahead(s.config, a, b, Clock(call)) && !LeavesBucket(s, b, call)
    ensures var b' := if call.SweepCall? then b else Handle(s, b, call).0;
            Ahead(s.config, Handle(s, a, call).0, b', Clock(call))
    ensures call.SweepCall? || Told(Handle(s, a, call).1) == Told(Handle(s, b, call).1)
  {
    if call.SweepCall? {
      TidyTwice(s.config, a, call.now, call.now);
      SweepShrinks(a.relay, s.config.ttl, call.now);
      hide Sweep;
    } else if call.CreateCall? {
      hide Handle, Ahead, LeavesBucket;
      CreateAhead(s, a, b, call);
    } else if call.RedeemCall? || call.RevokeCall? {
      hide Handle, Ahead, LeavesBucket;
      SlotCallAhead(s, a, b, call);
    } else {
      hide Handle, Tidy, LeavesBucket;
      TidiesFirst(s, a, b, call);
    }
  }

  // -------------------------------------------------------------------- whole runs

  /** Clocks do not run backwards from `now`. */
  predicate Ordered(calls: seq<Call>, now: int) {
    calls == [] || (now <= Clock(calls[0]) && Ordered(calls[1..], Clock(calls[0])))
  }

  /** The run without its background sweeps. */
  function Foreground(calls: seq<Call>): seq<Call> {
    if calls == [] then []
    else if calls[0].SweepCall? then Foreground(calls[1..])
    else [calls[0]] + Foreground(calls[1..])
  }

  /** What the clients are told. */
  ghost function Answers(s: Settings, a: Core, calls: seq<Call>): seq<Answer>
    decreases |calls|
  {
    if calls == [] then []
    else
      var (b, y) := Handle(s, a, calls[0]);
      (if calls[0].SweepCall? then [] else [Told(y)]) + Answers(s, b, calls[1..])
  }

  /** No creation of the run leaves the bucket of a route that its sweep removes. */
  ghost predicate LeavesNone(s: Settings, a: Core, calls: seq<Call>)
    decreases |calls|
  {
    calls == [] || (!LeavesBucket(s, a, calls[0]) && LeavesNone(s, Handle(s, a, calls[0]).0, calls[1..]))
  }

  lemma NoCreation(s: Settings, a: Core, call: Call)
    requires !call.CreateCall?
    ensures !LeavesBucket(s, a, call)
  {
  }

  lemma {:induction false} SameAnswers(s: Settings, a: Core, b: Core, calls: seq<Call>, now: int)
    requires Ordered(calls, now) && Ahead(s.config, a, b, now) && LeavesNone(s, b, Foreground(calls))
    ensures Answers(s, a, calls) == Answers(s, b, Foreground(calls))
    decreases |calls|
  {
    hide Handle, Told, Ahead, LeavesBucket;
    if calls != [] {
      var call := calls[0];
      AheadLater(s.config, a, b, now, Clock(call));
      if call.SweepCall? {
        NoCreation(s, b, call);
        RequestStep(s, a, b, call);
        SameAnswers(s, Handle(s, a, call).0, b, calls[1..], Clock(call));
      } else {
        assert Foreground(calls)[0] == call && Foreground(calls)[1..] == Foreground(calls[1..]);
        RequestStep(s, a, b, call);
        SameAnswers(s, Handle(s, a, call).0, Handle(s, b, call).0, calls[1..], Clock(call));
      }
    }
  }

  /**
   Background sweeps and the clients: in a run of whole requests with clocks that do not run
   backwards, removing every background sweep and its pruning changes no answer, if no
   creation of the run without them leaves a bucket behind. Redeem and revoke may differ as
   in `Sweeps.SweepsAreUnobservable`.
   */
  lemma ClientsCannotTell(s: Settings, a: Core, calls: seq<Call>, start: int)
    requires Ordered(calls, start) && LeavesNone(s, a, Foreground(calls))
    ensures Answers(s, a, calls) == Answers(s, a, Foreground(calls))
  {
    SameAnswers(s, a, a, calls, start);
  }

  /** The condition is exact for one step: a sweep before a creation leaves a trace iff the creation leaves a bucket. */
  lemma TraceOfSweepIff(s: Settings, a: Core, call: Call)
    requires call.CreateCall?
    ensures var before := Tidy(s.config, Handle(s, Tidy(s.config, a, call.now), call).0, call.now);
            var after := Tidy(s.config, Handle(s, a, call).0, call.now);
            before == after <==> !LeavesBucket(s, a, call)
  {
    var b := Tidy(s.config, a, call.now);
    TidyTwice(s.config, a, call.now, call.now);
    SweepTwice(a.relay, s.config.ttl, call.now, call.now);
    SweepShrinks(a.relay, s.config.ttl, call.now);
    CreateSame(s, b, a, call);
    CreateShape(s, b, call);
    CreateShape(s, a, call);
    var y := Handle(s, a, call);
    if y.1 == ACreate(Ok(Created)) {
      SweptQueuesAlone(y.0.relay, Sweep(a.relay, s.config.ttl, call.now), s.config.ttl, call.now);
      if LeavesBucket(s, a, call) {
        var k :| k in Gone(a.relay, Sweep(a.relay, s.config.ttl, call.now)) && k in a.rates;
        assert k in Tidy(s.config, y.0, call.now).rates && k !in b.rates;
      } else {
        NoBucketLeft(s, a, call);
      }
    }
    hide Handle, Sweep, LeavesBucket;
  }

  /** The bucket of `k` is there after as before, unless its route was removed. */
  ghost predicate Follows(a: Core, b: Core, k: Key)
    requires k in a.rates
  {
    && (k !in b.rates <==> k in a.relay.queues && k !in b.relay.queues)
    && (k in b.rates ==> b.rates[k] == a.rates[k])
  }

  /** A push touches the bucket of its own route, and otherwise only prunes. */
  lemma PushBuckets(s: Settings, a: Core, p: Push, mono: int, k: Key)
    requires p.key != k && 0 < |p.body| <= s.config.maxBody
    ensures var b, r := PushPart(s, a, p, mono).0, Pruned(a.rates, a.relay, Sweep(a.relay, s.config.ttl, p.now));
            (k in b.rates <==> k in r) && (k in r ==> b.rates[k] == r[k])
  {
    hide Sweep, StatusAnswer, StatusOf, Enqueue, B.Consumed, BucketOf, Pruned;
  }

  lemma KeptFollows(a: Core, k: Key)
    requires k in a.rates
    ensures Follows(a, a, k)
  {
  }

  lemma PushFollows(s: Settings, a: Core, p: Push, mono: int, k: Key)
    requires k in a.rates && p.key != k
    ensures Follows(a, PushPart(s, a, p, mono).0, k)
  {
    PushAnswers(s, a, p, mono);
    if 0 < |p.body| <= s.config.maxBody {
      PushBuckets(s, a, p, mono, k);
      SweepShrinks(a.relay, s.config.ttl, p.now);
      hide PushPart, Sweep;
    } else {
      KeptFollows(a, k);
      hide StatusPart, RatePart, CommitPart;
    }
    hide Slots.Room, SlotGate, PushGuard, BucketOf, B.Consumed;
  }

  lemma DrainFollows(c: Config, a: Core, r: Relay, key: Key, now: int, drained: bool, k: Key)
    requires k in a.rates
    requires var w := Sweep(a.relay, c.ttl, now).queues;
             && w.Keys <= a.relay.queues.Keys && r.queues.Keys == (if key in r.queues then w.Keys else w.Keys - {key})
             && (drained <==> key in w && key !in r.queues)
    ensures Follows(a, AfterDrain(c, a, r, key, now, drained), k)
  {
    hide Sweep;
  }

  lemma DeliveryFollows(s: Settings, a: Core, call: Call, k: Key)
    requires forall j | j in a.relay.queues :: a.relay.queues[j] != []
    requires k in a.rates && (call.PullCall? || call.AckCall?)
    ensures Follows(a, Handle(s, a, call).0, k)
  {
    var c, r := s.config, Sweep(a.relay, s.config.ttl, call.now);
    SweepShrinks(a.relay, c.ttl, call.now);
    assert forall j | j in r.queues :: r.queues[j] != [];
    hide Sweep, Batch, Dropped, AfterDrain, Follows;
    if call.PullCall? {
      var e := PullEvent(c, call.key, call.max, call.ackMode, call.now);
      if e.Ok? {
        var (b, y) := Pull(a.relay, c.ttl, c.lease, call.key, e.value.max, PullBudget(c), call.now, e.value.mode);
        DrainFollows(c, a, b, call.key, call.now, y.drained, k);
      } else {
        KeptFollows(a, k);
      }
    } else if AckIdsOk(call.ids) {
      var (b, y) := Ack(a.relay, c.ttl, call.key, call.ids, call.now);
      DrainFollows(c, a, b, call.key, call.now, y.drained, k);
    } else {
      KeptFollows(a, k);
    }
  }

  /**
   With nothing in between, the bucket of a route goes exactly when a request removes the
   route, and otherwise only a push on the route changes it. The exception are creations,
   which keep the buckets even of the routes that their sweep removes.
   */
  lemma BucketFollowsRoute(s: Settings, a: Core, call: Call, k: Key)
    requires forall j | j in a.relay.queues :: a.relay.queues[j] != []
    requires k in a.rates && !(call.PushCall? && call.p.key == k)
    ensures var b := Handle(s, a, call).0;
            if call.CreateCall? then b.rates == a.rates else Follows(a, b, k)
  {
    if call.CreateCall? {
      CreateShape(s, a, call);
    } else if call.PushCall? {
      PushFollows(s, a, call.p, call.mono, k);
    } else if call.PullCall? || call.AckCall? {
      DeliveryFollows(s, a, call, k);
    } else if call.SweepCall? {
      SweepShrinks(a.relay, s.config.ttl, call.now);
    }
    hide Sweep, PushPart, CreatePart, PullRequest, AckPart;
  }
}

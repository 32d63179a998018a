/** Concrete runs: bounds that are attained, and the cases in which the code departs from its documents. */
module Witnesses {
  import opened Base
  import opened RelaySpec
  import opened Fates
  import opened Runs
  import opened Handlers
  import opened Limits
  import opened Interleaving
  import Conservation
  import Slots
  import RateLimits
  import B = RateBucket
  import Codec
  import R = Requests
  import Sweeps

  // --------------------------------------------------------------- two deliveries

  /** One push, and two lease pulls exactly one lease apart. */
  ghost function TwoLeases(c: Config): seq<Event> {
    [EEnqueue("r", "a", [7], 0, None), EPull("r", 1, 0, 0, Lease), EPull("r", 1, 0, c.lease, Lease)]
  }

  lemma LeasePull(c: Config, at: Option<int>, now: int)
    requires now < c.ttl && (at.Some? ==> at.value <= now)
    ensures var m := Msg(1, "a", [7], 0, at);
            var (r, y) := Step(c, Relay(map["r" := [m]], map[], 2), EPull("r", 1, 0, now, Lease));
            y.pull.items == [m] && r == Relay(map["r" := [m.(lease := Some(now + c.lease))]], map[], 2)
  {
    var m := Msg(1, "a", [7], 0, at);
    var r := Relay(map["r" := [m]], map[], 2);
    assert Edit([m], DropExpired(now - c.ttl)) == [m];
    assert Sweep(r, c.ttl, now) == r;
    assert Visible([m], now) == [m];
    assert Batch([m], 1, 0, now) == [m];
    assert Edit([m], LeaseNums({1}, now + c.lease)) == [m.(lease := Some(now + c.lease))];
    assert Nums([m]) == {1};
  }

  lemma Start(c: Config, es: seq<Event>)
    ensures Before(c, es, 0) == EMPTY
  {
    assert es[..0] == [];
  }

  lemma FirstPush(c: Config)
    requires c.maxRoutes > 0
    ensures Step(c, EMPTY, EEnqueue("r", "a", [7], 0, None)).0 ==
            Relay(map["r" := [Msg(1, "a", [7], 0, None)]], map[], 2)
  {
    var m := Msg(1, "a", [7], 0, None);
    assert |EMPTY.queues| == 0 && Queue(EMPTY, "r") + [m] == [m];
    assert Step(c, EMPTY, EEnqueue("r", "a", [7], 0, None)).0 == Admit(EMPTY, "r", "a", [7], 0);
  }

  /** The lease bound of `Conservation.DeliveriesApart` is attained. */
  lemma LeaseBoundIsAttained(c: Config)
    requires c.lease < c.ttl && c.maxRoutes > 0 && c.maxBody > 0
    ensures AllAdmissible(c, TwoLeases(c))
    ensures Conservation.HandsOut(c, TwoLeases(c), 1, 1) && Conservation.HandsOut(c, TwoLeases(c), 2, 1)
    ensures TwoLeases(c)[2].now == TwoLeases(c)[1].now + c.lease
  {
    hide Step, After;
    var es := TwoLeases(c);
    var m := Msg(1, "a", [7], 0, None);
    Start(c, es);
    Advance(c, es, 0);
    FirstPush(c);
    Advance(c, es, 1);
    LeasePull(c, None, 0);
    LeasePull(c, Some(c.lease), c.lease);
    assert m in ReplyAt(c, es, 1).pull.items;
    assert m.(lease := Some(c.lease)) in ReplyAt(c, es, 2).pull.items;
  }

  // ---------------------------------------------------------------- an idle route

  /** One push at 0, and then nothing until a status call at `d`. */
  ghost function IdleRoute(d: int): seq<Event> {
    [EEnqueue("r", "a", [7], 0, None), EStatus("r", d)]
  }

  lemma StatusOfOne(c: Config, m: Msg, d: int)
    ensures Step(c, Relay(map["r" := [m]], map[], 2), EStatus("r", d)).1.status.routeExists <==> d < m.at + c.ttl
  {
    assert Edit([m], DropExpired(d - c.ttl)) == if m.at <= d - c.ttl then [] else [m];
  }

  /** An idle route is there until the retention time of its message, however long it was idle. */
  lemma IdleRouteIsKept(c: Config, d: int)
    requires c.maxRoutes > 0 && c.maxBody > 0
    ensures AllAdmissible(c, IdleRoute(d))
    ensures ReplyAt(c, IdleRoute(d), 1).status.routeExists <==> d < c.ttl
  {
    hide Step, After;
    var es := IdleRoute(d);
    var m := Msg(1, "a", [7], 0, None);
    Start(c, es);
    Advance(c, es, 0);
    FirstPush(c);
    StatusOfOne(c, m, d);
  }

  // ------------------------------------------------------------------ a slot's use

  /** A slot is created, redeemed, and takes the one push that presents its ticket. */
  ghost function SlotUse(): seq<Event> {
    [ECreate("s", "cap", "revoke", [1], [2], 10, 0),
     ERedeem("s", 1, "ticket", h => h == "cap"),
     EEnqueue("s", "a", [7], 2, Some(h => h == "ticket"))]
  }

  lemma SlotStates(c: Config)
    requires c.maxSlots > 0
    ensures Before(c, SlotUse(), 1) == Relay(map[], map["s" := Slot(Active, 10, "cap", "revoke", [1], [2], None)], 1)
    ensures Before(c, SlotUse(), 2) ==
            Relay(map[], map["s" := Slot(Consumed, 10, "cap", "revoke", [], [], Some("ticket"))], 1)
  {
    var es := SlotUse();
    Start(c, es);
    Advance(c, es, 0);
    Advance(c, es, 1);
    hide After;
    assert Sweep(EMPTY, c.ttl, 0) == EMPTY && |EMPTY.slots| == 0;
  }

  lemma SlotIsUsed(c: Config)
    requires c.maxSlots > 0 && c.maxRoutes > 0 && c.maxBody > 0
    ensures AllAdmissible(c, SlotUse()) && Slots.SameSlot(c, SlotUse(), "s", 1, 3)
    ensures Before(c, SlotUse(), 1).slots["s"].state == Active
    ensures Slots.RedeemsAt(c, SlotUse(), "s", 1) && Slots.PushesAt(c, SlotUse(), "s", 2)
  {
    hide After;
    var es := SlotUse();
    SlotStates(c);
    Slots.RedeemCauses(c, Before(c, es, 1), es[1]);
    assert |Before(c, es, 2).queues| == 0;
    Slots.PushCauses(c, Before(c, es, 2), es[2]);
    forall n | 1 <= n < 3 ensures Slots.KeepsSlot(c, Before(c, es, n), es[n], "s") {
      assert n == 1 || n == 2;
    }
  }

  // ----------------------------------------------------- a push refused as expired

  /**
   A pusher reads its clock at 10 and asks for the status; a creator whose clock says 9
   publishes a slot on the same key that expires at 10; then the push is stored.
   */
  ghost function SkewedPush(): seq<Event> {
    [EStatus("s", 10), ECreate("s", "cap", "revoke", [1], [2], 10, 9), EEnqueue("s", "a", [7], 10, None)]
  }

  lemma ExpiredReplyHappens(c: Config)
    requires c.maxSlots > 0 && c.maxBody > 0
    ensures AllAdmissible(c, SkewedPush())
    ensures ReplyAt(c, SkewedPush(), 2).enqueue == SlotRejected(SlotExpired)
    ensures Slots.StaleSlot(c, SkewedPush(), "s", 1, 2)
  {
    var es := SkewedPush();
    Start(c, es);
    Advance(c, es, 0);
    Advance(c, es, 1);
    hide After;
    assert Sweep(EMPTY, c.ttl, 10) == EMPTY && Sweep(EMPTY, c.ttl, 9) == EMPTY && |EMPTY.slots| == 0;
  }

  // ------------------------------------------- a drop that comes too late, from the start

  function SmallPush(): Push {
    Push("r", "a", [7], 0, None)
  }

  /** A core without slots whose one route, if it has any, holds one fresh message. */
  function SmallCore(next: nat, full: bool, rates: map<Key, B.Level>, createRate: B.Level): Core
    requires next > 0
  {
    Core(Relay(if full then map["r" := [Msg(next - 1, "a", [7], 0, None)]] else map[], map[], next), rates, createRate)
  }

  lemma SmallPushSucceeds(s: Settings, next: nat, rates: map<Key, B.Level>, createRate: B.Level)
    requires next > 0 && s.config.maxRoutes > 0 && s.config.maxBody > 0
    requires if "r" in rates then rates["r"].tokens > 0 else s.push.burst > 0
    ensures PushPart(s, SmallCore(next, false, rates, createRate), SmallPush(), 0).1.PushOk?
    ensures var rates' := rates["r" := B.Consumed(s.push, BucketOf(s.push, rates, "r", 0), 0).0];
            PushPart(s, SmallCore(next, false, rates, createRate), SmallPush(), 0).0 ==
            SmallCore(next + 1, true, rates', createRate)
  {
    var r, p := Relay(map[], map[], next), SmallPush();
    assert Sweep(r, s.config.ttl, 0) == r && |r.queues| == 0 && Pruned(rates, r, r) == rates;
    hide Sweep;
    var m := Msg(next, "a", [7], 0, None);
    assert Queue(r, "r") + [m] == [m];
    assert Admit(r, p.key, p.id, p.body, p.now) == Relay(map["r" := [m]], map[], next + 1);
  }

  lemma SmallPullDrains(s: Settings, a: App, next: nat, rates: map<Key, B.Level>, createRate: B.Level)
    requires next > 0 && s.config.ttl > 0 && s.config.maxDepth > 0
    requires a.core == SmallCore(next, true, rates, createRate)
    ensures var mv := PullMove("r", None, None, 0);
            && DropsOf(s, a, mv) == [{}, {"r"}]
            && Do(s, a, mv) ==
               a.(core := SmallCore(next, false, rates, createRate), drops := a.drops + DropsOf(s, a, mv))
  {
    var m, r := Msg(next - 1, "a", [7], 0, None), a.core.relay;
    assert Edit([m], DropExpired(0 - s.config.ttl)) == [m];
    assert Sweep(r, s.config.ttl, 0) == r && Gone(r, r) == {};
    assert Visible([m], 0) == [m];
    assert Batch([m], 1, PullBudget(s.config), 0) == [m] && Nums([m]) == {m.num};
    assert Edit([m], DropNums({m.num})) == [];
    assert PullMax(s.config, 1) == 1;
    assert Put(r.queues, "r", []) == map[];
  }

  /**
   `RateLimits.LateDropHitsLiveRoute` from the initial state: a push, a pull that drains its
   route, a second push that is stored before the pull drops the bucket, and then the drop.
   */
  lemma LateDropHappens(s: Settings, start: int)
    requires s.config.ttl > 0 && s.config.maxDepth > 0 && s.config.maxRoutes > 0 && s.config.maxBody > 0
    requires s.push.burst >= 2
    ensures var stored := LonePush(s, Init(s, start), 0, SmallPush(), 0);
            var again := LonePush(s, Do(s, stored, PullMove("r", None, None, 0)), 1, SmallPush(), 0);
            var end := Do(s, Do(s, again, DropMove(0)), DropMove(0));
            "r" in end.core.relay.queues && "r" !in end.core.rates
  {
    var p, init, mv := SmallPush(), Init(s, start), PullMove("r", None, None, 0);
    hide Do, LonePush, PushPart, DropsOf;
    var level := B.Level(s.push.burst - 1, 0);
    LonePushIsHandler(s, init, 0, p, 0);
    SmallPushSucceeds(s, 1, map[], init.core.createRate);
    var a := LonePush(s, init, 0, p, 0);
    assert a.core == SmallCore(2, true, map["r" := level], init.core.createRate);
    SmallPullDrains(s, a, 2, a.core.rates, init.core.createRate);
    SmallPushSucceeds(s, 2, a.core.rates, init.core.createRate);
    RateLimits.LateDropHitsLiveRoute(s, a, mv, "r", 1, p, 0);
  }

  // --------------------------------------------- a spent bucket that outlives its route

  /** Room for everything, one push per bucket, and no refill. */
  ghost predicate OnePush(s: Settings) {
    NoZero(s) && s.push == B.Controls(1, 0)
  }

  /** A request to publish a slot under another key; both blobs are the encoding of one byte. */
  function SmallRequest(expiry: int): Option<CreateReq> {
    Some(CreateReq("s", false, "cap", false, "revoke", expiry, "AQ", "AQ"))
  }

  lemma SmallRequestDecodes()
    ensures Codec.Decoded("AQ") == Some([1])
  {
    var one: Bytes := [1];
    assert "AQ"[..1] == "A" && "A"[..0] == "" && one[..0] == [];
    assert Codec.Num64("A") == 0 && Codec.Num64("AQ") == 16 && Codec.Num256(one) == 1;
    assert Codec.TrimEnd("AQ") == "AQ" && Codec.Padding(1) == 16;
    Codec.DecodedIff("AQ", one);
  }

  function LatePush(now: int): Push {
    Push("r", "b", [8], now, None)
  }

  /** The state in which all messages are due at `now`, and no slot is in the way. */
  ghost predicate Stale(c: Config, a: Core, now: int) {
    Sweep(a.relay, c.ttl, now).queues == map[] && "r" !in a.relay.slots
  }

  lemma LatePushAnswer(s: Settings, a: Core, now: int, mono: int)
    requires OnePush(s) && Stale(s.config, a, now)
    ensures var y := PushPart(s, a, LatePush(now), mono).1;
            var kept := "r" in a.rates && "r" !in a.relay.queues;
            && (!kept ==> y == PushOk("b"))
            && (kept && a.rates["r"].tokens == 0 ==> y == RateLimited)
  {
    PushAnswers(s, a, LatePush(now), mono);
    hide PushPart;
    assert |Sweep(a.relay, s.config.ttl, now).queues| == 0;
  }

  lemma RequestFits(s: Settings, expiry: int)
    requires OnePush(s)
    ensures BlobsDecode(SmallRequest(expiry)) && BlobsFit(s.invite, SmallRequest(expiry).value)
  {
    SmallRequestDecodes();
  }

  lemma SmallCreation(s: Settings, a: Core, now: int)
    requires OnePush(s) && Stale(s.config, a, now) && a.relay.slots == map[] && a.createRate.tokens > 0
    ensures var (b, y) := CreatePart(s, a, 0, SmallRequest(now + 1), now, 0);
            && y == Ok(Created) && b.rates == a.rates && b.relay.queues == map[]
            && Stale(s.config, b, now)
  {
    hide CreatePart, Codec.Decoded, BlobsFit, Edit;
    var req := SmallRequest(now + 1);
    SmallRequestDecodes();
    CreateAnswers(s, a, 0, req, now, 0);
    CreatePublishes(s, a, 0, req, now, 0);
    RequestFits(s, now + 1);
    var slots := Sweep(a.relay, s.config.ttl, now).slots;
    assert slots == map[] && |slots| == 0;
  }

  lemma FirstPushSpends(s: Settings, start: int)
    requires OnePush(s)
    ensures var (b, y) := PushPart(s, Init(s, start).core, SmallPush(), 0);
            && y == PushOk("a") && b == SmallCore(2, true, map["r" := B.Level(0, 0)], B.Fresh(s.invite.create, start))
            && Stale(s.config, b, s.config.ttl)
  {
    SmallPushSucceeds(s, 1, map[], B.Fresh(s.invite.create, start));
    PushAnswers(s, Init(s, start).core, SmallPush(), 0);
    hide PushPart;
    var m := Msg(1, "a", [7], 0, None);
    assert Edit([m], DropExpired(s.config.ttl - s.config.ttl)) == [];
  }

  lemma TidiedIsStale(c: Config, a: Core, now: int)
    requires Stale(c, a, now)
    ensures Stale(c, R.Tidy(c, a, now), now)
    ensures "r" in a.relay.queues ==> "r" !in R.Tidy(c, a, now).rates
    ensures a.relay.slots == map[] ==> R.Tidy(c, a, now).relay.slots == map[]
    ensures R.Tidy(c, a, now).createRate == a.createRate
  {
  }

  /** The walk of both witnesses: a push, a creation when its message is due, with or without a sweep before, a push. */
  lemma Walk(s: Settings, start: int, mono: int)
    requires OnePush(s)
    ensures var ttl := s.config.ttl;
            var (pushed, y) := PushPart(s, Init(s, start).core, SmallPush(), 0);
            var tidied := R.Tidy(s.config, pushed, ttl);
            var (created, z) := CreatePart(s, pushed, 0, SmallRequest(ttl + 1), ttl, 0);
            var (swept, w) := CreatePart(s, tidied, 0, SmallRequest(ttl + 1), ttl, 0);
            && y == PushOk("a") && z == w == Ok(Created)
            && "r" in pushed.relay.queues && "r" !in created.relay.queues && "r" in created.rates
            && PushPart(s, created, LatePush(ttl), mono).1 == RateLimited
            && PushPart(s, swept, LatePush(ttl), mono).1 == PushOk("b")
  {
    hide PushPart, CreatePart, Stale, R.Tidy;
    var ttl := s.config.ttl;
    FirstPushSpends(s, start);
    var pushed := PushPart(s, Init(s, start).core, SmallPush(), 0).0;
    var tidied := R.Tidy(s.config, pushed, ttl);
    TidiedIsStale(s.config, pushed, ttl);
    SmallCreation(s, pushed, ttl);
    SmallCreation(s, tidied, ttl);
    LatePushAnswer(s, CreatePart(s, pushed, 0, SmallRequest(ttl + 1), ttl, 0).0, ttl, mono);
    LatePushAnswer(s, CreatePart(s, tidied, 0, SmallRequest(ttl + 1), ttl, 0).0, ttl, mono);
  }

  /**
   From the initial state, each request alone: a push, at the retention time of its message
   a creation under another key, and a push. The creation's sweep removed the route and
   left its spent bucket, which refuses the first push on the new route.
   */
  lemma SpentBucketOutlivesRoute(s: Settings, start: int, mono: int)
    requires OnePush(s)
    ensures var ttl := s.config.ttl;
            var pushed := LonePush(s, Init(s, start), 0, SmallPush(), 0);
            var created := Do(s, Do(s, pushed, CreateCheck(0, SmallRequest(ttl + 1), ttl, 0)), CreateMove(0));
            var end := LonePush(s, created, 1, LatePush(ttl), mono);
            && "r" in pushed.core.relay.queues && "r" !in created.core.relay.queues && "r" in created.core.rates
            && 1 in end.tasks && end.tasks[1] == Done(LatePush(ttl), RateLimited)
  {
    hide Do, LonePush, PushPart, CreatePart, OnePush, SmallPush, LatePush, SmallRequest;
    var ttl, init := s.config.ttl, Init(s, start);
    Walk(s, start, mono);
    LonePushIsHandler(s, init, 0, SmallPush(), 0);
    var pushed := LonePush(s, init, 0, SmallPush(), 0);
    LoneCreateIsHandler(s, pushed, 0, SmallRequest(ttl + 1), ttl, 0);
    var created := Do(s, Do(s, pushed, CreateCheck(0, SmallRequest(ttl + 1), ttl, 0)), CreateMove(0));
    LonePushIsHandler(s, created, 1, LatePush(ttl), mono);
  }

  /** The same requests with a background sweep before the creation. */
  ghost function SweptRun(s: Settings, mono: int): seq<R.Call> {
    var ttl := s.config.ttl;
    [R.PushCall(SmallPush(), 0), R.SweepCall(ttl), R.CreateCall(0, SmallRequest(ttl + 1), ttl, 0),
     R.PushCall(LatePush(ttl), mono)]
  }

  lemma SweptRunShape(s: Settings, mono: int)
    ensures var run := SweptRun(s, mono);
            R.Ordered(run, 0) && R.Foreground(run) == [run[0], run[2], run[3]]
  {
    var run := SweptRun(s, mono);
    var last, two, three := [run[3]], [run[2], run[3]], [run[1], run[2], run[3]];
    assert run[1..] == three && three[1..] == two && two[1..] == last && last[1..] == [];
    assert R.Foreground(last) == [last[0]] + R.Foreground(last[1..]) == last;
    assert R.Foreground(two) == [two[0]] + R.Foreground(two[1..]) == two;
    assert R.Foreground(three) == R.Foreground(three[1..]) == two;
    assert R.Foreground(run) == [run[0]] + R.Foreground(run[1..]);
    assert R.Ordered(last, s.config.ttl) && R.Ordered(two, s.config.ttl) && R.Ordered(three, 0);
  }

  lemma AnswersOfThree(s: Settings, a: Core, x: R.Call, y: R.Call, z: R.Call)
    requires !x.SweepCall? && !y.SweepCall? && !z.SweepCall?
    ensures var (b, first) := R.Handle(s, a, x);
            var (c, second) := R.Handle(s, b, y);
            R.Answers(s, a, [x, y, z]) == [R.Told(first), R.Told(second), R.Told(R.Handle(s, c, z).1)]
  {
    hide R.Handle, R.Told;
    assert [x, y, z][1..] == [y, z] && [y, z][1..] == [z];
    var c := R.Handle(s, R.Handle(s, a, x).0, y).0;
    assert R.Answers(s, c, [z]) == [R.Told(R.Handle(s, c, z).1)] + R.Answers(s, R.Handle(s, c, z).0, []);
  }

  lemma AnswersOfSwept(s: Settings, a: Core, run: seq<R.Call>)
    requires |run| == 4 && run[1].SweepCall? && !run[0].SweepCall? && !run[2].SweepCall? && !run[3].SweepCall?
    ensures var (b, first) := R.Handle(s, a, run[0]);
            var (d, third) := R.Handle(s, R.Handle(s, b, run[1]).0, run[2]);
            R.Answers(s, a, run) == [R.Told(first), R.Told(third), R.Told(R.Handle(s, d, run[3]).1)]
  {
    hide R.Handle, R.Told;
    var b := R.Handle(s, R.Handle(s, a, run[0]).0, run[1]).0;
    assert run[1..][1..] == [run[2], run[3]] && [run[2], run[3]][1..] == [run[3]];
    var d := R.Handle(s, b, run[2]).0;
    assert R.Answers(s, d, [run[3]]) == [R.Told(R.Handle(s, d, run[3]).1)] + R.Answers(s, R.Handle(s, d, run[3]).0, []);
    assert R.Answers(s, b, [run[2], run[3]]) == [R.Told(R.Handle(s, b, run[2]).1)] + R.Answers(s, d, [run[3]]);
  }

  lemma PushAnswer(s: Settings, a: Core, p: Push, mono: int)
    ensures var (b, y) := PushPart(s, a, p, mono);
            R.Handle(s, a, R.PushCall(p, mono)) == (b, R.APush(y)) && R.Told(R.APush(y)) == R.APush(y)
  {
    hide PushPart;
  }

  lemma CreateAnswer(s: Settings, a: Core, req: Option<CreateReq>, now: int)
    ensures var (b, y) := CreatePart(s, a, 0, req, now, 0);
            R.Handle(s, a, R.CreateCall(0, req, now, 0)) == (b, R.ACreate(y)) && R.Told(R.ACreate(y)) == R.ACreate(y)
  {
    hide CreatePart;
  }

  lemma SweepAnswer(s: Settings, a: Core, now: int)
    ensures R.Handle(s, a, R.SweepCall(now)).0 == R.Tidy(s.config, a, now)
  {
  }

  /** A background sweep that clients can tell: with it the last push succeeds, without it that push is refused. */
  lemma SweepCanBeTold(s: Settings, start: int, mono: int)
    requires OnePush(s)
    ensures var a, run := Init(s, start).core, SweptRun(s, mono);
            && R.Ordered(run, 0)
            && R.Answers(s, a, run) == [R.APush(PushOk("a")), R.ACreate(Ok(Created)), R.APush(PushOk("b"))]
            && R.Answers(s, a, R.Foreground(run)) ==
               [R.APush(PushOk("a")), R.ACreate(Ok(Created)), R.APush(RateLimited)]
  {
    hide R.Handle, R.Answers, R.Told, R.Tidy, R.Ordered, R.Foreground, PushPart, CreatePart, OnePush;
    hide SmallPush, LatePush, SmallRequest, Init;
    var a, ttl, run := Init(s, start).core, s.config.ttl, SweptRun(s, mono);
    var req := SmallRequest(ttl + 1);
    SweptRunShape(s, mono);
    AnswersOfThree(s, a, run[0], run[2], run[3]);
    AnswersOfSwept(s, a, run);
    Walk(s, start, mono);
    var pushed := PushPart(s, a, SmallPush(), 0).0;
    var tidied := R.Tidy(s.config, pushed, ttl);
    SweepAnswer(s, pushed, ttl);
    PushAnswer(s, a, SmallPush(), 0);
    CreateAnswer(s, pushed, req, ttl);
    CreateAnswer(s, tidied, req, ttl);
    PushAnswer(s, CreatePart(s, pushed, 0, req, ttl, 0).0, LatePush(ttl), mono);
    PushAnswer(s, CreatePart(s, tidied, 0, req, ttl, 0).0, LatePush(ttl), mono);
  }
}

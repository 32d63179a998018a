/**
 Any number of clients at once, each between any two of its steps: a transaction
 of the store, or one use of the locked bucket map. A request alone acts like its
 handler, and each interleaving is a run of the store, so all that is proved of
 runs holds of it.
 */
module Interleaving {
  import opened Base
  import opened RelaySpec
  import opened Fates
  import opened Runs
  import opened Handlers
  import opened Limits
  import B = RateBucket
  import Conservation

  /** Where one push request stands. */
  datatype Task =
    | Checking(p: Push)
    | Pruning(p: Push, removed: set<Key>, refused: Option<PushAnswer>)
    | AtGate(p: Push)
    | Committing(p: Push)
    | Releasing(p: Push)
    | Done(p: Push, answer: PushAnswer)

  /**
   Besides the pushes: creation requests that passed their checks, and the buckets that
   requests whose transaction has committed are still about to drop.
   */
  datatype App = App(core: Core, tasks: map<nat, Task>, creates: seq<Event>, drops: seq<set<Key>>)

  /** One atomic action of a client or of the background sweep: a transaction, or a use of the bucket map. */
  datatype Move =
    | Begin(task: nat, p: Push)
    | Advise(task: nat)
    | Prune(task: nat)
    | TakeToken(task: nat, mono: int)
    | Commit(task: nat)
    | Release(task: nat)
    | PullMove(key: Key, max: Option<nat>, ackMode: Option<string>, now: int)
    | AckMove(key: Key, ids: seq<string>, now: int)
    | CreateCheck(bodyLen: nat, req: Option<CreateReq>, now: int, mono: int)
    | CreateMove(n: nat)
    | RedeemMove(key: Key, now: int, ticketHash: Hash, verify: Hash -> bool)
    | RevokeMove(key: Key, now: int, verify: Hash -> bool)
    | SweepMove(now: int)
    | DropMove(n: nat)

  ghost function Init(s: Settings, start: int): App {
    App(Core(EMPTY, map[], B.Fresh(s.invite.create, start)), map[], [], [])
  }

  function EnqueueEvent(p: Push): Event {
    EEnqueue(p.key, p.id, p.body, p.now, p.ticket)
  }

  /** The store operation a move performs, if it performs one. */
  ghost function EventOf(s: Settings, a: App, mv: Move): Option<Event> {
    match mv
    case Advise(t) =>
      if t in a.tasks && a.tasks[t].Checking? then Some(EStatus(a.tasks[t].p.key, a.tasks[t].p.now)) else None
    case Commit(t) =>
      if t in a.tasks && a.tasks[t].Committing? then Some(EnqueueEvent(a.tasks[t].p)) else None
    case PullMove(key, max, ackMode, now) =>
      var e := PullEvent(s.config, key, max, ackMode, now);
      if e.Ok? then Some(e.value) else None
    case AckMove(key, ids, now) => if AckIdsOk(ids) then Some(EAck(key, ids, now)) else None
    case CreateMove(n) => if n < |a.creates| then Some(a.creates[n]) else None
    case RedeemMove(key, now, ticketHash, verify) => Some(ERedeem(key, now, ticketHash, verify))
    case RevokeMove(key, now, verify) => Some(ERevoke(key, now, verify))
    case SweepMove(now) => Some(ESweep(now))
    case _ => None
  }

  /** The buckets that a move drops: those its request has been waiting to drop. */
  ghost function DropsNow(a: App, mv: Move): set<Key> {
    match mv
    case Prune(t) => if t in a.tasks && a.tasks[t].Pruning? then a.tasks[t].removed else {}
    case Release(t) => if t in a.tasks && a.tasks[t].Releasing? then {a.tasks[t].p.key} else {}
    case DropMove(n) => if n < |a.drops| then a.drops[n] else {}
    case _ => {}
  }

  ghost function CoreAfter(s: Settings, a: App, mv: Move): Core {
    var c := s.config;
    match mv
    case Advise(t) =>
      if t in a.tasks && a.tasks[t].Checking?
      then a.core.(relay := Sweep(a.core.relay, c.ttl, a.tasks[t].p.now)) else a.core
    case TakeToken(t, mono) =>
      if t in a.tasks && a.tasks[t].AtGate? then RatePart(s.push, a.core, a.tasks[t].p.key, mono).0 else a.core
    case Commit(t) =>
      if t in a.tasks && a.tasks[t].Committing?
      then a.core.(relay := CommitPart(c, a.core, a.tasks[t].p).0.relay) else a.core
    case PullMove(key, max, ackMode, now) =>
      var e := PullEvent(c, key, max, ackMode, now);
      if e.Ok? then a.core.(relay := PullPart(c, a.core, key, e.value.max, e.value.mode, now).0.relay) else a.core
    case AckMove(key, ids, now) => a.core.(relay := AckPart(c, a.core, key, ids, now).0.relay)
    case CreateCheck(bodyLen, req, now, mono) =>
      a.core.(createRate := CreateGate(s.invite, a.core.createRate, bodyLen, req, now, mono).0)
    case CreateMove(n) =>
      if n < |a.creates| then a.core.(relay := Step(c, a.core.relay, a.creates[n]).0) else a.core
    case RedeemMove(key, now, ticketHash, verify) =>
      a.core.(relay := Redeem(a.core.relay, key, now, ticketHash, verify).0)
    case RevokeMove(key, now, verify) => a.core.(relay := Revoke(a.core.relay, key, verify).0)
    case SweepMove(now) => a.core.(relay := Sweep(a.core.relay, c.ttl, now))
    case _ => a.core.(rates := a.core.rates - DropsNow(a, mv))
  }

  function AfterChecks(p: Push, refused: Option<PushAnswer>): Task {
    if refused.Some? then Done(p, refused.value) else AtGate(p)
  }

  ghost function TasksAfter(s: Settings, a: App, mv: Move): map<nat, Task> {
    var c := s.config;
    match mv
    case Begin(t, p) =>
      if t in a.tasks then a.tasks
      else
        var refused := PushGuard(c, p);
        a.tasks[t := if refused.Some? then Done(p, refused.value) else Checking(p)]
    case Advise(t) =>
      if t in a.tasks && a.tasks[t].Checking? then
        var p := a.tasks[t].p;
        var r := Sweep(a.core.relay, c.ttl, p.now);
        a.tasks[t := Pruning(p, Gone(a.core.relay, r), StatusAnswer(c, StatusOf(r, p.key)))]
      else a.tasks
    case Prune(t) =>
      if t in a.tasks && a.tasks[t].Pruning?
      then a.tasks[t := AfterChecks(a.tasks[t].p, a.tasks[t].refused)] else a.tasks
    case TakeToken(t, mono) =>
      if t in a.tasks && a.tasks[t].AtGate? then
        var p := a.tasks[t].p;
        var y := RatePart(s.push, a.core, p.key, mono).1;
        a.tasks[t := if y.Some? then Done(p, y.value) else Committing(p)]
      else a.tasks
    case Commit(t) =>
      if t in a.tasks && a.tasks[t].Committing? then
        var p := a.tasks[t].p;
        var y := CommitPart(c, a.core, p).1;
        a.tasks[t := if y.RoutesFull? then Releasing(p) else Done(p, y)]
      else a.tasks
    case Release(t) =>
      if t in a.tasks && a.tasks[t].Releasing? then a.tasks[t := Done(a.tasks[t].p, RoutesFull)] else a.tasks
    case _ => a.tasks
  }

  ghost function CreatesAfter(s: Settings, a: App, mv: Move): seq<Event> {
    match mv
    case CreateCheck(bodyLen, req, now, mono) =>
      var gate := CreateGate(s.invite, a.core.createRate, bodyLen, req, now, mono).1;
      if gate.Ok? then a.creates + [gate.value] else a.creates
    case CreateMove(n) => if n < |a.creates| then a.creates[..n] + a.creates[n + 1..] else a.creates
    case _ => a.creates
  }

  /** The buckets that the request behind a move will drop once its transaction has committed. */
  ghost function DropsOf(s: Settings, a: App, mv: Move): seq<set<Key>> {
    var c, r := s.config, a.core.relay;
    match mv
    case PullMove(key, max, ackMode, now) =>
      var e := PullEvent(c, key, max, ackMode, now);
      if e.Ok? then
        [Gone(r, Sweep(r, c.ttl, now)),
         if Pull(r, c.ttl, c.lease, key, e.value.max, e.value.budget, now, e.value.mode).1.drained then {key} else {}]
      else []
    case AckMove(key, ids, now) =>
      if AckIdsOk(ids)
      then [Gone(r, Sweep(r, c.ttl, now)), if Ack(r, c.ttl, key, ids, now).1.drained then {key} else {}]
      else []
    case SweepMove(now) => [Gone(r, Sweep(r, c.ttl, now))]
    case _ => []
  }

  ghost function DropsAfter(s: Settings, a: App, mv: Move): seq<set<Key>> {
    if mv.DropMove? then
      if mv.n < |a.drops| then a.drops[..mv.n] + a.drops[mv.n + 1..] else a.drops
    else a.drops + DropsOf(s, a, mv)
  }

  ghost function Do(s: Settings, a: App, mv: Move): App {
    App(CoreAfter(s, a, mv), TasksAfter(s, a, mv), CreatesAfter(s, a, mv), DropsAfter(s, a, mv))
  }

  ghost function Play(s: Settings, start: int, moves: seq<Move>): App {
    if moves == [] then Init(s, start) else Do(s, Play(s, start, moves[..|moves| - 1]), moves[|moves| - 1])
  }

  /** The store operations of an interleaving, in the order in which they take effect. */
  ghost function Trace(s: Settings, start: int, moves: seq<Move>): seq<Event> {
    if moves == [] then []
    else
      var before := moves[..|moves| - 1];
      var e := EventOf(s, Play(s, start, before), moves[|moves| - 1]);
      Trace(s, start, before) + (if e.Some? then [e.value] else [])
  }

  // ------------------------------------------- a request alone is its handler

  /** The first moves of a push with nothing in between; a move that is not its turn does nothing. */
  ghost function LoneCheck(s: Settings, a: App, t: nat, p: Push): App {
    Do(s, Do(s, Do(s, a, Begin(t, p)), Advise(t)), Prune(t))
  }

  ghost function LoneCommit(s: Settings, a: App, t: nat): App {
    Do(s, Do(s, a, Commit(t)), Release(t))
  }

  /** All moves of one push with nothing in between. */
  ghost function LonePush(s: Settings, a: App, t: nat, p: Push, mono: int): App {
    LoneCommit(s, Do(s, LoneCheck(s, a, t, p), TakeToken(t, mono)), t)
  }

  lemma LoneCheckIsHandler(s: Settings, a: App, t: nat, p: Push)
    requires t !in a.tasks
    ensures var refused := PushGuard(s.config, p);
            var (core, full) := StatusPart(s.config, a.core, p.key, p.now);
            LoneCheck(s, a, t, p) ==
              if refused.Some? then a.(tasks := a.tasks[t := Done(p, refused.value)])
              else a.(core := core, tasks := a.tasks[t := AfterChecks(p, full)])
  {
    hide Sweep, StatusAnswer, StatusOf, Gone;
  }

  lemma LoneCommitIsHandler(s: Settings, a: App, t: nat)
    requires t in a.tasks && (a.tasks[t].Committing? || a.tasks[t].Done?)
    ensures LoneCommit(s, a, t) ==
            if a.tasks[t].Done? then a
            else
              var (core, answer) := CommitPart(s.config, a.core, a.tasks[t].p);
              a.(core := core, tasks := a.tasks[t := Done(a.tasks[t].p, answer)])
  {
    hide EnqueueReply, Admit;
  }

  lemma LoneTokenIsHandler(s: Settings, a: App, t: nat, mono: int)
    requires t in a.tasks && (a.tasks[t].AtGate? || a.tasks[t].Done?)
    ensures Do(s, a, TakeToken(t, mono)) ==
            if a.tasks[t].Done? then a
            else
              var p := a.tasks[t].p;
              var (core, limited) := RatePart(s.push, a.core, p.key, mono);
              a.(core := core, tasks := a.tasks[t := if limited.Some? then Done(p, limited.value) else Committing(p)])
  {
    hide B.Consumed, BucketOf;
  }

  lemma LonePushIsHandler(s: Settings, a: App, t: nat, p: Push, mono: int)
    requires t !in a.tasks
    ensures var (core, answer) := PushPart(s, a.core, p, mono);
            LonePush(s, a, t, p, mono) == a.(core := core, tasks := a.tasks[t := Done(p, answer)])
  {
    hide LoneCheck, LoneCommit, StatusPart, RatePart, CommitPart, PushGuard, Do;
    LoneCheckIsHandler(s, a, t, p);
    var checked := LoneCheck(s, a, t, p);
    LoneTokenIsHandler(s, checked, t, mono);
    LoneCommitIsHandler(s, Do(s, checked, TakeToken(t, mono)), t);
  }

  /** A pull or an ack, and then the buckets it drops. */
  ghost function LoneDelivery(s: Settings, a: App, mv: Move): App {
    Do(s, Do(s, Do(s, a, mv), DropMove(|a.drops|)), DropMove(|a.drops|))
  }

  lemma DroppedInTurn(s: Settings, a: App, b: App, first: set<Key>, second: set<Key>)
    requires b.drops == a.drops + [first, second]
    ensures Do(s, Do(s, b, DropMove(|a.drops|)), DropMove(|a.drops|)) ==
            b.(core := b.core.(rates := b.core.rates - first - second), drops := a.drops)
  {
    var n := |a.drops|;
    var d := Do(s, b, DropMove(n));
    assert d.drops == a.drops + [second];
    assert Do(s, d, DropMove(n)).drops == a.drops;
  }

  lemma LoneDeliveryIsHandler(s: Settings, a: App, mv: Move)
    requires mv.PullMove? || mv.AckMove?
    ensures LoneDelivery(s, a, mv).core ==
            match mv
            case PullMove(key, max, ackMode, now) =>
              var e := PullEvent(s.config, key, max, ackMode, now);
              if e.Ok? then PullPart(s.config, a.core, key, e.value.max, e.value.mode, now).0 else a.core
            case AckMove(key, ids, now) => AckPart(s.config, a.core, key, ids, now).0
            case _ => a.core
    ensures LoneDelivery(s, a, mv) == a.(core := LoneDelivery(s, a, mv).core)
  {
    var b := Do(s, a, mv);
    hide Sweep, Pull, Ack;
    if EventOf(s, a, mv).Some? {
      var ds := DropsOf(s, a, mv);
      assert ds == [ds[0], ds[1]];
      DroppedInTurn(s, a, b, ds[0], ds[1]);
      hide Do;
      assert b.drops == a.drops + ds;
    } else {
      assert b == a;
    }
  }

  lemma LoneCreateIsHandler(s: Settings, a: App, bodyLen: nat, req: Option<CreateReq>, now: int, mono: int)
    ensures Do(s, Do(s, a, CreateCheck(bodyLen, req, now, mono)), CreateMove(|a.creates|)) ==
            a.(core := CreatePart(s, a.core, bodyLen, req, now, mono).0)
  {
    var b := Do(s, a, CreateCheck(bodyLen, req, now, mono));
    var d := Do(s, b, CreateMove(|a.creates|));
    hide Create, B.Consumed, CreateGuard;
    assert d.creates == a.creates;
  }

  // ---------------------------------------------------- an interleaving is a run

  /** A push past its first checks carries a body of legal size, and a waiting creation has passed its own. */
  ghost predicate TasksOk(c: Config, a: App) {
    && (forall t | t in a.tasks && !a.tasks[t].Done? :: 0 < |a.tasks[t].p.body| <= c.maxBody)
    && (forall t | t in a.tasks && a.tasks[t].Pruning? && a.tasks[t].refused.Some? :: !a.tasks[t].refused.value.PushOk?)
    && (forall e | e in a.creates :: e.ECreate? && Admissible(c, e))
  }

  lemma MoveKeepsPushes(s: Settings, a: App, mv: Move)
    requires TasksOk(s.config, a)
    ensures var tasks := TasksAfter(s, a, mv);
            && (forall t | t in tasks && !tasks[t].Done? :: 0 < |tasks[t].p.body| <= s.config.maxBody)
            && (forall t | t in tasks && tasks[t].Pruning? && tasks[t].refused.Some? :: !tasks[t].refused.value.PushOk?)
  {
    hide RatePart, CommitPart, Sweep, StatusOf;
  }

  lemma MoveKeepsCreates(s: Settings, a: App, mv: Move)
    requires TasksOk(s.config, a) && s.invite.maxExpirySecs > 0
    ensures forall e | e in CreatesAfter(s, a, mv) :: e.ECreate? && Admissible(s.config, e)
  {
    hide CreateGuard, B.Consumed;
  }

  lemma MoveKeepsTasks(s: Settings, a: App, mv: Move)
    requires TasksOk(s.config, a) && s.invite.maxExpirySecs > 0
    ensures TasksOk(s.config, Do(s, a, mv))
  {
    MoveKeepsPushes(s, a, mv);
    MoveKeepsCreates(s, a, mv);
    hide CoreAfter, TasksAfter, CreatesAfter, DropsAfter, Admissible;
  }

  lemma PushMoveIsStep(s: Settings, a: App, mv: Move)
    requires TasksOk(s.config, a) && (mv.Advise? || mv.Commit?)
    ensures var e := EventOf(s, a, mv);
            if e.None? then CoreAfter(s, a, mv).relay == a.core.relay
            else Admissible(s.config, e.value) && CoreAfter(s, a, mv).relay == Step(s.config, a.core.relay, e.value).0
  {
    hide Sweep, EnqueueReply, Admit;
  }

  lemma DeliveryMoveIsStep(s: Settings, a: App, mv: Move)
    requires mv.PullMove? || mv.AckMove?
    ensures var e := EventOf(s, a, mv);
            if e.None? then CoreAfter(s, a, mv).relay == a.core.relay
            else Admissible(s.config, e.value) && CoreAfter(s, a, mv).relay == Step(s.config, a.core.relay, e.value).0
  {
    hide Pull, Ack, Sweep;
  }

  lemma OtherMoveIsStep(s: Settings, a: App, mv: Move)
    requires TasksOk(s.config, a) && !mv.Advise? && !mv.Commit? && !mv.PullMove? && !mv.AckMove?
    ensures var e := EventOf(s, a, mv);
            if e.None? then CoreAfter(s, a, mv).relay == a.core.relay
            else Admissible(s.config, e.value) && CoreAfter(s, a, mv).relay == Step(s.config, a.core.relay, e.value).0
  {
    hide Redeem, Revoke, Sweep, Create, B.Consumed, CreateGate;
    if mv.CreateMove? {
      hide Step;
      assert mv.n < |a.creates| ==> a.creates[mv.n] in a.creates;
    }
  }

  /** A move performs its store operation on the relay, and nothing else. */
  lemma MoveIsStep(s: Settings, a: App, mv: Move)
    requires TasksOk(s.config, a) && s.invite.maxExpirySecs > 0
    ensures var e := EventOf(s, a, mv);
            if e.None? then Do(s, a, mv).core.relay == a.core.relay
            else Admissible(s.config, e.value) && Do(s, a, mv).core.relay == Step(s.config, a.core.relay, e.value).0
    ensures TasksOk(s.config, Do(s, a, mv))
  {
    MoveKeepsTasks(s, a, mv);
    hide Step, CoreAfter, TasksAfter, CreatesAfter, DropsAfter, EventOf, TasksOk, Admissible;
    if mv.Advise? || mv.Commit? {
      PushMoveIsStep(s, a, mv);
    } else if mv.PullMove? || mv.AckMove? {
      DeliveryMoveIsStep(s, a, mv);
    } else {
      OtherMoveIsStep(s, a, mv);
    }
  }

  lemma RunExtends(c: Config, es: seq<Event>, e: Option<Event>)
    requires AllAdmissible(c, es) && (e.Some? ==> Admissible(c, e.value))
    ensures var more := es + (if e.Some? then [e.value] else []);
            && AllAdmissible(c, more)
            && After(c, more) == if e.Some? then Step(c, After(c, es), e.value).0 else After(c, es)
  {
    hide Step, Admissible;
    if e.Some? {
      assert (es + [e.value])[..|es|] == es;
    } else {
      assert es + [] == es;
    }
  }

  /** Every interleaving of requests is a run of store operations with checked arguments. */
  lemma {:induction false} InterleavingIsRun(s: Settings, start: int, moves: seq<Move>)
    requires s.invite.maxExpirySecs > 0
    ensures Play(s, start, moves).core.relay == After(s.config, Trace(s, start, moves))
    ensures AllAdmissible(s.config, Trace(s, start, moves))
    ensures TasksOk(s.config, Play(s, start, moves))
  {
    if moves == [] {
    } else {
      hide Do, Step, EventOf, TasksOk, Admissible, After, AllAdmissible;
      var before, mv := moves[..|moves| - 1], moves[|moves| - 1];
      InterleavingIsRun(s, start, before);
      MoveIsStep(s, Play(s, start, before), mv);
      RunExtends(s.config, Trace(s, start, before), EventOf(s, Play(s, start, before), mv));
    }
  }

  /** Bounds under races: the caps hold in every reachable state, although the first check of a push is stale. */
  lemma CapsHoldUnderRaces(s: Settings, start: int, moves: seq<Move>)
    requires s.invite.maxExpirySecs > 0 && s.config.maxDepth > 0
    ensures Bounded(s.config, Play(s, start, moves).core.relay)
    ensures StoredBytes(Play(s, start, moves).core.relay.queues)
            <= s.config.maxRoutes * (s.config.maxDepth * s.config.maxBody)
  {
    var es := Trace(s, start, moves);
    InterleavingIsRun(s, start, moves);
    RunBounded(s.config, es, |es|);
    RunBytes(s.config, es, |es|);
    assert es[..|es|] == es;
  }

  /** The operation `i` of the trace is the accepted enqueue of push `p`. */
  ghost predicate StoredBy(c: Config, es: seq<Event>, p: Push, i: nat) {
    i < |es| && es[i] == EnqueueEvent(p) && Conservation.AcceptedAt(c, es, i)
  }

  ghost predicate Succeeded(a: App, t: nat) {
    t in a.tasks && a.tasks[t].Done? && a.tasks[t].answer.PushOk?
  }

  /** A push succeeds only in its own commit, which stores it, and a success is final. */
  lemma CommitStores(s: Settings, a: App, mv: Move, t: nat)
    requires TasksOk(s.config, a)
    ensures Succeeded(a, t) ==> Succeeded(Do(s, a, mv), t) && Do(s, a, mv).tasks[t] == a.tasks[t]
    ensures Succeeded(Do(s, a, mv), t) && !Succeeded(a, t) ==>
              var now := Do(s, a, mv).tasks[t];
              && mv == Commit(t) && now.answer.id == now.p.id
              && EventOf(s, a, mv) == Some(EnqueueEvent(now.p))
              && Step(s.config, a.core.relay, EnqueueEvent(now.p)).1.enqueue == Accepted
  {
    hide CoreAfter, CreatesAfter, DropsAfter, Sweep, StatusOf, EnqueueReply, Admit, B.Consumed;
  }

  /** An accepted enqueue is the commit of a push that now succeeds. */
  lemma StoredSucceeds(s: Settings, a: App, mv: Move)
    requires TasksOk(s.config, a)
    requires var e := EventOf(s, a, mv);
             e.Some? && e.value.EEnqueue? && Step(s.config, a.core.relay, e.value).1.enqueue == Accepted
    ensures mv.Commit? && Succeeded(Do(s, a, mv), mv.task) && !Succeeded(a, mv.task)
  {
    hide CoreAfter, CreatesAfter, DropsAfter, EnqueueReply, Admit;
  }

  lemma PrefixStored(c: Config, es: seq<Event>, more: seq<Event>)
    ensures forall p, i | StoredBy(c, es, p, i) :: StoredBy(c, es + more, p, i)
    ensures forall i: nat | i < |es| :: Conservation.AcceptedAt(c, es + more, i) <==> Conservation.AcceptedAt(c, es, i)
  {
    hide After, Step;
    assert forall i | 0 <= i <= |es| :: (es + more)[..i] == es[..i];
  }

  lemma LastStored(c: Config, es: seq<Event>, e: Event)
    ensures Conservation.AcceptedAt(c, es + [e], |es|) <==>
            e.EEnqueue? && Step(c, After(c, es), e).1.enqueue == Accepted
  {
    hide After, Step;
    assert (es + [e])[..|es|] == es;
  }

  /** `at` pairs the successful pushes one to one with the accepted enqueues of the trace. */
  ghost predicate Matching(c: Config, es: seq<Event>, a: App, at: map<nat, nat>) {
    && (forall t :: t in at <==> Succeeded(a, t))
    && (forall t | t in at :: StoredBy(c, es, a.tasks[t].p, at[t]))
    && (forall t, u | t in at && u in at && t != u :: at[t] != at[u])
    && (forall i: nat | i < |es| && Conservation.AcceptedAt(c, es, i) :: exists t :: t in at && at[t] == i)
  }

  lemma MatchingStep(s: Settings, a: App, mv: Move, es: seq<Event>, at: map<nat, nat>) returns (at': map<nat, nat>)
    requires TasksOk(s.config, a) && a.core.relay == After(s.config, es) && Matching(s.config, es, a, at)
    ensures var e := EventOf(s, a, mv);
            Matching(s.config, es + (if e.Some? then [e.value] else []), Do(s, a, mv), at')
  {
    hide Step, After, EventOf, Do, TasksOk, Conservation.AcceptedAt;
    var e, a' := EventOf(s, a, mv), Do(s, a, mv);
    var more := if e.Some? then [e.value] else [];
    PrefixStored(s.config, es, more);
    forall t ensures Succeeded(a, t) ==> Succeeded(a', t) && a'.tasks[t] == a.tasks[t] {
      CommitStores(s, a, mv, t);
    }
    if e.Some? {
      LastStored(s.config, es, e.value);
    }
    forall t | Succeeded(a', t) && !Succeeded(a, t)
      ensures mv == Commit(t) && StoredBy(s.config, es + more, a'.tasks[t].p, |es|)
    {
      CommitStores(s, a, mv, t);
    }
    if e.Some? && e.value.EEnqueue? && Step(s.config, a.core.relay, e.value).1.enqueue == Accepted {
      StoredSucceeds(s, a, mv);
      at' := at[mv.task := |es|];
    } else {
      at' := at;
    }
  }

  /**
   A success reply means stored: the pushes answered with success and the accepted enqueues
   of the trace correspond one to one, so two successes are never one stored message, and
   nothing is stored for a push that is told otherwise.
   */
  lemma {:induction false} SuccessMeansStored(s: Settings, start: int, moves: seq<Move>) returns (at: map<nat, nat>)
    requires s.invite.maxExpirySecs > 0
    ensures Matching(s.config, Trace(s, start, moves), Play(s, start, moves), at)
    decreases |moves|
  {
    if moves == [] {
      at := map[];
    } else {
      var before, mv := moves[..|moves| - 1], moves[|moves| - 1];
      var was := SuccessMeansStored(s, start, before);
      InterleavingIsRun(s, start, before);
      hide Do, EventOf, Matching, After, TasksOk, Admissible;
      at := MatchingStep(s, Play(s, start, before), mv, Trace(s, start, before), was);
    }
  }

  /**
   No success is lost: at the end of any interleaving, the messages whose pushes were
   answered with success, each its own, are still queued, or left the store once, for one
   reason.
   */
  lemma SuccessIsConserved(s: Settings, start: int, moves: seq<Move>) returns (at: map<nat, nat>)
    requires s.invite.maxExpirySecs > 0
    ensures Matching(s.config, Trace(s, start, moves), Play(s, start, moves), at)
    ensures var c, es := s.config, Trace(s, start, moves);
            forall t | t in at ::
              && StoredBy(c, es, Play(s, start, moves).tasks[t].p, at[t])
              && (|| Conservation.StillThere(c, es, at[t], |es|)
                  || exists j, f :: Conservation.LeftOnce(c, es, at[t], |es|, j, f))
  {
    at := SuccessMeansStored(s, start, moves);
    InterleavingIsRun(s, start, moves);
    var c, es := s.config, Trace(s, start, moves);
    hide Play, Trace, After;
    forall t | t in at
      ensures StoredBy(c, es, Play(s, start, moves).tasks[t].p, at[t])
      ensures || Conservation.StillThere(c, es, at[t], |es|)
              || exists j, f :: Conservation.LeftOnce(c, es, at[t], |es|, j, f)
    {
      Conservation.AcceptedIsConserved(c, es, at[t], |es|);
    }
  }

  /**
   The first check is only advice: with one place left on a route, two pushes can both
   pass it, and then exactly the one that commits first is stored.
   */
  lemma AdviceIsNotEnough(c: Config, a: Core, p: Push, q: Push)
    requires p.key == q.key && p.now == q.now && p.key in a.relay.queues && p.key !in a.relay.slots
    requires Sweep(a.relay, c.ttl, p.now) == a.relay && |a.relay.queues[p.key]| + 1 == c.maxDepth
    ensures var first := StatusPart(c, a, p.key, p.now);
            var second := StatusPart(c, first.0, q.key, q.now);
            var stored := CommitPart(c, second.0, p);
            var refused := CommitPart(c, stored.0, q);
            && first.1 == None && second.1 == None
            && stored.1 == PushOk(p.id) && refused.1 == QueueFull
            && refused.0.relay == stored.0.relay && |refused.0.relay.queues[p.key]| == c.maxDepth
  {
  }
}

/**
 The store as the source keeps it: flat `messages`, `routes` and `invites`
 tables, changed statement by statement inside a transaction. A transaction
 works on the local copy `tx`; `db := tx` is its commit, and returning without
 that assignment is its rollback. Every operation is proved to be the step of
 `RelaySpec` of the same name.
 */
module DurableStore {
  import opened Base
  import opened RelaySpec
  import opened QueueLemmas

  datatype Row = Row(key: Key, msg: Msg)

  /** `messages` is in primary-key order; `next` is the AUTOINCREMENT counter. */
  datatype Tables = Tables(messages: seq<Row>, routes: set<Key>, invites: map<Key, Slot>, next: nat)

  datatype StoredMsg = StoredMsg(msgId: string, body: Bytes)

  datatype SweepStats = SweepStats(expiredMessages: nat, removedRoutes: set<Key>, expiredInvites: nat)

  // -------------------------------------------------------- rows and statements

  /** SELECT ... FROM messages WHERE route_key = k ORDER BY seq. */
  function OnRoute(rows: seq<Row>, k: Key): seq<Msg> {
    if rows == [] then []
    else
      var rest := OnRoute(rows[1..], k);
      if rows[0].key == k then [rows[0].msg] + rest else rest
  }

  /** An UPDATE or DELETE on messages, restricted to one route when `scope` names it. */
  function EditRows(rows: seq<Row>, scope: Option<Key>, ch: Change): seq<Row> {
    if rows == [] then []
    else
      var rest := EditRows(rows[1..], scope, ch);
      if scope.Some? && scope.value != rows[0].key then [rows[0]] + rest
      else
        match Apply(ch, rows[0].msg)
        case None => rest
        case Some(m) => [Row(rows[0].key, m)] + rest
  }

  /** DELETE FROM routes WHERE NOT EXISTS (a message on the route). */
  function UsedRoutes(t: Tables): set<Key> {
    set k | k in t.routes && OnRoute(t.messages, k) != []
  }

  function Wire(q: seq<Msg>): seq<StoredMsg> {
    seq(|q|, i requires 0 <= i < |q| => StoredMsg(q[i].id, q[i].body))
  }

  // -------------------------------------------- invariant and abstraction function

  ghost predicate AscendingRows(rows: seq<Row>) {
    forall i, j :: 0 <= i < j < |rows| ==> rows[i].msg.num < rows[j].msg.num
  }

  /** Numbers are unique and below the counter; a route row exists iff it has messages. */
  ghost predicate Coherent(t: Tables) {
    && AscendingRows(t.messages)
    && (forall r | r in t.messages :: r.msg.num < t.next && r.key in t.routes)
    && (forall k | k in t.routes :: OnRoute(t.messages, k) != [])
  }

  ghost function Abs(t: Tables): Relay {
    Relay(map k | k in t.routes :: OnRoute(t.messages, k), t.invites, t.next)
  }

  lemma {:induction false} OnRouteFrom(rows: seq<Row>, k: Key, m: Msg)
    ensures m in OnRoute(rows, k) <==> Row(k, m) in rows
  {
    if rows != [] {
      OnRouteFrom(rows[1..], k, m);
    }
  }

  lemma AbsQueue(t: Tables, k: Key)
    requires Coherent(t)
    ensures Queue(Abs(t), k) == OnRoute(t.messages, k)
  {
    if k !in t.routes && OnRoute(t.messages, k) != [] {
      OnRouteFrom(t.messages, k, OnRoute(t.messages, k)[0]);
    }
  }

  lemma RouteIffMessages(t: Tables, k: Key)
    requires Coherent(t)
    ensures k in t.routes <==> OnRoute(t.messages, k) != []
  {
    AbsQueue(t, k);
  }

  lemma AbsRouteCount(t: Tables)
    ensures |Abs(t).queues| == |t.routes|
  {
    assert Abs(t).queues.Keys == t.routes;
  }

  // ----------------------------------------------------- statements on one table

  lemma {:induction false} OnRouteEdit(rows: seq<Row>, scope: Option<Key>, ch: Change, k: Key)
    ensures OnRoute(EditRows(rows, scope, ch), k) ==
            if scope.Some? && scope.value != k then OnRoute(rows, k) else Edit(OnRoute(rows, k), ch)
  {
    if rows != [] {
      OnRouteEdit(rows[1..], scope, ch, k);
      var kept := EditRows(rows, scope, ch);
      if scope.Some? && scope.value != rows[0].key {
        assert kept[1..] == EditRows(rows[1..], scope, ch);
      } else if Apply(ch, rows[0].msg).Some? {
        assert kept[1..] == EditRows(rows[1..], scope, ch);
      }
      if rows[0].key == k {
        assert OnRoute(rows, k)[1..] == OnRoute(rows[1..], k);
      }
    }
  }

  lemma {:induction false} EditRowsOrigin(rows: seq<Row>, scope: Option<Key>, ch: Change, r: Row) returns (o: Row)
    requires r in EditRows(rows, scope, ch)
    ensures o in rows && o.key == r.key && o.msg.num == r.msg.num
  {
    if r in EditRows(rows[1..], scope, ch) {
      o := EditRowsOrigin(rows[1..], scope, ch, r);
    } else {
      o := rows[0];
    }
  }

  lemma {:induction false} EditRowsAscending(rows: seq<Row>, scope: Option<Key>, ch: Change)
    requires AscendingRows(rows)
    ensures AscendingRows(EditRows(rows, scope, ch))
    ensures |EditRows(rows, scope, ch)| <= |rows|
  {
    if rows != [] {
      EditRowsAscending(rows[1..], scope, ch);
      var rest := EditRows(rows[1..], scope, ch);
      forall j | 0 <= j < |rest| ensures rows[0].msg.num < rest[j].msg.num {
        var o := EditRowsOrigin(rows[1..], scope, ch, rest[j]);
      }
    }
  }

  lemma {:induction false} EditRowsShrinks(rows: seq<Row>, ch: Change)
    ensures |EditRows(rows, None, ch)| <= |rows|
  {
    if rows != [] {
      EditRowsShrinks(rows[1..], ch);
    }
  }

  lemma {:induction false} SameCountKeeps(rows: seq<Row>, ch: Change, r: Row)
    requires |EditRows(rows, None, ch)| == |rows| && r in rows
    ensures Apply(ch, r.msg).Some?
  {
    EditRowsShrinks(rows[1..], ch);
    if r != rows[0] {
      SameCountKeeps(rows[1..], ch, r);
    }
  }

  /** A statement limited to one route removes exactly what it removes from that queue. */
  lemma {:induction false} EditRowsCount(rows: seq<Row>, k: Key, ch: Change)
    ensures |EditRows(rows, Some(k), ch)| + Dropped(OnRoute(rows, k), ch) == |rows|
  {
    if rows != [] {
      EditRowsCount(rows[1..], k, ch);
      if rows[0].key == k {
        assert OnRoute(rows, k)[1..] == OnRoute(rows[1..], k);
      }
    }
  }

  /** A statement that selects rows by number leaves the other routes alone. */
  lemma OtherRouteUntouched(rows: seq<Row>, k: Key, other: Key, out: seq<Msg>, ch: Change)
    requires AscendingRows(rows) && k != other
    requires forall m | m in out :: m in OnRoute(rows, k)
    requires ch.DropNums? || ch.LeaseNums?
    requires ch.nums == Nums(out)
    ensures OnRoute(EditRows(rows, None, ch), other) == OnRoute(rows, other)
  {
    OnRouteEdit(rows, None, ch, other);
    forall m | m in OnRoute(rows, other) ensures Apply(ch, m) == Some(m) {
      OnRouteFrom(rows, other, m);
      if m.num in Nums(out) {
        var o :| o in out && o.num == m.num;
        OnRouteFrom(rows, k, o);
        assert false;
      }
    }
    EditUntouched(OnRoute(rows, other), ch);
  }

  lemma {:induction false} OnRouteAppend(rows: seq<Row>, r: Row, k: Key)
    ensures OnRoute(rows + [r], k) == OnRoute(rows, k) + (if r.key == k then [r.msg] else [])
  {
    if rows == [] {
      assert rows + [r] == [r];
    } else {
      assert (rows + [r])[1..] == rows[1..] + [r];
      OnRouteAppend(rows[1..], r, k);
    }
  }

  // ------------------------------------------------------------------ refinement

  /**
   The retention statements agree with `Sweep`. Removing idle routes only when
   some message expired is enough: otherwise every route still has its messages.
   */
  lemma SweepRefines(t: Tables, t': Tables, ttl: int, now: int)
    requires Coherent(t)
    requires t'.messages == EditRows(t.messages, None, DropExpired(now - ttl))
    requires t'.routes == if |t'.messages| < |t.messages| then UsedRoutes(t.(messages := t'.messages)) else t.routes
    requires t'.invites == map k | k in t.invites && t.invites[k].expiry > now :: t.invites[k]
    requires t'.next == t.next
    ensures Coherent(t') && Abs(t') == Sweep(Abs(t), ttl, now)
  {
    var cut := DropExpired(now - ttl);
    EditRowsAscending(t.messages, None, cut);
    forall k ensures OnRoute(t'.messages, k) == Edit(OnRoute(t.messages, k), cut) {
      OnRouteEdit(t.messages, None, cut, k);
    }
    forall k | k in t.routes ensures k in t'.routes <==> OnRoute(t'.messages, k) != [] {
      if |t'.messages| == |t.messages| {
        forall m | m in OnRoute(t.messages, k) ensures Apply(cut, m) == Some(m) {
          OnRouteFrom(t.messages, k, m);
          SameCountKeeps(t.messages, cut, Row(k, m));
        }
        EditUntouched(OnRoute(t.messages, k), cut);
      }
    }
    forall r | r in t'.messages ensures r.msg.num < t'.next && r.key in t'.routes {
      var o := EditRowsOrigin(t.messages, None, cut, r);
      OnRouteFrom(t'.messages, r.key, r.msg);
    }
    assert Abs(t').queues == Sweep(Abs(t), ttl, now).queues;
  }

  lemma ExpiredInvites(invites: map<Key, Slot>, expired: set<Key>, now: int)
    requires expired == set k | k in invites && invites[k].expiry <= now
    ensures invites - expired == map k | k in invites && invites[k].expiry > now :: invites[k]
    ensures |expired| == |invites| - |invites - expired|
  {
    assert (invites - expired).Keys == invites.Keys - expired;
  }

  /** Tables that differ from `t` on route `k` only have the queues of `t` with `q` put on `k`. */
  lemma SameQueues(t: Tables, t': Tables, k: Key, q: seq<Msg>)
    requires Coherent(t)
    requires OnRoute(t'.messages, k) == q && (k !in t.routes ==> q == [])
    requires t'.routes == if q == [] then t.routes - {k} else t.routes
    requires forall other | other != k :: OnRoute(t'.messages, other) == OnRoute(t.messages, other)
    ensures Abs(t').queues == Put(Abs(t).queues, k, q)
  {
    var put := Put(Abs(t).queues, k, q);
    assert put.Keys == t'.routes;
    assert forall other | other in t'.routes :: put[other] == OnRoute(t'.messages, other);
  }

  /**
   A statement that changes only route `k`, followed by removing the route row
   when nothing is left on it, is `Put` on the queues.
   */
  lemma PutRefines(t: Tables, t': Tables, k: Key, scope: Option<Key>, ch: Change)
    requires Coherent(t)
    requires t'.messages == EditRows(t.messages, scope, ch)
    requires t'.routes == if OnRoute(t'.messages, k) == [] then t.routes - {k} else t.routes
    requires t'.invites == t.invites && t'.next == t.next
    requires OnRoute(t'.messages, k) == Edit(OnRoute(t.messages, k), ch)
    requires forall other | other != k :: OnRoute(t'.messages, other) == OnRoute(t.messages, other)
    ensures Coherent(t')
    ensures Abs(t') == Abs(t).(queues := Put(Abs(t).queues, k, Edit(Queue(Abs(t), k), ch)))
  {
    AbsQueue(t, k);
    EditRowsAscending(t.messages, scope, ch);
    forall r | r in t'.messages ensures r.msg.num < t'.next && r.key in t'.routes {
      var o := EditRowsOrigin(t.messages, scope, ch, r);
      OnRouteFrom(t'.messages, r.key, r.msg);
    }
    SameQueues(t, t', k, Edit(Queue(Abs(t), k), ch));
  }

  lemma InsertRefines(t: Tables, t': Tables, k: Key, id: string, body: Bytes, now: int)
    requires Coherent(t)
    requires t'.messages == t.messages + [Row(k, Msg(t.next, id, body, now, None))]
    requires t'.routes == t.routes + {k} && t'.next == t.next + 1
    requires t'.invites == if k in t.invites then t.invites[k := t.invites[k].(ticket := None)] else t.invites
    ensures Coherent(t') && Abs(t') == Admit(Abs(t), k, id, body, now)
  {
    hide OnRoute;
    var m := Msg(t.next, id, body, now, None);
    AbsQueue(t, k);
    forall other ensures OnRoute(t'.messages, other) ==
                         OnRoute(t.messages, other) + (if other == k then [m] else [])
    {
      OnRouteAppend(t.messages, Row(k, m), other);
    }
    forall r | r in t'.messages ensures r.msg.num < t'.next && r.key in t'.routes {
      assert r in t.messages || r == Row(k, m);
    }
    var put := Admit(Abs(t), k, id, body, now).queues;
    assert put.Keys == t'.routes;
    assert forall other | other in t'.routes :: put[other] == OnRoute(t'.messages, other);
    assert Abs(t').queues == put;
  }

  // -------------------------------------------------------------- steps of `pull`

  lemma TakenIsBatch(q: seq<Msg>, max: nat, budget: nat, now: int, taken: seq<Msg>)
    requires var v := Visible(q, now);
             var rows := v[..Min(max, |v|)];
             taken == rows[..LongestFit(rows, |rows|, budget)]
    ensures taken == Batch(q, max, budget, now)
  {
    var v := Visible(q, now);
    var n := Min(max, |v|);
    var rows := v[..n];
    var i := LongestFit(rows, n, budget);
    assert rows[..i] == v[..i];
    if i < n {
      assert rows[..i + 1] == v[..i + 1];
    }
    FirstMisfit(v, n, budget, i);
  }

  lemma {:induction false} NothingTaken(rows: seq<Row>, taken: seq<Msg>, ch: Change)
    requires Nums(taken) == {} && (ch.DropNums? || ch.LeaseNums?) && ch.nums == {}
    ensures EditRows(rows, None, ch) == rows
  {
    if rows != [] {
      NothingTaken(rows[1..], taken, ch);
      assert rows == [rows[0]] + rows[1..];
    }
  }

  /** A lease never empties a queue, so only a legacy pull can remove the route. */
  lemma {:induction false} LeaseKeepsLength(q: seq<Msg>, nums: set<nat>, until: int)
    ensures |Edit(q, LeaseNums(nums, until))| == |q|
  {
    if q != [] {
      LeaseKeepsLength(q[1..], nums, until);
    }
  }

  lemma PullRefines(t: Tables, t': Tables, k: Key, out: seq<Msg>, mode: PullMode, until: int)
    requires Coherent(t)
    requires forall m | m in out :: m in OnRoute(t.messages, k)
    requires t'.messages == EditRows(t.messages, None, PullChange(out, mode, until))
    requires t'.routes == if mode == Legacy && OnRoute(t'.messages, k) == [] then t.routes - {k} else t.routes
    requires t'.invites == t.invites && t'.next == t.next
    ensures Coherent(t')
    ensures Abs(t') == Abs(t).(queues :=
              Put(Abs(t).queues, k, Edit(Queue(Abs(t), k), PullChange(out, mode, until))))
    ensures OnRoute(t'.messages, k) == Edit(OnRoute(t.messages, k), PullChange(out, mode, until))
  {
    var ch := PullChange(out, mode, until);
    AbsQueue(t, k);
    OnRouteEdit(t.messages, None, ch, k);
    LeaseKeepsLength(OnRoute(t.messages, k), Nums(out), until);
    forall other | other != k ensures OnRoute(t'.messages, other) == OnRoute(t.messages, other) {
      OtherRouteUntouched(t.messages, k, other, out, ch);
    }
    assert t'.routes == if OnRoute(t'.messages, k) == [] then t.routes - {k} else t.routes;
    PutRefines(t, t', k, None, ch);
  }

  // ------------------------------------------------------------------- the store

  class Store {
    const ttl: nat
    const lease: nat
    var db: Tables

    ghost predicate Valid()
      reads this
    {
      Coherent(db)
    }

    ghost function View(): Relay
      reads this
    {
      Abs(db)
    }

    constructor (ttl: nat, lease: nat)
      ensures Valid() && View() == EMPTY
      ensures this.ttl == ttl && this.lease == lease
    {
      this.ttl := ttl;
      this.lease := lease;
      db := Tables([], {}, map[], 1);
      new;
      assert Abs(db).queues == map[];
    }

    static method SweepExpired(conn: Tables, ttl: nat, now: int) returns (tx: Tables, stats: SweepStats)
      requires Coherent(conn)
      ensures Coherent(tx) && Abs(tx) == Sweep(Abs(conn), ttl, now)
      ensures stats.expiredMessages == |conn.messages| - |tx.messages|
      ensures stats.removedRoutes == Abs(conn).queues.Keys - Abs(tx).queues.Keys
      ensures stats.expiredInvites == |Abs(conn).slots| - |Abs(tx).slots|
    {
      EditRowsAscending(conn.messages, None, DropExpired(now - ttl));
      tx := conn.(messages := EditRows(conn.messages, None, DropExpired(now - ttl)));
      var expiredMessages := |conn.messages| - |tx.messages|;
      var removedRoutes := {};
      if expiredMessages > 0 {
        removedRoutes := tx.routes - UsedRoutes(tx);
        tx := tx.(routes := UsedRoutes(tx));
      }
      var expired := set k | k in tx.invites && tx.invites[k].expiry <= now;
      tx := tx.(invites := tx.invites - expired);
      stats := SweepStats(expiredMessages, removedRoutes, |expired|);
      ExpiredInvites(conn.invites, expired, now);
      SweepRefines(conn, tx, ttl, now);
    }

    method RetentionSweep(now: int) returns (stats: SweepStats)
      requires Valid()
      modifies this
      ensures Valid() && View() == Sweep(old(View()), ttl, now)
      ensures stats.expiredMessages == old(|db.messages|) - |db.messages|
      ensures stats.removedRoutes == old(View()).queues.Keys - View().queues.Keys
    {
      var tx;
      tx, stats := SweepExpired(db, ttl, now);
      db := tx;
    }

    method RouteStatus(key: Key, now: int) returns (status: RouteStatus, stats: SweepStats)
      requires Valid()
      modifies this
      ensures Valid() && View() == Sweep(old(View()), ttl, now)
      ensures status == StatusOf(View(), key)
      ensures stats.removedRoutes == old(View()).queues.Keys - View().queues.Keys
    {
      var tx;
      tx, stats := SweepExpired(db, ttl, now);
      status := RelaySpec.RouteStatus(key in tx.routes, |OnRoute(tx.messages, key)|, |tx.routes|);
      AbsQueue(tx, key);
      AbsRouteCount(tx);
      db := tx;
    }

    method InviteCreate(key: Key, capHash: Hash, revokeHash: Hash, bundle: Bytes, sig: Bytes,
                        expiry: int, now: int, maxSlots: nat) returns (outcome: CreateOutcome)
      requires Valid()
      modifies this
      ensures Valid()
      ensures (View(), outcome) ==
              Create(old(View()), ttl, key, capHash, revokeHash, bundle, sig, expiry, now, maxSlots)
      ensures outcome != Created ==> db == old(db)
    {
      var tx, _ := SweepExpired(db, ttl, now);
      if key in tx.invites {
        return Duplicate;
      }
      if |tx.invites| >= maxSlots {
        return CapFull(|tx.invites|);
      }
      tx := tx.(invites := tx.invites[key := Slot(Active, expiry, capHash, revokeHash, bundle, sig, None)]);
      db := tx;
      return Created;
    }

    method InviteRedeem(key: Key, now: int, ticketHash: Hash, verifyCap: Hash -> bool)
      returns (outcome: RedeemOutcome)
      requires Valid()
      modifies this
      ensures Valid()
      ensures (View(), outcome) == Redeem(old(View()), key, now, ticketHash, verifyCap)
      ensures !outcome.Redeemed? ==> db == old(db)
    {
      var tx := db;
      if key !in tx.invites {
        return NotFound;
      }
      var row := tx.invites[key];
      if row.state == Revoked {
        return RedeemRevoked;
      }
      if row.expiry <= now {
        return RedeemExpired;
      }
      if row.state == Consumed {
        return AlreadyUsed;
      }
      if !verifyCap(row.capHash) {
        return CapInvalid;
      }
      // The UPDATE repeats "AND state = ACTIVE" and reports how many rows it changed.
      var updated := 0;
      if tx.invites[key].state == Active {
        tx := tx.(invites := tx.invites[key :=
          row.(state := Consumed, ticket := Some(ticketHash), bundle := [], sig := [])]);
        updated := 1;
      }
      if updated == 0 {
        return AlreadyUsed;
      }
      db := tx;
      return Redeemed(row.bundle, row.sig);
    }

    method InviteRevoke(key: Key, now: int, verifyRevoke: Hash -> bool) returns (outcome: RevokeOutcome)
      requires Valid()
      modifies this
      ensures Valid()
      ensures (View(), outcome) == Revoke(old(View()), key, verifyRevoke)
      ensures outcome != RevokedNow ==> db == old(db)
    {
      var tx := db;
      if key !in tx.invites {
        return RevokeNotFound;
      }
      var row := tx.invites[key];
      if !verifyRevoke(row.revokeHash) {
        return TokenInvalid;
      }
      if row.state == Revoked {
        return AlreadyRevoked;
      }
      tx := tx.(invites := tx.invites[key := row.(state := Revoked, bundle := [], sig := [], ticket := None)]);
      db := tx;
      return RevokedNow;
    }

    method Enqueue(key: Key, msgId: string, body: Bytes, now: int, maxQueueDepth: nat, maxRouteCount: nat,
                   ticket: Option<Hash -> bool>) returns (outcome: EnqueueOutcome)
      requires Valid()
      modifies this
      ensures Valid()
      ensures (View(), outcome) ==
              RelaySpec.Enqueue(old(View()), key, msgId, body, now, maxQueueDepth, maxRouteCount, ticket)
      ensures outcome != Accepted ==> db == old(db)
    {
      var tx := db;
      AbsQueue(db, key);
      AbsRouteCount(db);
      if key in tx.invites {
        var slot := tx.invites[key];
        if slot.state == Revoked {
          return SlotRejected(SlotRevoked);
        }
        if slot.expiry <= now {
          return SlotRejected(SlotExpired);
        }
        var admitted := slot.ticket.Some? && ticket.Some? && ticket.value(slot.ticket.value);
        if !admitted {
          return SlotRejected(TicketInvalid);
        }
        // Burnt here, before the capacity checks; a refusal below rolls it back.
        tx := tx.(invites := tx.invites[key := slot.(ticket := None)]);
      }
      if key in tx.routes {
        var depth := |OnRoute(tx.messages, key)|;
        if depth >= maxQueueDepth {
          return Overloaded(depth);
        }
      } else {
        var liveRoutes := |tx.routes|;
        if liveRoutes >= maxRouteCount {
          return RouteCap(liveRoutes);
        }
        tx := tx.(routes := tx.routes + {key});
      }
      tx := tx.(messages := tx.messages + [Row(key, Msg(tx.next, msgId, body, now, None))], next := tx.next + 1);
      InsertRefines(db, tx, key, msgId, body, now);
      db := tx;
      return Accepted;
    }

    /** The loop of `pull`: take rows in order until the next one would exceed the byte budget. */
    static method TakeRows(rows: seq<Msg>, maxBytes: nat) returns (items: seq<Msg>, nums: set<nat>)
      ensures items == rows[..LongestFit(rows, |rows|, maxBytes)]
      ensures nums == Nums(items)
    {
      items := [];
      nums := {};
      var totalBytes := 0;
      var i := 0;
      while i < |rows|
        invariant i <= |rows|
        invariant items == rows[..i]
        invariant nums == Nums(items)
        invariant totalBytes == Min(SizeOf(items), USIZE_MAX)
        invariant Fits(items, maxBytes)
      {
        var row := rows[i];
        assert rows[..i + 1][..i] == rows[..i];
        if items != [] && SatAdd(totalBytes, |row.body|) > maxBytes {
          break;
        }
        totalBytes := SatAdd(totalBytes, |row.body|);
        nums := nums + {row.num};
        items := items + [row];
        assert items == rows[..i + 1];
        i := i + 1;
      }
      FirstMisfit(rows, |rows|, maxBytes, i);
    }

    method Pull(key: Key, max: nat, maxBytes: nat, now: int, mode: PullMode)
      returns (items: seq<StoredMsg>, routeDrained: bool, stats: SweepStats)
      requires Valid()
      modifies this
      ensures Valid()
      ensures var (r, y) := RelaySpec.Pull(old(View()), ttl, lease, key, max, maxBytes, now, mode);
              View() == r && items == Wire(y.items) && routeDrained == y.drained
      ensures stats.removedRoutes == old(View()).queues.Keys - Sweep(old(View()), ttl, now).queues.Keys
    {
      hide Edit, EditRows, OnRoute, Visible, Batch, Coherent, Abs, Sweep, LongestFit;
      var tx;
      tx, stats := SweepExpired(db, ttl, now);
      ghost var swept := tx;
      AbsQueue(tx, key);
      RouteIffMessages(tx, key);
      ghost var q := OnRoute(tx.messages, key);
      var visible := Visible(OnRoute(tx.messages, key), now);
      var rows := visible[..Min(max, |visible|)];
      var taken, nums := TakeRows(rows, maxBytes);
      TakenIsBatch(q, max, maxBytes, now, taken);
      ghost var ch := PullChange(taken, mode, now + lease);
      if nums != {} {
        match mode
        case Legacy => tx := tx.(messages := EditRows(tx.messages, None, DropNums(nums)));
        case Lease => tx := tx.(messages := EditRows(tx.messages, None, LeaseNums(nums, now + lease)));
      } else {
        NothingTaken(tx.messages, taken, ch);
      }
      assert tx.messages == EditRows(swept.messages, None, ch);
      routeDrained := false;
      if mode == Legacy {
        var remaining := |OnRoute(tx.messages, key)|;
        if remaining == 0 {
          routeDrained := key in tx.routes;
          tx := tx.(routes := tx.routes - {key});
        }
      }
      forall m | m in taken ensures m in OnRoute(swept.messages, key) {
        BatchFrom(q, max, maxBytes, now, m);
      }
      PullRefines(swept, tx, key, taken, mode, now + lease);
      items := Wire(taken);
      db := tx;
    }

    method Ack(key: Key, ids: seq<string>, now: int)
      returns (acked: nat, routeDrained: bool, stats: SweepStats)
      requires Valid()
      modifies this
      ensures Valid()
      ensures var (r, y) := RelaySpec.Ack(old(View()), ttl, key, ids, now);
              View() == r && acked == y.acked && routeDrained == y.drained
      ensures stats.removedRoutes == old(View()).queues.Keys - Sweep(old(View()), ttl, now).queues.Keys
    {
      var tx;
      tx, stats := SweepExpired(db, ttl, now);
      ghost var swept := tx;
      AbsQueue(tx, key);
      EditRowsCount(tx.messages, key, DropAcked(ids));
      OnRouteEdit(tx.messages, Some(key), DropAcked(ids), key);
      DroppedCounts(OnRoute(tx.messages, key), DropAcked(ids));
      var before := |tx.messages|;
      tx := tx.(messages := EditRows(tx.messages, Some(key), DropAcked(ids)));
      acked := before - |tx.messages|;
      routeDrained := false;
      if acked > 0 {
        var remaining := |OnRoute(tx.messages, key)|;
        if remaining == 0 {
          routeDrained := key in tx.routes;
          tx := tx.(routes := tx.routes - {key});
        }
      }
      forall other | other != key ensures OnRoute(tx.messages, other) == OnRoute(swept.messages, other) {
        OnRouteEdit(swept.messages, Some(key), DropAcked(ids), other);
      }
      assert tx.routes == if OnRoute(tx.messages, key) == [] then swept.routes - {key} else swept.routes;
      PutRefines(swept, tx, key, Some(key), DropAcked(ids));
      db := tx;
    }
  }
}

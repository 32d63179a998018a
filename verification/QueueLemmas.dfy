/** Facts about queues and row edits that the other modules build on. */
module QueueLemmas {
  import opened Base
  import opened RelaySpec

  /** Message numbers grow along the queue, so the queue order is the order of acceptance. */
  ghost predicate Ascending(q: seq<Msg>) {
    forall i, j :: 0 <= i < j < |q| ==> q[i].num < q[j].num
  }

  lemma AscendingUnique(q: seq<Msg>, a: Msg, b: Msg)
    requires Ascending(q) && a in q && b in q && a.num == b.num
    ensures a == b
  {
  }

  // ------------------------------------------------------------------- edits

  lemma {:induction false} EditKeeps(q: seq<Msg>, ch: Change, m: Msg)
    requires m in q && Apply(ch, m).Some?
    ensures Apply(ch, m).value in Edit(q, ch)
  {
    if m != q[0] {
      EditKeeps(q[1..], ch, m);
    }
  }

  lemma {:induction false} EditOrigin(q: seq<Msg>, ch: Change, m: Msg) returns (o: Msg)
    requires m in Edit(q, ch)
    ensures o in q && Apply(ch, o) == Some(m)
  {
    if Apply(ch, q[0]) == Some(m) {
      o := q[0];
    } else {
      o := EditOrigin(q[1..], ch, m);
    }
  }

  lemma {:induction false} EditAscending(q: seq<Msg>, ch: Change)
    requires Ascending(q)
    ensures Ascending(Edit(q, ch))
    ensures |Edit(q, ch)| <= |q|
  {
    if q != [] {
      EditAscending(q[1..], ch);
      var rest := Edit(q[1..], ch);
      forall j | 0 <= j < |rest| ensures q[0].num < rest[j].num {
        var o := EditOrigin(q[1..], ch, rest[j]);
      }
    }
  }

  lemma {:induction false} EditUntouched(q: seq<Msg>, ch: Change)
    requires forall m | m in q :: Apply(ch, m) == Some(m)
    ensures Edit(q, ch) == q
  {
    if q != [] {
      EditUntouched(q[1..], ch);
      assert q == [q[0]] + q[1..];
    }
  }

  /** Two changes in a row act like one when they do so on every message. */
  lemma {:induction false} EditCompose(q: seq<Msg>, first: Change, second: Change, both: Change)
    requires forall m | m in q ::
      Apply(both, m) == if Apply(first, m).None? then None else Apply(second, Apply(first, m).value)
    ensures Edit(Edit(q, first), second) == Edit(q, both)
  {
    if q != [] {
      EditCompose(q[1..], first, second, both);
      var head := Apply(first, q[0]);
      if head.Some? {
        assert Edit(q, first)[1..] == Edit(q[1..], first);
      }
    }
  }

  lemma {:induction false} DroppedCounts(q: seq<Msg>, ch: Change)
    ensures |Edit(q, ch)| + Dropped(q, ch) == |q|
  {
    if q != [] {
      DroppedCounts(q[1..], ch);
    }
  }

  // ---------------------------------------------------------- visible messages

  lemma {:induction false} VisibleIff(q: seq<Msg>, now: int, m: Msg)
    ensures m in Visible(q, now) <==> m in q && Awake(m, now)
  {
    if q != [] {
      VisibleIff(q[1..], now, m);
    }
  }

  lemma {:induction false} VisibleAscending(q: seq<Msg>, now: int)
    requires Ascending(q)
    ensures Ascending(Visible(q, now)) && |Visible(q, now)| <= |q|
  {
    if q != [] {
      VisibleAscending(q[1..], now);
      var rest := Visible(q[1..], now);
      forall j | 0 <= j < |rest| ensures q[0].num < rest[j].num {
        VisibleIff(q[1..], now, rest[j]);
      }
    }
  }

  lemma {:induction false} VisibleAll(q: seq<Msg>, now: int)
    requires forall m | m in q :: Awake(m, now)
    ensures Visible(q, now) == q
  {
    if q != [] {
      VisibleAll(q[1..], now);
      assert q == [q[0]] + q[1..];
    }
  }

  /** What a batch contains comes from the queue and may be handed out now. */
  lemma BatchFrom(q: seq<Msg>, max: nat, budget: nat, now: int, m: Msg)
    requires m in Batch(q, max, budget, now)
    ensures m in q && Awake(m, now)
  {
    assert m in Visible(q, now);
    VisibleIff(q, now, m);
  }

  // -------------------------------------------------------------- batch length

  /** The size of a batch is the sum of the lengths of its bodies. */
  lemma {:induction false} SizeAdds(a: seq<Msg>, b: seq<Msg>)
    ensures SizeOf(a + b) == SizeOf(a) + SizeOf(b)
    ensures |a| == 1 ==> SizeOf(a) == |a[0].body|
  {
    if |a| == 1 {
      assert a[..0] == [];
    }
    if b == [] {
      assert a + b == a;
    } else {
      var n := |b| - 1;
      assert (a + b)[..|a| + n] == a + b[..n];
      SizeAdds(a, b[..n]);
    }
  }

  lemma {:induction false} SizeMonotone(v: seq<Msg>, i: nat, j: nat)
    requires i <= j <= |v|
    ensures SizeOf(v[..i]) <= SizeOf(v[..j])
    decreases j
  {
    if i < j {
      assert v[..j][..j - 1] == v[..j - 1];
      SizeMonotone(v, i, j - 1);
    }
  }

  /** Stopping at the first message that does not fit finds the longest batch that does. */
  lemma FirstMisfit(v: seq<Msg>, n: nat, budget: nat, i: nat)
    requires i <= n <= |v|
    requires Fits(v[..i], budget)
    requires i < n ==> !Fits(v[..i + 1], budget)
    ensures LongestFit(v, n, budget) == i
  {
    var len := LongestFit(v, n, budget);
    if i < len {
      SizeMonotone(v, i + 1, len);
      assert false;
    }
  }
}

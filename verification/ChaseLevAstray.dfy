/** A thief of the Chase-Lev deque loads the buffer and its capacity one after the other.
    When growth falls between the two loads it may look into the wrong cell, or past
    the end of the buffer; here is when exactly, and that it happens. */
module ChaseLevAstray {
  import opened ChaseLev
  import opened Numbers

  // ---------- when a read goes astray ----------

  lemma SmallRemainder(t: nat, big: nat, small: nat)
    requires 0 < small && 0 < big && IsMultiple(big, small)
    ensures t % big == t % small <==> t % big < small
  {
    var q: nat :| big == Times(q, small);
    DivisionSplits(t, big);
    DivisionSplits(t, small);
    if t % big < small {
      var a := t / big;
      assert a * big == (a * q) * small;
      ProductIsNat(a, q);
      SameDigits(small, a * q, t % big, t / small, t % small);
    }
  }

  lemma MultipleIsLarger(n: nat, c: nat)
    requires n > 0 && IsMultiple(n, c)
    ensures c <= n
  {
    var q: nat :| n == Times(q, c);
    assert q >= 1;
  }

  /** With two capacities of the deque's history, the right cell is met exactly if the
      index, taken modulo the larger, lies below the smaller. */
  lemma AlignedExactly(t: nat, n: nat, c: nat)
    requires 0 < n && 0 < c && (IsMultiple(n, c) || IsMultiple(c, n))
    ensures Aligned(t, n, c) <==> if n <= c then t % c < n else t % n < c
  {
    if IsMultiple(n, c) {
      MultipleIsLarger(n, c);
      SmallRemainder(t, n, c);
    } else {
      MultipleIsLarger(c, n);
      SmallRemainder(t, c, n);
    }
  }

  /** In every state of every run: a thief's read goes astray exactly under that
      condition, and never when it has the capacity of its buffer. */
  lemma ReadGoesAstrayExactly(trace: seq<View>, acts: seq<Action>, capacity: nat, j: nat, i: nat)
    requires Scheduled(trace, acts, capacity) && j < |trace| && Enabled(trace[j], StealRead(i))
    ensures trace[j].thieves[i].t >= 0
    ensures var th := trace[j].thieves[i];
            var n := |trace[j].buffers[th.buf]|;
            && (After(trace[j], StealRead(i)).thieves[i].Astray?
                <==> if n <= th.cap then th.t % th.cap >= n else th.t % n >= th.cap)
            && (After(trace[j], StealRead(i)).thieves[i].Astray? ==> n != th.cap)
  {
    RunKeepsInv(trace, acts, capacity, j);
    var th := trace[j].thieves[i];
    assert ThiefOk(trace[j], th);
    AlignedExactly(th.t, |trace[j].buffers[th.buf]|, th.cap);
  }

  // ---------- states that can be reached ----------

  ghost predicate Ends(trace: seq<View>, acts: seq<Action>, capacity: nat, threads: nat, s: View) {
    Scheduled(trace, acts, capacity) && |trace[0].thieves| == threads && trace[|acts|] == s
  }

  ghost predicate Reachable(s: View, capacity: nat, threads: nat) {
    exists trace, acts :: Ends(trace, acts, capacity, threads, s)
  }

  lemma StepsOn(s: View, a: Action, capacity: nat, threads: nat) returns (r: View)
    requires Reachable(s, capacity, threads) && Enabled(s, a)
    ensures r == After(s, a) && Reachable(r, capacity, threads)
  {
    r := After(s, a);
    var trace, acts :| Ends(trace, acts, capacity, threads, s);
    var longer, more := trace + [r], acts + [a];
    forall i | 0 <= i < |more| ensures Enabled(longer[i], more[i]) && longer[i + 1] == After(longer[i], more[i]) {
      if i < |acts| { assert Enabled(trace[i], acts[i]) && trace[i + 1] == After(trace[i], acts[i]); }
    }
    assert Ends(longer, more, capacity, threads, r);
  }

  /** The owner rests, with m items in a buffer of capacity c, the first at index n. */
  ghost predicate Level(s: View, n: nat, m: nat, c: nat) {
    Sized(s) && s.owner == Rest && s.top == n && s.bottom == n + m && |s.buffers[s.cur]| == c
  }

  /** Old buffers stay, with their sizes. */
  ghost predicate Older(s: View, r: View) {
    |s.buffers| <= |r.buffers| && forall k :: 0 <= k < |s.buffers| ==> |r.buffers[k]| == |s.buffers[k]|
  }

  /** The owner has room for another item. */
  lemma MakesRoom(s: View, capacity: nat, threads: nat, n: nat, m: nat, c: nat) returns (r: View)
    requires Reachable(s, capacity, threads) && Level(s, n, m, c)
    ensures Reachable(r, capacity, threads) && Level(r.(owner := Rest), n, m, if m >= c - 1 then 2 * c else c)
    ensures r.owner == PushPut(0, n + m) && r.thieves == s.thieves && Older(s, r)
  {
    hide Reachable;
    r := StepsOn(s, PushLoadBottom(0), capacity, threads);
    r := StepsOn(r, PushLoadTop, capacity, threads);
    r := StepsOn(r, PushGrow, capacity, threads);
  }

  /** The owner pushes one item; the buffer doubles if it has room for one only. */
  lemma Pushes(s: View, capacity: nat, threads: nat, n: nat, m: nat, c: nat) returns (r: View)
    requires Reachable(s, capacity, threads) && Level(s, n, m, c)
    ensures Reachable(r, capacity, threads) && Level(r, n, m + 1, if m >= c - 1 then 2 * c else c)
    ensures r.thieves == s.thieves && Older(s, r)
  {
    hide Reachable;
    r := MakesRoom(s, capacity, threads, n, m, c);
    r := StepsOn(r, PushStore, capacity, threads);
    r := StepsOn(r, PushPublish, capacity, threads);
  }

  lemma {:induction false} FillsUp(s: View, capacity: nat, threads: nat, n: nat, m: nat, c: nat) returns (r: View)
    requires Reachable(s, capacity, threads) && Level(s, n, m, c) && m <= c - 1
    ensures Reachable(r, capacity, threads) && Level(r, n, c, 2 * c) && r.thieves == s.thieves && Older(s, r)
    decreases c - m
  {
    r := Pushes(s, capacity, threads, n, m, c);
    if m < c - 1 {
      var next := r;
      r := FillsUp(next, capacity, threads, n, m + 1, c);
    }
  }

  ghost predicate FirstIs(s: View, th: Thief) {
    |s.thieves| > 0 && s.thieves[0] == th
  }

  /** A thief has seen that there is an item at the front. */
  lemma Aims(s: View, capacity: nat, threads: nat, n: nat, c: nat) returns (r: View)
    requires Reachable(s, capacity, threads) && Level(s, n, 1, c) && FirstIs(s, Out)
    ensures Reachable(r, capacity, threads) && Level(r, n, 1, c) && FirstIs(r, StealB(n))
  {
    r := StepsOn(s, StealLoadTop(0), capacity, threads);
    r := StepsOn(r, StealLoadBottom(0), capacity, threads);
  }

  /** It loads buffer and capacity, and both fit together. */
  lemma LoadsBoth(s: View, capacity: nat, threads: nat, n: nat, c: nat) returns (r: View, x: Elt)
    requires Reachable(s, capacity, threads) && Level(s, n, 1, c) && FirstIs(s, StealB(n))
    ensures Reachable(r, capacity, threads) && Level(r, n, 1, c) && FirstIs(r, StealItem(n, x))
  {
    r := StepsOn(s, StealLoadBuffer(0), capacity, threads);
    r := StepsOn(r, StealLoadCapacity(0), capacity, threads);
    r := StepsOn(r, StealRead(0), capacity, threads);
    x := r.thieves[0].x;
  }

  /** A thief takes the only item. */
  lemma Steals(s: View, capacity: nat, threads: nat, n: nat, c: nat) returns (r: View)
    requires Reachable(s, capacity, threads) && Level(s, n, 1, c) && FirstIs(s, Out)
    ensures Reachable(r, capacity, threads) && Level(r, n + 1, 0, c) && FirstIs(r, Out)
  {
    hide Reachable;
    r := Aims(s, capacity, threads, n, c);
    var x;
    r, x := LoadsBoth(r, capacity, threads, n, c);
    r := StepsOn(r, StealCas(0), capacity, threads);
  }

  /** Items come and go until top has reached the capacity. */
  lemma {:induction false} GoesRound(s: View, capacity: nat, threads: nat, n: nat, c: nat) returns (r: View)
    requires Reachable(s, capacity, threads) && Level(s, n, 0, c) && FirstIs(s, Out) && n <= c && c >= 2
    ensures Reachable(r, capacity, threads) && Level(r, c, 0, c) && FirstIs(r, Out)
    decreases c - n
  {
    if n == c {
      r := s;
    } else {
      var p := Pushes(s, capacity, threads, n, 0, c);
      var t := Steals(p, capacity, threads, n, c);
      r := GoesRound(t, capacity, threads, n + 1, c);
    }
  }

  /** A deque of capacity 1 doubles with its first item. */
  lemma HasRoom(s: View, capacity: nat, threads: nat) returns (r: View, n: nat, c: nat)
    requires Initial(s, capacity) && |s.thieves| == threads && threads > 0
    ensures Reachable(r, capacity, threads) && Level(r, n, 0, c) && FirstIs(r, Out) && n <= c && c >= 2
  {
    assert Ends([s], [], capacity, threads, s);
    r, n, c := s, 0, capacity;
    if capacity == 1 {
      r := Pushes(s, capacity, threads, 0, 0, 1);
      r := Steals(r, capacity, threads, 0, 2);
      n, c := 1, 2;
    }
  }

  /** The thief has the buffer; it grows before the thief has the capacity. */
  lemma MeetsGrowth(s: View, capacity: nat, threads: nat, c: nat) returns (r: View, was: nat)
    requires Reachable(s, capacity, threads) && Level(s, c, 1, c) && FirstIs(s, StealB(c)) && c >= 2
    ensures Reachable(r, capacity, threads) && Level(r, c, c, 2 * c) && FirstIs(r, StealBuf(c, was))
    ensures was < |r.buffers| && |r.buffers[was]| == c
  {
    hide Reachable;
    var p := StepsOn(s, StealLoadBuffer(0), capacity, threads);
    was := p.cur;
    assert FirstIs(p, StealBuf(c, was)) && Level(p, c, 1, c);
    r := FillsUp(p, capacity, threads, c, 1, c);
  }

  lemma LosesItsWay(s: View, capacity: nat, threads: nat, c: nat) returns (r: View)
    requires Reachable(s, capacity, threads) && Level(s, c, 0, c) && FirstIs(s, Out) && c >= 2
    ensures Reachable(r, capacity, threads) && FirstIs(r, Astray(c))
  {
    hide Reachable;
    var was;
    r := Pushes(s, capacity, threads, c, 0, c);
    r := Aims(r, capacity, threads, c, c);
    r, was := MeetsGrowth(r, capacity, threads, c);
    r := LooksOutside(r, capacity, threads, c, was);
  }

  lemma LooksOutside(s: View, capacity: nat, threads: nat, c: nat, was: nat) returns (r: View)
    requires Reachable(s, capacity, threads) && Level(s, c, c, 2 * c) && FirstIs(s, StealBuf(c, was)) && c >= 2
    requires was < |s.buffers| && |s.buffers[was]| == c
    ensures Reachable(r, capacity, threads) && FirstIs(r, Astray(c))
  {
    hide Reachable;
    r := StepsOn(s, StealLoadCapacity(0), capacity, threads);
    assert FirstIs(r, StealBoth(c, was, 2 * c)) && |r.buffers[was]| == c;
    assert c % (2 * c) == c && c % c == 0;
    r := StepsOn(r, StealRead(0), capacity, threads);
  }

  /** Some run by so many thieves leads one of them astray. */
  ghost predicate CanGoAstray(capacity: nat, threads: nat) {
    exists s: View, i: nat :: Reachable(s, capacity, threads) && i < |s.thieves| && s.thieves[i].Astray?
  }

  lemma {:induction false} ThievesStay(trace: seq<View>, acts: seq<Action>, capacity: nat, i: nat)
    requires Scheduled(trace, acts, capacity) && i < |trace|
    ensures |trace[i].thieves| == |trace[0].thieves|
  {
    if i > 0 {
      ThievesStay(trace, acts, capacity, i - 1);
      assert Enabled(trace[i - 1], acts[i - 1]) && trace[i - 1 + 1] == After(trace[i - 1], acts[i - 1]);
    }
  }

  /** Main theorem: whatever the initial capacity, one thief is enough for that. */
  lemma GoesAstrayExactly(capacity: nat, threads: nat)
    requires capacity > 0
    ensures CanGoAstray(capacity, threads) <==> threads > 0
  {
    if threads > 0 {
      var s := View([Blank(capacity)], 0, 0, 0, Rest, seq(threads, _ => Out));
      var r, n, c := HasRoom(s, capacity, threads);
      r := GoesRound(r, capacity, threads, n, c);
      r := LosesItsWay(r, capacity, threads, c);
      assert r.thieves[0].Astray?;
    }
    if CanGoAstray(capacity, threads) {
      var s: View, i: nat :| Reachable(s, capacity, threads) && i < |s.thieves| && s.thieves[i].Astray?;
      var trace, acts :| Ends(trace, acts, capacity, threads, s);
      ThievesStay(trace, acts, capacity, |acts|);
    }
  }
}

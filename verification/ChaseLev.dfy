/** The Chase-Lev work-stealing deque: one owner, any number of thieves.

    One action is one atomic access of `bottom`, `top`, the buffer pointer, the capacity
    or a buffer cell, or one compare-and-swap on `top`.  Sequential consistency is
    assumed, and the two stores that publish a grown buffer and its capacity are one
    action.  A thief loads the two one after the other, in either order. */
module ChaseLev {

  /** An old buffer is never freed, so buffers are numbered; `Elt` is the item type. */
  type Elt = nat

  /** Where the owner is.  b and t are its local copies of bottom and top. */
  datatype Owner =
    | Rest
    | PushB(x: Elt, b: int)
    | PushT(x: Elt, b: int, t: int)
    | PushPut(x: Elt, b: int)
    | PushDone(x: Elt, b: int)
    | PopB(b: int)
    | PopStored(b: int)
    | PopFailed(t: int)
    | PopTaken(x: Elt)
    | PopRace(x: Elt, t: int)
    | PopRestore(t: int)

  datatype Thief =
    | Out
    | StealT(t: int)
    | StealB(t: int)
    | StealBuf(t: int, buf: nat)
    | StealCap(t: int, cap: nat)
    | StealBoth(t: int, buf: nat, cap: nat)
    | StealItem(t: int, x: Elt)
    | Astray(t: int)

  datatype View = View(buffers: seq<seq<Elt>>, cur: nat, bottom: int, top: int, owner: Owner, thieves: seq<Thief>)

  datatype Action =
    | PushLoadBottom(x: Elt) | PushLoadTop | PushGrow | PushStore | PushPublish
    | PopLoadBottom | PopStoreBottom | PopLoadTop | PopFail | PopReturn | PopCas | PopReset
    | StealLoadTop(i: nat) | StealLoadBottom(i: nat) | StealLoadBuffer(i: nat) | StealLoadCapacity(i: nat)
    | StealRead(i: nat) | StealCas(i: nat)

  function Cell(buf: seq<Elt>, i: int): Elt
    requires |buf| > 0
  {
    buf[i % |buf|]
  }

  /** The cell of index i in a buffer of size n is where it is sought with capacity c. */
  predicate Aligned(i: int, n: nat, c: nat)
    requires n > 0 && c > 0
  {
    i % c == i % n
  }

  function Put(buf: seq<Elt>, i: int, x: Elt): seq<Elt>
    requires |buf| > 0
  {
    buf[i % |buf| := x]
  }

  /** The contents of `to` after cells t .. b have been copied from `from`. */
  function Copied(from: seq<Elt>, to: seq<Elt>, t: int, b: int): (r: seq<Elt>)
    requires |from| > 0 && |to| > 0
    ensures |r| == |to|
    decreases b - t
  {
    if b <= t then to else Put(Copied(from, to, t, b - 1), b - 1, Cell(from, b - 1))
  }

  function Blank(n: nat): (r: seq<Elt>)
    ensures |r| == n
  {
    seq(n, _ => 0)
  }

  predicate Sized(s: View) {
    s.cur < |s.buffers| && forall k :: 0 <= k < |s.buffers| ==> |s.buffers[k]| > 0
  }

  predicate Enabled(s: View, a: Action) {
    && Sized(s)
    && match a
       case PushLoadBottom(_) => s.owner.Rest?
       case PushLoadTop => s.owner.PushB?
       case PushGrow => s.owner.PushT?
       case PushStore => s.owner.PushPut?
       case PushPublish => s.owner.PushDone?
       case PopLoadBottom => s.owner.Rest?
       case PopStoreBottom => s.owner.PopB?
       case PopLoadTop => s.owner.PopStored?
       case PopFail => s.owner.PopFailed?
       case PopReturn => s.owner.PopTaken?
       case PopCas => s.owner.PopRace?
       case PopReset => s.owner.PopRestore?
       case StealLoadTop(i) => i < |s.thieves| && s.thieves[i].Out?
       case StealLoadBottom(i) => i < |s.thieves| && s.thieves[i].StealT?
       case StealLoadBuffer(i) => i < |s.thieves| && (s.thieves[i].StealB? || s.thieves[i].StealCap?)
       case StealLoadCapacity(i) => i < |s.thieves| && (s.thieves[i].StealB? || s.thieves[i].StealBuf?)
       case StealRead(i) =>
         && i < |s.thieves| && s.thieves[i].StealBoth?
         && s.thieves[i].buf < |s.buffers| && s.thieves[i].cap > 0
       case StealCas(i) => i < |s.thieves| && s.thieves[i].StealItem?
  }

  function Thieve(s: View, i: nat, th: Thief): View
    requires i < |s.thieves|
  {
    s.(thieves := s.thieves[i := th])
  }

  function After(s: View, a: Action): View
    requires Enabled(s, a)
  {
    match a
    case PushLoadBottom(x) => s.(owner := PushB(x, s.bottom))
    case PushLoadTop => s.(owner := PushT(s.owner.x, s.owner.b, s.top))
    case PushGrow =>
      var buf := s.buffers[s.cur];
      if s.owner.b - s.owner.t >= |buf| - 1
      then s.(buffers := s.buffers + [Copied(buf, Blank(2 * |buf|), s.owner.t, s.owner.b)], cur := |s.buffers|,
              owner := PushPut(s.owner.x, s.owner.b))
      else s.(owner := PushPut(s.owner.x, s.owner.b))
    case PushStore =>
      s.(buffers := s.buffers[s.cur := Put(s.buffers[s.cur], s.owner.b, s.owner.x)],
         owner := PushDone(s.owner.x, s.owner.b))
    case PushPublish => s.(bottom := s.owner.b + 1, owner := Rest)
    case PopLoadBottom => s.(owner := PopB(s.bottom - 1))
    case PopStoreBottom => s.(bottom := s.owner.b, owner := PopStored(s.owner.b))
    case PopLoadTop =>
      if s.owner.b < s.top then s.(owner := PopFailed(s.top))
      else
        var x := Cell(s.buffers[s.cur], s.owner.b);
        s.(owner := if s.owner.b > s.top then PopTaken(x) else PopRace(x, s.top))
    case PopFail => s.(bottom := s.owner.t, owner := Rest)
    case PopReturn => s.(owner := Rest)
    case PopCas =>
      if s.top == s.owner.t then s.(top := s.owner.t + 1, owner := PopRestore(s.owner.t))
      else s.(owner := PopRestore(s.owner.t))
    case PopReset => s.(bottom := s.owner.t + 1, owner := Rest)
    case StealLoadTop(i) => Thieve(s, i, StealT(s.top))
    case StealLoadBottom(i) => Thieve(s, i, if s.thieves[i].t >= s.bottom then Out else StealB(s.thieves[i].t))
    case StealLoadBuffer(i) =>
      var th := s.thieves[i];
      Thieve(s, i, if th.StealB? then StealBuf(th.t, s.cur) else StealBoth(th.t, s.cur, th.cap))
    case StealLoadCapacity(i) =>
      var th, n := s.thieves[i], |s.buffers[s.cur]|;
      Thieve(s, i, if th.StealB? then StealCap(th.t, n) else StealBoth(th.t, th.buf, n))
    case StealRead(i) =>
      var th := s.thieves[i];
      var buf := s.buffers[th.buf];
      Thieve(s, i, if Aligned(th.t, |buf|, th.cap) then StealItem(th.t, Cell(buf, th.t)) else Astray(th.t))
    case StealCas(i) =>
      if s.top == s.thieves[i].t then Thieve(s, i, Out).(top := s.top + 1) else Thieve(s, i, Out)
  }

  // ---------- the sequence the deque stands for ----------

  /** The end of the contents: an owner that is popping has given up the last cell
      only once it has seen that no thief can reach it. */
  function End(s: View): int {
    match s.owner
    case PopStored(b) => b + 1
    case PopRace(_, t) => t + 1
    case PopFailed(t) => t
    case PopRestore(t) => t + 1
    case _ => s.bottom
  }

  function Range(buf: seq<Elt>, lo: int, hi: int): (r: seq<Elt>)
    requires |buf| > 0
    ensures |r| == if lo <= hi then hi - lo else 0
    ensures forall i :: 0 <= i < |r| ==> r[i] == Cell(buf, lo + i)
    decreases hi - lo
  {
    if hi <= lo then [] else Range(buf, lo, hi - 1) + [Cell(buf, hi - 1)]
  }

  function Contents(s: View): seq<Elt>
    requires Sized(s)
  {
    Range(s.buffers[s.cur], s.top, End(s))
  }

  // ---------- the invariant ----------

  ghost predicate OwnerOk(s: View)
    requires Sized(s)
  {
    match s.owner
    case Rest => s.top <= s.bottom
    case PushB(_, b) => b == s.bottom && s.top <= b
    case PushT(_, b, t) => b == s.bottom && 0 <= t <= s.top <= b && b - t <= |s.buffers[s.cur]| - 1
    case PushPut(_, b) => b == s.bottom && s.top <= b && b - s.top < |s.buffers[s.cur]| - 1
    case PushDone(x, b) =>
      && b == s.bottom && s.top <= b && b - s.top < |s.buffers[s.cur]| - 1
      && Cell(s.buffers[s.cur], b) == x
    case PopB(b) => b == s.bottom - 1 && s.top <= s.bottom
    case PopStored(b) => b == s.bottom && s.top <= b + 1
    case PopFailed(t) => t == s.top && s.bottom == t - 1
    case PopTaken(_) => s.top <= s.bottom
    case PopRace(x, t) => t == s.bottom && t <= s.top <= t + 1 && (s.top == t ==> x == Cell(s.buffers[s.cur], t))
    case PopRestore(t) => t == s.bottom && s.top == t + 1
  }

  /** While top has not moved past the thief's copy, the cell it aims at is part of
      the contents, and what it has read there is still right. */
  ghost predicate ThiefOk(s: View, th: Thief)
    requires Sized(s)
  {
    match th
    case Out => true
    case StealT(t) => 0 <= t <= s.top
    case StealB(t) => 0 <= t <= s.top && (s.top == t ==> t < End(s))
    case StealBuf(t, k) => 0 <= t <= s.top && k < |s.buffers|
                           && (s.top == t ==> t < End(s) && Cell(s.buffers[k], t) == Cell(s.buffers[s.cur], t))
    case StealCap(t, c) => 0 <= t <= s.top && c > 0 && IsMultiple(|s.buffers[s.cur]|, c) && (s.top == t ==> t < End(s))
    case StealBoth(t, k, c) =>
      && 0 <= t <= s.top && k < |s.buffers| && c > 0 && (IsMultiple(c, |s.buffers[k]|) || IsMultiple(|s.buffers[k]|, c))
      && (s.top == t ==> t < End(s) && Cell(s.buffers[k], t) == Cell(s.buffers[s.cur], t))
    case StealItem(t, x) => 0 <= t <= s.top && (s.top == t ==> t < End(s) && x == Cell(s.buffers[s.cur], t))
    case Astray(_) => true
  }

  function Times(q: nat, c: nat): (p: int)
  {
    q * c
  }

  ghost predicate IsMultiple(n: nat, c: nat) {
    exists q: nat :: n == Times(q, c)
  }

  /** Capacities only ever double. */
  ghost predicate Multiples(s: View)
    requires Sized(s)
  {
    forall k :: 0 <= k < |s.buffers| ==> IsMultiple(|s.buffers[s.cur]|, |s.buffers[k]|)
  }

  ghost predicate Inv(s: View) {
    && Sized(s) && 0 <= s.top
    && End(s) - s.top <= |s.buffers[s.cur]| - 1
    && Multiples(s) && OwnerOk(s)
    && forall i :: 0 <= i < |s.thieves| ==> ThiefOk(s, s.thieves[i])
  }

  ghost predicate Initial(s: View, capacity: nat) {
    && capacity > 0 && s.buffers == [Blank(capacity)] && s.cur == 0 && s.bottom == 0 && s.top == 0 && s.owner == Rest
    && forall i :: 0 <= i < |s.thieves| ==> s.thieves[i] == Out
  }

  // ---------- arithmetic of the circular buffer ----------

  lemma DistinctCells(i: int, j: int, n: nat)
    requires n > 0 && 0 <= i < j < i + n
    ensures i % n != j % n
  {
    var q := j / n - i / n;
    assert j - i == n * q + (j % n - i % n);
    assert q >= 1 ==> n * q >= n;
    assert q <= 0 ==> n * q <= 0;
  }

  lemma PutElsewhere(buf: seq<Elt>, i: int, x: Elt, lo: int, hi: int)
    requires |buf| > 0 && 0 <= lo && (hi <= lo || (hi <= i < lo + |buf|))
    ensures forall k :: lo <= k < hi ==> Cell(Put(buf, i, x), k) == Cell(buf, k)
    ensures Cell(Put(buf, i, x), i) == x
  {
    forall k | lo <= k < hi ensures Cell(Put(buf, i, x), k) == Cell(buf, k) {
      DistinctCells(k, i, |buf|);
    }
  }

  /** Growing copies every live cell, to its place modulo the new capacity. */
  lemma {:induction false} CopiedHolds(from: seq<Elt>, to: seq<Elt>, t: int, b: int)
    requires |from| > 0 && |to| > 0 && 0 <= t && b - t <= |to|
    ensures forall k :: t <= k < b ==> Cell(Copied(from, to, t, b), k) == Cell(from, k)
    decreases b - t
  {
    if t < b {
      CopiedHolds(from, to, t, b - 1);
      PutElsewhere(Copied(from, to, t, b - 1), b - 1, Cell(from, b - 1), t, b - 1);
    }
  }

  lemma SameRange(a: seq<Elt>, b: seq<Elt>, lo: int, hi: int)
    requires |a| > 0 && |b| > 0 && forall k :: lo <= k < hi ==> Cell(a, k) == Cell(b, k)
    ensures Range(a, lo, hi) == Range(b, lo, hi)
  {
  }

  // ---------- every action keeps the invariant ----------

  /** A thief's view survives when top stays, the contents do not shrink below top,
      and the cells it may look at keep their value. */
  lemma ThievesKept(s: View, r: View)
    requires Inv(s) && Sized(r) && r.thieves == s.thieves && r.top >= s.top && |r.buffers| >= |s.buffers|
    requires forall k :: 0 <= k < |s.buffers| ==> |r.buffers[k]| == |s.buffers[k]|
    requires |r.buffers[r.cur]| == |s.buffers[s.cur]| || |r.buffers[r.cur]| == 2 * |s.buffers[s.cur]|
    requires r.top == s.top && s.top < End(s) ==>
               && s.top < End(r) && Cell(r.buffers[r.cur], s.top) == Cell(s.buffers[s.cur], s.top)
               && forall k :: 0 <= k < |s.buffers| && Cell(s.buffers[k], s.top) == Cell(s.buffers[s.cur], s.top) ==>
                    Cell(r.buffers[k], s.top) == Cell(s.buffers[s.cur], s.top)
    ensures forall i :: 0 <= i < |r.thieves| ==> ThiefOk(r, r.thieves[i])
  {
    forall i | 0 <= i < |r.thieves| ensures ThiefOk(r, r.thieves[i]) {
      assert ThiefOk(s, s.thieves[i]);
      if s.thieves[i].StealCap? { DoubleMultiple(|s.buffers[s.cur]|, s.thieves[i].cap); }
    }
  }

  lemma DoubleMultiple(n: nat, c: nat)
    requires IsMultiple(n, c)
    ensures IsMultiple(2 * n, c)
  {
    var q: nat :| n == Times(q, c);
    assert 2 * n == Times(2 * q, c);
  }

  lemma OwnMultiple(n: nat)
    ensures IsMultiple(n, n)
  {
    assert n == Times(1, n);
  }

  lemma GrowKeepsInv(s: View)
    requires Inv(s) && Enabled(s, PushGrow)
    ensures Inv(After(s, PushGrow)) && Contents(After(s, PushGrow)) == Contents(s)
  {
    var r := After(s, PushGrow);
    var buf, b, t := s.buffers[s.cur], s.owner.b, s.owner.t;
    if b - t >= |buf| - 1 {
      CopiedHolds(buf, Blank(2 * |buf|), t, b);
      SameRange(r.buffers[r.cur], buf, s.top, b);
      forall k | 0 <= k < |r.buffers| ensures IsMultiple(|r.buffers[r.cur]|, |r.buffers[k]|) {
        if k < |s.buffers| { DoubleMultiple(|buf|, |s.buffers[k]|); } else { OwnMultiple(2 * |buf|); }
      }
    }
    ThievesKept(s, r);
  }

  lemma StoreKeepsInv(s: View)
    requires Inv(s) && Enabled(s, PushStore)
    ensures Inv(After(s, PushStore)) && Contents(After(s, PushStore)) == Contents(s)
  {
    var r := After(s, PushStore);
    var buf, b := s.buffers[s.cur], s.owner.b;
    PutElsewhere(buf, b, s.owner.x, s.top, b);
    SameRange(r.buffers[r.cur], buf, s.top, b);
    ThievesKept(s, r);
  }

  /** The remaining actions of the owner: no buffer changes. */
  lemma OwnerKeepsInv(s: View, a: Action)
    requires Inv(s) && Enabled(s, a)
    requires a.PushLoadBottom? || a.PushLoadTop? || a.PushPublish? || a.PopLoadBottom? || a.PopStoreBottom?
             || a.PopLoadTop? || a.PopFail? || a.PopReturn? || a.PopCas? || a.PopReset?
    ensures Inv(After(s, a))
  {
    ThievesKept(s, After(s, a));
  }

  lemma OneThiefMoves(s: View, i: nat, th: Thief)
    requires Inv(s) && i < |s.thieves| && ThiefOk(s, th)
    ensures Inv(Thieve(s, i, th)) && Contents(Thieve(s, i, th)) == Contents(s)
  {
    var r := Thieve(s, i, th);
    forall j | 0 <= j < |r.thieves| ensures ThiefOk(r, r.thieves[j]) {
      if j != i { assert ThiefOk(s, s.thieves[j]); }
    }
  }

  lemma ThiefKeepsInv(s: View, a: Action)
    requires Inv(s) && Enabled(s, a)
    requires a.StealLoadTop? || a.StealLoadBottom? || a.StealLoadBuffer? || a.StealLoadCapacity? || a.StealRead?
    ensures Inv(After(s, a)) && Contents(After(s, a)) == Contents(s)
  {
    assert ThiefOk(s, s.thieves[a.i]);
    OneThiefMoves(s, a.i, After(s, a).thieves[a.i]);
  }

  lemma StealKeepsInv(s: View, i: nat)
    requires Inv(s) && Enabled(s, StealCas(i))
    ensures Inv(After(s, StealCas(i)))
  {
    assert ThiefOk(s, s.thieves[i]);
    var r := After(s, StealCas(i));
    forall j | 0 <= j < |r.thieves| ensures ThiefOk(r, r.thieves[j]) {
      assert ThiefOk(s, s.thieves[j]);
    }
  }

  lemma ActionKeepsInv(s: View, a: Action)
    requires Inv(s) && Enabled(s, a)
    ensures Inv(After(s, a))
  {
    match a
    case PushGrow => GrowKeepsInv(s);
    case PushStore => StoreKeepsInv(s);
    case StealLoadTop(_) => ThiefKeepsInv(s, a);
    case StealLoadBottom(_) => ThiefKeepsInv(s, a);
    case StealLoadBuffer(_) => ThiefKeepsInv(s, a);
    case StealLoadCapacity(_) => ThiefKeepsInv(s, a);
    case StealRead(_) => ThiefKeepsInv(s, a);
    case StealCas(i) => StealKeepsInv(s, i);
    case _ => OwnerKeepsInv(s, a);
  }

  // ---------- refinement of a sequence ----------

  /** The effect on the sequence: push at the back, pop at the back, steal at the
      front, or nothing. */
  datatype Effect = Nothing | Pushed(x: Elt) | PoppedBack(x: Elt) | PoppedFront(x: Elt)

  /** Where each operation takes effect, and the item it pushes or will return. */
  function EffectOf(s: View, a: Action): Effect
    requires Enabled(s, a)
  {
    match a
    case PushPublish => Pushed(s.owner.x)
    case PopLoadTop => if s.owner.b > s.top then PoppedBack(Cell(s.buffers[s.cur], s.owner.b)) else Nothing
    case PopCas => if s.top == s.owner.t then PoppedBack(s.owner.x) else Nothing
    case StealCas(i) => if s.top == s.thieves[i].t then PoppedFront(s.thieves[i].x) else Nothing
    case _ => Nothing
  }

  ghost predicate Performs(before: seq<Elt>, after: seq<Elt>, e: Effect) {
    match e
    case Nothing => after == before
    case Pushed(x) => after == before + [x]
    case PoppedBack(x) => before == after + [x]
    case PoppedFront(x) => before == [x] + after
  }

  lemma RangeFront(buf: seq<Elt>, lo: int, hi: int)
    requires |buf| > 0 && lo < hi
    ensures Range(buf, lo, hi) == [Cell(buf, lo)] + Range(buf, lo + 1, hi)
  {
  }

  lemma StealRefines(s: View, i: nat)
    requires Inv(s) && Enabled(s, StealCas(i))
    ensures Sized(After(s, StealCas(i)))
    ensures Performs(Contents(s), Contents(After(s, StealCas(i))), EffectOf(s, StealCas(i)))
  {
    assert ThiefOk(s, s.thieves[i]);
    if s.top == s.thieves[i].t { RangeFront(s.buffers[s.cur], s.top, End(s)); }
  }

  /** Every action has exactly its effect on the sequence: a successful steal removes
      the oldest item, a successful pop the newest. */
  lemma ActionRefines(s: View, a: Action)
    requires Inv(s) && Enabled(s, a)
    ensures Sized(After(s, a)) && Performs(Contents(s), Contents(After(s, a)), EffectOf(s, a))
  {
    hide ThiefOk, Copied;
    match a
    case PushGrow => GrowKeepsInv(s);
    case PushStore => StoreKeepsInv(s);
    case StealCas(i) => StealRefines(s, i);
    case StealLoadTop(_) =>
    case StealLoadBottom(_) =>
    case StealLoadBuffer(_) =>
    case StealLoadCapacity(_) =>
    case StealRead(_) =>
    case _ =>
  }

  /** pop_back reports an empty deque only when it is empty. */
  lemma PopFailsOnlyWhenEmpty(s: View)
    requires Inv(s) && Enabled(s, PopLoadTop)
    ensures After(s, PopLoadTop).owner.PopFailed? <==> Contents(s) == []
  {
  }

  // ---------- whole runs ----------

  ghost predicate Scheduled(trace: seq<View>, acts: seq<Action>, capacity: nat) {
    && |trace| == |acts| + 1 && Initial(trace[0], capacity)
    && forall i :: 0 <= i < |acts| ==> Enabled(trace[i], acts[i]) && trace[i + 1] == After(trace[i], acts[i])
  }

  function PushedIn(e: Effect): multiset<Elt> {
    match e
    case Pushed(x) => multiset{x}
    case _ => multiset{}
  }

  function ReturnedIn(e: Effect): multiset<Elt> {
    match e
    case PoppedBack(x) => multiset{x}
    case PoppedFront(x) => multiset{x}
    case _ => multiset{}
  }

  ghost predicate AllEnabled(trace: seq<View>, acts: seq<Action>) {
    |trace| == |acts| + 1 && forall k :: 0 <= k < |acts| ==> Enabled(trace[k], acts[k])
  }

  /** Items pushed, and items returned, by the first i actions. */
  ghost function PushedBy(trace: seq<View>, acts: seq<Action>, i: nat): multiset<Elt>
    requires AllEnabled(trace, acts) && i <= |acts|
  {
    if i == 0 then multiset{} else PushedBy(trace, acts, i - 1) + PushedIn(EffectOf(trace[i - 1], acts[i - 1]))
  }

  ghost function ReturnedBy(trace: seq<View>, acts: seq<Action>, i: nat): multiset<Elt>
    requires AllEnabled(trace, acts) && i <= |acts|
  {
    if i == 0 then multiset{} else ReturnedBy(trace, acts, i - 1) + ReturnedIn(EffectOf(trace[i - 1], acts[i - 1]))
  }

  lemma {:induction false} RunKeepsInv(trace: seq<View>, acts: seq<Action>, capacity: nat, i: nat)
    requires Scheduled(trace, acts, capacity) && i < |trace|
    ensures Inv(trace[i])
  {
    if i == 0 {
      OwnMultiple(capacity);
    } else {
      RunKeepsInv(trace, acts, capacity, i - 1);
      ActionKeepsInv(trace[i - 1], acts[i - 1]);
    }
  }

  lemma EffectBalance(before: seq<Elt>, after: seq<Elt>, e: Effect)
    requires Performs(before, after, e)
    ensures multiset(after) + ReturnedIn(e) == multiset(before) + PushedIn(e)
  {
  }

  lemma BalanceKept(p: multiset<Elt>, r: multiset<Elt>, before: seq<Elt>, after: seq<Elt>, e: Effect)
    requires Performs(before, after, e) && p == r + multiset(before)
    ensures p + PushedIn(e) == (r + ReturnedIn(e)) + multiset(after)
  {
    EffectBalance(before, after, e);
  }

  ghost predicate Balanced(trace: seq<View>, acts: seq<Action>, i: nat)
    requires AllEnabled(trace, acts) && i <= |acts|
  {
    && Sized(trace[i])
    && PushedBy(trace, acts, i) == ReturnedBy(trace, acts, i) + multiset(Contents(trace[i]))
  }

  lemma StepKeepsBalance(trace: seq<View>, acts: seq<Action>, i: nat, before: seq<Elt>, after: seq<Elt>, e: Effect)
    requires AllEnabled(trace, acts) && 0 < i <= |acts| && Balanced(trace, acts, i - 1)
    requires Sized(trace[i]) && before == Contents(trace[i - 1]) && after == Contents(trace[i])
    requires e == EffectOf(trace[i - 1], acts[i - 1]) && Performs(before, after, e)
    ensures Balanced(trace, acts, i)
  {
    BalanceKept(PushedBy(trace, acts, i - 1), ReturnedBy(trace, acts, i - 1), before, after, e);
  }

  /** Main theorem: in every interleaving of one owner with any number of thieves,
      whatever has been pushed has been returned exactly once or is still there. */
  lemma {:induction false} NothingLostOrDuplicated(trace: seq<View>, acts: seq<Action>, capacity: nat, i: nat)
    requires Scheduled(trace, acts, capacity) && i <= |acts|
    ensures Balanced(trace, acts, i)
  {
    if i == 0 {
      assert Contents(trace[0]) == [];
    } else {
      NothingLostOrDuplicated(trace, acts, capacity, i - 1);
      RunKeepsInv(trace, acts, capacity, i - 1);
      RefinesAt(trace, acts, capacity, i);
      StepKeepsBalance(trace, acts, i, Contents(trace[i - 1]), Contents(trace[i]), EffectOf(trace[i - 1], acts[i - 1]));
    }
  }

  lemma RefinesAt(trace: seq<View>, acts: seq<Action>, capacity: nat, i: nat)
    requires Scheduled(trace, acts, capacity) && 0 < i <= |acts| && Inv(trace[i - 1])
    ensures Sized(trace[i - 1]) && Sized(trace[i]) && Enabled(trace[i - 1], acts[i - 1])
    ensures Performs(Contents(trace[i - 1]), Contents(trace[i]), EffectOf(trace[i - 1], acts[i - 1]))
  {
    assert Enabled(trace[i - 1], acts[i - 1]) && trace[i - 1 + 1] == After(trace[i - 1], acts[i - 1]);
    ActionRefines(trace[i - 1], acts[i - 1]);
  }
}

/** The deque's operations as the owner and the thieves perform them: between any two
    shared accesses of one thread, the others may take any number of steps. */
module ChaseLevDeque {
  import opened ChaseLev

  datatype Who = TheOwner | AThief(i: nat)

  /** Who performs an action. */
  function By(a: Action): Who {
    match a
    case StealLoadTop(i) => AThief(i)
    case StealLoadBottom(i) => AThief(i)
    case StealLoadBuffer(i) => AThief(i)
    case StealLoadCapacity(i) => AThief(i)
    case StealRead(i) => AThief(i)
    case StealCas(i) => AThief(i)
    case _ => TheOwner
  }

  /** One thing that happened to the sequence, and who did it. */
  datatype Event = Event(who: Who, effect: Effect)

  function Logged(log: seq<Event>, who: Who, e: Effect): seq<Event> {
    if e.Nothing? then log else log + [Event(who, e)]
  }

  /** What one thread did, in order. */
  function Mine(log: seq<Event>, who: Who): (es: seq<Effect>)
    ensures forall e :: e in es ==> Event(who, e) in log
  {
    if log == [] then []
    else
      var last := log[|log| - 1];
      Mine(log[..|log| - 1], who) + if last.who == who then [last.effect] else []
  }

  ghost function PushedTo(log: seq<Event>): multiset<Elt> {
    if log == [] then multiset{} else PushedTo(log[..|log| - 1]) + PushedIn(log[|log| - 1].effect)
  }

  ghost function ReturnedFrom(log: seq<Event>): multiset<Elt> {
    if log == [] then multiset{} else ReturnedFrom(log[..|log| - 1]) + ReturnedIn(log[|log| - 1].effect)
  }

  lemma MineGrows(log: seq<Event>, actor: Who, who: Who, e: Effect)
    ensures Mine(Logged(log, actor, e), who)
         == if actor == who && !e.Nothing? then Mine(log, who) + [e] else Mine(log, who)
  {
    if !e.Nothing? { assert (log + [Event(actor, e)])[..|log|] == log; }
  }

  /** What an effect does to a sequence. */
  function Applied(c: seq<Elt>, e: Effect): seq<Elt> {
    match e
    case Nothing => c
    case Pushed(x) => c + [x]
    case PoppedBack(_) => if c == [] then [] else c[..|c| - 1]
    case PoppedFront(_) => if c == [] then [] else c[1..]
  }

  /** The sequence that results from the empty one when everything on record is done
      in order. */
  function Replay(log: seq<Event>): seq<Elt> {
    if log == [] then [] else Applied(Replay(log[..|log| - 1]), log[|log| - 1].effect)
  }

  /** Every effect on record was possible in its place: an item popped was there, at
      the end from which it was popped. */
  ghost predicate Lawful(log: seq<Event>) {
    log == []
    || (Lawful(log[..|log| - 1]) && Performs(Replay(log[..|log| - 1]), Replay(log), log[|log| - 1].effect))
  }

  /** The record, taken as one operation after the other, explains the contents. */
  ghost predicate Explained(log: seq<Event>, contents: seq<Elt>) {
    Lawful(log) && Replay(log) == contents
  }

  lemma ExplainedGrows(log: seq<Event>, who: Who, e: Effect, before: seq<Elt>, after: seq<Elt>)
    requires Explained(log, before) && Performs(before, after, e)
    ensures Explained(Logged(log, who, e), after)
  {
    if !e.Nothing? {
      assert (log + [Event(who, e)])[..|log|] == log;
      assert Applied(before, e) == after;
    }
  }

  /** What was pushed is what was returned and what is there. */
  lemma {:induction false} LawfulBalances(log: seq<Event>)
    requires Lawful(log)
    ensures PushedTo(log) == ReturnedFrom(log) + multiset(Replay(log))
  {
    if log != [] {
      var front := log[..|log| - 1];
      LawfulBalances(front);
      BalanceKept(PushedTo(front), ReturnedFrom(front), Replay(front), Replay(log), log[|log| - 1].effect);
    }
  }

  /** The deque was empty at some moment after the first n events. */
  ghost predicate WasEmpty(log: seq<Event>, n: nat) {
    exists m :: n <= m <= |log| && Replay(log[..m]) == []
  }

  /** A schedule of steps of threads other than `me`. */
  predicate Legal(s: View, acts: seq<Action>, me: Who)
    decreases |acts|
  {
    acts == [] || (Enabled(s, acts[0]) && By(acts[0]) != me && Legal(After(s, acts[0]), acts[1..], me))
  }

  /** The steps of others leave a thread's local variables alone. */
  lemma OthersKeepLocals(s: View, a: Action, me: Who)
    requires Enabled(s, a) && By(a) != me
    ensures |After(s, a).thieves| == |s.thieves|
    ensures me.TheOwner? ==> After(s, a).owner == s.owner
    ensures me.AThief? && me.i < |s.thieves| ==> After(s, a).thieves[me.i] == s.thieves[me.i]
  {
  }

  /** Buffers are only added, and the current one changes only when one is added. */
  predicate Older(s: View, r: View) {
    && |s.buffers| <= |r.buffers|
    && (forall k :: 0 <= k < |s.buffers| ==> |r.buffers[k]| == |s.buffers[k]|)
    && (|s.buffers| == |r.buffers| ==> r.cur == s.cur)
  }

  lemma OlderOn(s: View, m: View, r: View)
    requires Older(s, m) && Older(m, r)
    ensures Older(s, r)
  {
  }

  lemma OnlyGrowthChanges(s: View, a: Action)
    requires Enabled(s, a)
    ensures Older(s, After(s, a))
  {
  }

  /** top moves only when an item is taken. */
  lemma OnlyEffectsMoveTop(s: View, a: Action)
    requires Enabled(s, a) && EffectOf(s, a).Nothing?
    ensures After(s, a).top == s.top
  {
  }

  /** Lost: the thief has looked where its item is not. */
  datatype Popped = Empty | Abort | Lost | Success(x: Elt)

  /** An owner that has stored bottom and not seen yet whether it gets the last item. */
  predicate PopsLast(o: Owner) {
    o.PopStored? || o.PopRace?
  }

  /** There is no item, or only the one that the owner is popping. */
  ghost predicate NoneLeft(s: View) {
    Sized(s) && (Contents(s) == [] || (|Contents(s)| == 1 && PopsLast(s.owner)))
  }

  lemma LooksEmpty(s: View, i: nat)
    requires Inv(s) && Enabled(s, StealLoadBottom(i)) && s.thieves[i].t >= s.bottom
    ensures NoneLeft(After(s, StealLoadBottom(i)))
  {
    assert ThiefOk(s, s.thieves[i]);
  }

  /** The owner finds out how many items there are: none, one, or more. */
  lemma TopTellsLength(s: View)
    requires Inv(s) && Enabled(s, PopLoadTop)
    ensures s.owner.b < s.top <==> Contents(s) == []
    ensures s.owner.b == s.top <==> |Contents(s)| == 1
  {
    PopFailsOnlyWhenEmpty(s);
  }

  lemma LosesToTheLast(s: View)
    requires Inv(s) && Enabled(s, PopCas) && s.top != s.owner.t
    ensures Contents(s) == []
  {
  }

  class Deque {
    /** All buffers ever allocated; `cur` is the one in use. */
    var buffers: seq<seq<Elt>>
    var cur: nat
    var bottom: int
    var top: int
    /** Where each thread is, with its local variables. */
    var owner: Owner
    var thieves: seq<Thief>
    ghost var log: seq<Event>

    function Now(): View
      reads this
    {
      View(buffers, cur, bottom, top, owner, thieves)
    }

    ghost predicate Valid()
      reads this
    {
      Inv(Now()) && Explained(log, Contents(Now()))
    }

    constructor (capacity: nat, threads: nat)
      requires capacity > 0
      ensures Valid() && Contents(Now()) == [] && log == [] && owner == Rest && |thieves| == threads
      ensures forall i :: 0 <= i < threads ==> thieves[i] == Out
    {
      buffers, cur, bottom, top := [Blank(capacity)], 0, 0, 0;
      owner, thieves := Rest, seq(threads, _ => Out);
      log := [];
      new;
      OwnMultiple(capacity);
    }

    lemma ValidIsSized()
      requires Valid()
      ensures Sized(Now()) && Replay(log) == Contents(Now())
    {
    }

    lemma BufferExists(i: nat)
      requires Valid() && i < |thieves| && thieves[i].StealBoth?
      ensures thieves[i].buf < |buffers| && |buffers[thieves[i].buf]| > 0 && thieves[i].cap > 0
    {
      assert ThiefOk(Now(), thieves[i]);
    }

    /** What one step of `me` guarantees: it is the given action, and what it did to
        the sequence is on record. */
    twostate predicate Stepped(a: Action)
      reads this
    {
      && Enabled(old(Now()), a) && Now() == After(old(Now()), a)
      && log == Logged(old(log), By(a), EffectOf(old(Now()), a))
    }

    twostate lemma StepIsValid(a: Action)
      requires old(Valid()) && Stepped(a)
      ensures Valid() && Sized(Now())
    {
      ActionKeepsInv(old(Now()), a);
      ActionRefines(old(Now()), a);
      ExplainedGrows(old(log), By(a), EffectOf(old(Now()), a), Contents(old(Now())), Contents(Now()));
    }

    /** The record only grows, and top moves only if it does. */
    twostate predicate Recorded()
      reads this
    {
      old(log) <= log && (|log| == |old(log)| ==> top == old(top))
    }

    /** One step of a thread other than `me`. */
    method Perform(a: Action, me: Who)
      requires Valid() && Enabled(Now(), a) && By(a) != me && (me.AThief? ==> me.i < |thieves|)
      modifies this
      ensures Now() == After(old(Now()), a)
      ensures Valid() && Sized(Now()) && |thieves| == |old(thieves)| && Mine(log, me) == old(Mine(log, me))
      ensures me.TheOwner? ==> owner == old(owner)
      ensures me.AThief? ==> thieves[me.i] == old(thieves)[me.i]
      ensures Older(old(Now()), Now()) && Recorded()
    {
      hide Inv, Explained, After, Enabled, EffectOf, Contents, By, Older;
      var s := Now();
      var r := After(s, a);
      OnlyGrowthChanges(s, a);
      OthersKeepLocals(s, a, me);
      log := Logged(log, By(a), EffectOf(s, a));
      buffers, cur, bottom, top, owner, thieves := r.buffers, r.cur, r.bottom, r.top, r.owner, r.thieves;
      StepIsValid(a);
      MineGrows(old(log), By(a), me, EffectOf(s, a));
      if EffectOf(s, a).Nothing? { OnlyEffectsMoveTop(s, a); }
    }

    /** Any number of steps of the other threads. */
    method Others(me: Who)
      requires Valid() && (me.AThief? ==> me.i < |thieves|)
      modifies this
      ensures Valid() && Sized(Now()) && |thieves| == |old(thieves)| && Mine(log, me) == old(Mine(log, me))
      ensures me.TheOwner? ==> owner == old(owner)
      ensures me.AThief? ==> thieves[me.i] == old(thieves)[me.i]
      ensures Older(old(Now()), Now()) && Recorded()
    {
      ValidIsSized();
      assert Older(Now(), Now());
      hide Valid, After, Enabled, By, Mine, Sized, Older;
      assert Legal(Now(), [], me);
      var acts :| Legal(Now(), acts, me);
      while acts != []
        invariant Legal(Now(), acts, me)
        invariant Valid() && Sized(Now()) && |thieves| == |old(thieves)| && Mine(log, me) == old(Mine(log, me))
        invariant me.TheOwner? ==> owner == old(owner)
        invariant me.AThief? ==> thieves[me.i] == old(thieves)[me.i]
        invariant Older(old(Now()), Now()) && Recorded()
        decreases |acts|
      {
        ghost var s := Now();
        Perform(acts[0], me);
        OlderOn(old(Now()), s, Now());
        acts := acts[1..];
      }
    }

    /** grow: the live cells are copied one by one to their new places. */
    method Grow(oldBuf: seq<Elt>, newCapacity: nat, b: int, t: int) returns (newBuf: seq<Elt>)
      requires |oldBuf| > 0 && newCapacity > 0
      ensures newBuf == Copied(oldBuf, Blank(newCapacity), t, b)
    {
      newBuf := Blank(newCapacity);
      var i := t;
      while i < b
        invariant |newBuf| == newCapacity && (t <= b ==> t <= i <= b) && (b < t ==> i == t)
        invariant newBuf == Copied(oldBuf, Blank(newCapacity), t, i)
        decreases b - i
      {
        newBuf := Put(newBuf, i, Cell(oldBuf, i));
        i := i + 1;
      }
    }

    /** A thread took one step with effect e; `Nothing` leaves no record. */
    twostate predicate Did(who: Who, e: Effect)
      reads this
    {
      && Valid() && |thieves| == |old(thieves)| && Recorded()
      && Mine(log, who) == if e.Nothing? then old(Mine(log, who)) else old(Mine(log, who)) + [e]
    }

    // ---------- the owner's shared accesses, one by one ----------

    method PushReadsBottom(item: Elt) returns (b: int)
      requires Valid() && owner == Rest
      modifies this`owner
      ensures Did(TheOwner, Nothing) && owner == PushB(item, b)
    {
      ValidIsSized();
      hide Inv, Contents, Explained, Mine;
      b := bottom;
      owner := PushB(item, b);
      StepIsValid(PushLoadBottom(item));
    }

    method PushReadsTop(item: Elt, b: int) returns (t: int)
      requires Valid() && owner == PushB(item, b)
      modifies this`owner
      ensures Did(TheOwner, Nothing) && owner == PushT(item, b, t)
    {
      ValidIsSized();
      hide Inv, Contents, Explained, Mine;
      t := top;
      owner := PushT(item, b, t);
      StepIsValid(ChaseLev.PushLoadTop);
    }

    method MakeRoom(item: Elt, b: int, t: int)
      requires Valid() && owner == PushT(item, b, t)
      modifies this`owner, this`buffers, this`cur
      ensures Did(TheOwner, Nothing) && owner == PushPut(item, b)
    {
      ValidIsSized();
      hide Inv, Contents, Explained, Mine;
      if b - t >= |buffers[cur]| - 1 {
        var newBuf := Grow(buffers[cur], 2 * |buffers[cur]|, b, t);
        buffers, cur := buffers + [newBuf], |buffers|;
      }
      owner := PushPut(item, b);
      StepIsValid(ChaseLev.PushGrow);
    }

    method StoreItem(item: Elt, b: int)
      requires Valid() && owner == PushPut(item, b)
      modifies this`owner, this`buffers
      ensures Did(TheOwner, Nothing) && owner == PushDone(item, b)
    {
      ValidIsSized();
      hide Inv, Contents, Explained, Mine;
      buffers := buffers[cur := Put(buffers[cur], b, item)];
      owner := PushDone(item, b);
      StepIsValid(ChaseLev.PushStore);
    }

    method PublishItem(item: Elt, b: int)
      requires Valid() && owner == PushDone(item, b)
      modifies this`owner, this`bottom, this`log
      ensures Did(TheOwner, Pushed(item)) && owner == Rest
    {
      ValidIsSized();
      hide Inv, Contents, Explained, Mine;
      bottom := b + 1;
      owner := Rest;
      log := log + [Event(TheOwner, Pushed(item))];
      StepIsValid(ChaseLev.PushPublish);
      MineGrows(old(log), TheOwner, TheOwner, Pushed(item));
    }

    method PopReadsBottom() returns (b: int)
      requires Valid() && owner == Rest
      modifies this`owner
      ensures Did(TheOwner, Nothing) && owner == PopB(b)
    {
      ValidIsSized();
      hide Inv, Contents, Explained, Mine;
      b := bottom - 1;
      owner := PopB(b);
      StepIsValid(ChaseLev.PopLoadBottom);
    }

    method GiveUpLast(b: int)
      requires Valid() && owner == PopB(b)
      modifies this`owner, this`bottom
      ensures Did(TheOwner, Nothing) && owner == PopStored(b)
    {
      ValidIsSized();
      hide Inv, Contents, Explained, Mine;
      bottom := b;
      owner := PopStored(b);
      StepIsValid(ChaseLev.PopStoreBottom);
    }

    /** The read of top decides: the deque is empty, or the item is the owner's, or a
        thief may be after it too. */
    method PopReadsTop(b: int) returns (t: int, item: Elt)
      requires Valid() && owner == PopStored(b)
      modifies this`owner, this`log
      ensures b < t ==> Did(TheOwner, Nothing) && owner == PopFailed(t)
      ensures b > t ==> Did(TheOwner, PoppedBack(item)) && owner == PopTaken(item)
      ensures b == t ==> Did(TheOwner, Nothing) && owner == PopRace(item, t) && |Replay(old(log))| == 1
      ensures b < t <==> Replay(old(log)) == []
    {
      TopTellsLength(Now());
      ValidIsSized();
      hide Inv, Contents, Explained, Mine, Replay;
      t := top;
      item := 0;
      if b < t {
        owner := PopFailed(t);
      } else {
        item := Cell(buffers[cur], b);
        if b > t {
          owner := PopTaken(item);
          log := log + [Event(TheOwner, PoppedBack(item))];
        } else {
          owner := PopRace(item, t);
        }
      }
      StepIsValid(ChaseLev.PopLoadTop);
      MineGrows(old(log), TheOwner, TheOwner, if b > t then PoppedBack(item) else Nothing);
    }

    method RestoreEmpty(t: int)
      requires Valid() && owner == PopFailed(t)
      modifies this`owner, this`bottom
      ensures Did(TheOwner, Nothing) && owner == Rest
    {
      ValidIsSized();
      hide Inv, Contents, Explained, Mine;
      bottom := t;
      owner := Rest;
      StepIsValid(ChaseLev.PopFail);
    }

    method HandOver(item: Elt)
      requires Valid() && owner == PopTaken(item)
      modifies this`owner
      ensures Did(TheOwner, Nothing) && owner == Rest
    {
      ValidIsSized();
      hide Inv, Contents, Explained, Mine;
      owner := Rest;
      StepIsValid(ChaseLev.PopReturn);
    }

    method RaceForLast(item: Elt, t: int) returns (won: bool)
      requires Valid() && owner == PopRace(item, t)
      modifies this`owner, this`top, this`log
      ensures Did(TheOwner, if won then PoppedBack(item) else Nothing) && owner == PopRestore(t)
      ensures !won ==> Replay(log) == []
    {
      if top != t { LosesToTheLast(Now()); }
      ValidIsSized();
      hide Inv, Contents, Explained, Mine, Replay;
      won := top == t;
      if won {
        top := t + 1;
        log := log + [Event(TheOwner, PoppedBack(item))];
      }
      owner := PopRestore(t);
      StepIsValid(ChaseLev.PopCas);
      MineGrows(old(log), TheOwner, TheOwner, if won then PoppedBack(item) else Nothing);
    }

    method RestoreBottom(t: int)
      requires Valid() && owner == PopRestore(t)
      modifies this`owner, this`bottom
      ensures Did(TheOwner, Nothing) && owner == Rest
    {
      ValidIsSized();
      hide Inv, Contents, Explained, Mine;
      bottom := t + 1;
      owner := Rest;
      StepIsValid(ChaseLev.PopReset);
    }

    // ---------- a thief's shared accesses, one by one ----------

    method ThiefReadsTop(i: nat) returns (t: int)
      requires Valid() && i < |thieves| && thieves[i] == Out
      modifies this`thieves
      ensures Did(AThief(i), Nothing) && thieves[i] == StealT(t) && t == top
    {
      ValidIsSized();
      hide Inv, Contents, Explained, Mine;
      t := top;
      thieves := thieves[i := StealT(t)];
      StepIsValid(StealLoadTop(i));
    }

    method ThiefReadsBottom(i: nat, t: int) returns (empty: bool)
      requires Valid() && i < |thieves| && thieves[i] == StealT(t)
      modifies this`thieves
      ensures Did(AThief(i), Nothing) && thieves[i] == if empty then Out else StealB(t)
      ensures empty ==> NoneLeft(Now())
    {
      if t >= bottom { LooksEmpty(Now(), i); }
      ValidIsSized();
      hide Inv, Contents, Explained, Mine;
      empty := t >= bottom;
      thieves := thieves[i := if empty then Out else StealB(t)];
      StepIsValid(StealLoadBottom(i));
    }

    /** The buffer is loaded before its capacity or after. */
    method ThiefReadsBuffer(i: nat, t: int) returns (buf: nat)
      requires Valid() && i < |thieves| && (thieves[i] == StealB(t) || (thieves[i].StealCap? && thieves[i].t == t))
      modifies this`thieves
      ensures Did(AThief(i), Nothing) && buf == cur < |buffers|
      ensures thieves[i] == if old(thieves)[i].StealB? then StealBuf(t, buf) else StealBoth(t, buf, old(thieves)[i].cap)
    {
      ValidIsSized();
      hide Inv, Contents, Explained, Mine;
      buf := cur;
      thieves := thieves[i := if thieves[i].StealB? then StealBuf(t, buf) else StealBoth(t, buf, thieves[i].cap)];
      StepIsValid(StealLoadBuffer(i));
    }

    method ThiefReadsCapacity(i: nat, t: int) returns (cap: nat)
      requires Valid() && i < |thieves| && (thieves[i] == StealB(t) || (thieves[i].StealBuf? && thieves[i].t == t))
      modifies this`thieves
      ensures Did(AThief(i), Nothing) && cur < |buffers| && cap == |buffers[cur]|
      ensures thieves[i] == if old(thieves)[i].StealB? then StealCap(t, cap) else StealBoth(t, old(thieves)[i].buf, cap)
    {
      ValidIsSized();
      hide Inv, Contents, Explained, Mine;
      cap := |buffers[cur]|;
      thieves := thieves[i := if thieves[i].StealB? then StealCap(t, cap) else StealBoth(t, thieves[i].buf, cap)];
      StepIsValid(StealLoadCapacity(i));
    }

    /** The read meets the right cell exactly when capacity and buffer fit together. */
    method ThiefReadsItem(i: nat, t: int, buf: nat, cap: nat) returns (found: bool, item: Elt)
      requires Valid() && i < |thieves| && thieves[i] == StealBoth(t, buf, cap)
      modifies this`thieves
      ensures Did(AThief(i), Nothing) && buf < |buffers| && |buffers[buf]| > 0 && cap > 0
      ensures found <==> Aligned(t, |buffers[buf]|, cap)
      ensures thieves[i] == if found then StealItem(t, item) else Astray(t)
    {
      BufferExists(i);
      ValidIsSized();
      hide Inv, Contents, Explained, Mine;
      found := Aligned(t, |buffers[buf]|, cap);
      item := Cell(buffers[buf], t);
      thieves := thieves[i := if found then StealItem(t, item) else Astray(t)];
      StepIsValid(StealRead(i));
    }

    method ThiefClaims(i: nat, t: int, item: Elt) returns (won: bool)
      requires Valid() && i < |thieves| && thieves[i] == StealItem(t, item)
      modifies this`thieves, this`top, this`log
      ensures Did(AThief(i), if won then PoppedFront(item) else Nothing) && thieves[i] == Out
      ensures won <==> old(top) == t
    {
      ValidIsSized();
      hide Inv, Contents, Explained, Mine;
      won := top == t;
      if won {
        top := t + 1;
        log := log + [Event(AThief(i), PoppedFront(item))];
      }
      thieves := thieves[i := Out];
      StepIsValid(StealCas(i));
      MineGrows(old(log), AThief(i), AThief(i), if won then PoppedFront(item) else Nothing);
    }

    // ---------- the operations ----------

    /** push_back takes effect exactly once, whatever the thieves do meanwhile.  Together
        with what `Valid` says of the record, the contents follow from it: they are the
        old ones and the item if nobody else has done anything. */
    method PushBack(item: Elt)
      requires Valid() && owner == Rest
      modifies this
      ensures Valid() && owner == Rest && |thieves| == |old(thieves)|
      ensures Mine(log, TheOwner) == old(Mine(log, TheOwner)) + [Pushed(item)] && old(log) <= log
    {
      hide Valid, Mine;
      var b := PushReadsBottom(item);
      Others(TheOwner);
      var t := PushReadsTop(item, b);
      Others(TheOwner);
      MakeRoom(item, b, t);
      Others(TheOwner);
      StoreItem(item, b);
      Others(TheOwner);
      PublishItem(item, b);
    }

    /** pop_back returns an item exactly if it removed it, once, from the back.  `at` is
        how much was on record when the owner read top.  The answer is Empty exactly if
        the deque was empty then; if there was one item and another thread took that
        before the owner could, it is Abort. */
    method PopBack() returns (r: Popped, ghost at: nat)
      requires Valid() && owner == Rest
      modifies this
      ensures Valid() && owner == Rest && |thieves| == |old(thieves)|
      ensures Mine(log, TheOwner) == old(Mine(log, TheOwner)) + if r.Success? then [PoppedBack(r.x)] else []
      ensures old(log) <= log && |old(log)| <= at <= |log|
      ensures r.Empty? <==> Replay(log[..at]) == []
      ensures r.Abort? ==> |Replay(log[..at])| == 1 && WasEmpty(log, at) && |log| > at
      ensures !r.Lost?
    {
      hide Valid, Mine, Replay;
      var b := BeginPop();
      ghost var seen := log;
      at := |log|;
      var t, item := PopReadsTop(b);
      Others(TheOwner);
      if b < t {
        RestoreEmpty(t);
        r := Empty;
      } else if b > t {
        HandOver(item);
        r := Success(item);
      } else {
        var won := SettleRace(item, t);
        r := if won then Success(item) else Abort;
      }
      assert log[..at] == seen;
    }

    /** bottom is lowered before top is read. */
    method BeginPop() returns (b: int)
      requires Valid() && owner == Rest
      modifies this
      ensures Did(TheOwner, Nothing) && owner == PopStored(b)
    {
      hide Valid, Mine, Replay;
      b := PopReadsBottom();
      Others(TheOwner);
      GiveUpLast(b);
      Others(TheOwner);
    }

    method SettleRace(item: Elt, t: int) returns (won: bool)
      requires Valid() && owner == PopRace(item, t)
      modifies this
      ensures Did(TheOwner, if won then PoppedBack(item) else Nothing) && owner == Rest
      ensures !won ==> WasEmpty(log, |old(log)|)
    {
      hide Valid, Mine, Replay;
      won := RaceForLast(item, t);
      ghost var raced := log;
      Others(TheOwner);
      RestoreBottom(t);
      assert log[..|raced|] == raced;
    }

    /** pop_front by thief i returns an item exactly if it removed it, once, from the
        front, whatever the owner and the other thieves do meanwhile.  It looks into
        the wrong cell only if the buffer has grown meanwhile, gives up only if another
        thread has taken an item meanwhile, and finds the deque empty only if nothing is
        left for it. */
    method PopFront(i: nat) returns (r: Popped)
      requires Valid() && i < |thieves| && thieves[i] == Out
      modifies this
      ensures Valid() && |thieves| == |old(thieves)|
      ensures if r.Lost? then thieves[i].Astray? && |buffers| > |old(buffers)| else thieves[i] == Out
      ensures Mine(log, AThief(i)) == old(Mine(log, AThief(i))) + if r.Success? then [PoppedFront(r.x)] else []
      ensures old(log) <= log && (r.Abort? ==> |log| > |old(log)|) && (r.Empty? ==> NoneLeft(Now()))
    {
      hide Valid, Mine;
      var t := ThiefReadsTop(i);
      Others(AThief(i));
      var empty := ThiefReadsBottom(i, t);
      if empty { return Empty; }
      Others(AThief(i));
      var buf, cap := LoadBoth(i, t);
      Others(AThief(i));
      r := ReadAndClaim(i, t, buf, cap);
    }

    /** The cell is read first and claimed afterwards, by advancing top. */
    method ReadAndClaim(i: nat, t: int, buf: nat, cap: nat) returns (r: Popped)
      requires Valid() && i < |thieves| && thieves[i] == StealBoth(t, buf, cap) && buf < |buffers|
      modifies this
      ensures Did(AThief(i), if r.Success? then PoppedFront(r.x) else Nothing) && !r.Empty?
      ensures if r.Lost? then thieves[i].Astray? && cap != |old(buffers)[buf]| else thieves[i] == Out
      ensures (r.Abort? && old(top) == t ==> |log| > |old(log)|) && |buffers| >= |old(buffers)|
    {
      hide Valid, Mine;
      var found, item := ThiefReadsItem(i, t, buf, cap);
      if !found { return Lost; }
      Others(AThief(i));
      var won := ThiefClaims(i, t, item);
      r := if won then Success(item) else Abort;
    }

    /** Buffer and capacity are loaded in an order that the language leaves open. */
    method LoadBoth(i: nat, t: int) returns (buf: nat, cap: nat)
      requires Valid() && i < |thieves| && thieves[i] == StealB(t)
      modifies this
      ensures Did(AThief(i), Nothing) && thieves[i] == StealBoth(t, buf, cap)
      ensures Older(old(Now()), Now()) && buf < |buffers|
      ensures |buffers| == |old(buffers)| ==> cap == |buffers[buf]|
    {
      hide Valid, Mine;
      var bufferFirst: bool := *;
      if bufferFirst {
        buf := ThiefReadsBuffer(i, t);
        Others(AThief(i));
        cap := ThiefReadsCapacity(i, t);
      } else {
        cap := ThiefReadsCapacity(i, t);
        Others(AThief(i));
        buf := ThiefReadsBuffer(i, t);
      }
    }
  }
}

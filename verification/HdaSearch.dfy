/** The shared object of HDA* and the critical sections the threads run on it. */
module HdaSearch {
  import opened Graphs
  import opened HdaModel
  import opened HdaTermination
  import opened HdaOptimality

  /** Exactly the messages below the bound are kept. */
  ghost predicate Sifted(pb: Problem, bound: Option<nat>, ns: seq<Node>, keep: seq<bool>) {
    |keep| == |ns| && forall i :: 0 <= i < |ns| ==> (keep[i] <==> !TooCostly(pb, bound, ns[i]))
  }

  /** `threads[t]` holds the fields and local variables of thread t.  A method is
      one action of one thread; between two calls any other thread may act. */
  class PRAStar {
    const pb: Problem
    var threads: seq<Thread>
    var counter: int
    var bound: Option<nat>
    var best: Option<nat>
    var done: bool

    function Now(): View
      reads this
    {
      View(threads, counter, bound, best, done)
    }

    ghost predicate Valid()
      reads this
    {
      WellPosed(pb) && OptInv(pb, Now())
    }

    /** The method performed action a of thread t. */
    twostate predicate Did(t: nat, a: Action)
      reads this
    {
      Enabled(pb, old(Now()), t, a) && Now() == After(pb, old(Now()), t, a)
    }

    constructor (pb: Problem)
      requires WellPosed(pb)
      ensures Valid() && this.pb == pb && Initial(pb, Now())
    {
      this.pb := pb;
      var n, root := pb.threads, pb.owner(pb.init);
      threads := seq(n, t => Thread({}, t == root, map[], [], true, seq(n, _ => []), false, Loop));
      counter, bound, best, done := 0, None, None, false;
      new;
      InitialOpt(pb, Now());
    }

    /** Move every buffered message into the remote queue, then run post_send.
        The caller holds the lock of the destination. */
    method Flush(t: nat, d: nat)
      requires t < |threads| && d < |threads| && d < |threads[t].out| && (d == t ==> threads[t].out[d] == [])
      modifies this`threads, this`counter
      ensures Now() == Deliver(old(Now()), t, d)
    {
      ghost var s := Now();
      var buffer := threads[t].out[d];
      var queue := threads[d].q;
      var i := 0;
      while i < |buffer|
        invariant 0 <= i <= |buffer| && queue == threads[d].q + buffer[..i]
      {
        queue := queue + [buffer[i]];
        i := i + 1;
      }
      assert buffer[..i] == buffer;
      threads := threads[t := threads[t].(out := threads[t].out[d := []])];
      if buffer != [] {
        CountChange(threads, d, threads[d].(q := queue, qEmpty := false, completed := false));
        PostSend(d, queue);
      }
    }

    /** post_send: d has something to do again, and if it had reported completion its
        report is taken back with the flag, so that the counter keeps step. */
    method PostSend(d: nat, queue: seq<Node>)
      requires d < |threads|
      modifies this`threads, this`counter
      ensures threads == old(threads)[d := old(threads)[d].(q := queue, qEmpty := false, completed := false)]
      ensures d !in CompletedThreads(threads)
      ensures counter - |CompletedThreads(threads)| == old(counter) - |CompletedThreads(old(threads))|
    {
      CountChange(threads, d, threads[d].(q := queue, qEmpty := false, completed := false));
      if threads[d].completed {
        counter := counter - 1;
      }
      threads := threads[d := threads[d].(q := queue, qEmpty := false, completed := false)];
    }

    /** try_flush when the lock is free. */
    method TryFlush(t: nat, d: nat)
      requires Valid() && t < |threads| && d < |threads| && (threads[t].pc.Top? || threads[t].pc.Taking?)
      modifies this`threads, this`counter
      ensures Valid() && Did(t, HdaModel.TryFlush(d))
    {
      OwnStores(pb, Now(), t);
      SizesOf(pb, Now(), t);
      ActionKeepsOpt(pb, Now(), t, HdaModel.TryFlush(d));
      Flush(t, d);
    }

    /** Duplicate detection over the receive queue. */
    method Merge(t: nat) returns (th: Thread, ghost keep: seq<bool>)
      requires t < |threads|
      ensures Sifted(pb, bound, threads[t].q, keep)
      ensures th == Drain(threads[t], keep)
      ensures th.q == [] && th.qEmpty
      ensures threads[t].open <= threads[t].closed.Keys ==> Merged(threads[t], th, threads[t].q)
      ensures forall i :: 0 <= i < |threads[t].q| && threads[t].open <= threads[t].closed.Keys ==>
                TooCostly(pb, bound, threads[t].q[i]) || InClosed(th, threads[t].q[i])
    {
      var q := threads[t].q;
      th := threads[t];
      keep := [];
      var i := 0;
      while i < |q|
        invariant 0 <= i <= |q| && |keep| == i
        invariant Sifted(pb, bound, q[..i], keep)
        invariant th == Absorb(threads[t], q[..i], keep)
      {
        var c := q[i];
        ghost var before := keep;
        assert q[..i + 1][..i] == q[..i];
        if TooCostly(pb, bound, c) {
          keep := keep + [false];
        } else {
          if c.v in th.closed {
            if th.closed[c.v] > c.g {
              th := th.(closed := th.closed[c.v := c.g], open := th.open + {c.v});
            }
          } else {
            th := th.(open := th.open + {c.v}, closed := th.closed[c.v := c.g]);
          }
          keep := keep + [true];
        }
        assert keep[..i] == before;
        i := i + 1;
      }
      assert q[..i] == q;
      if threads[t].open <= threads[t].closed.Keys { AbsorbMerges(threads[t], q, keep); }
      th := th.(q := [], qEmpty := true);
    }

    /** flush_receives, up to the busy wait if the thread has nothing to do. */
    method FlushReceives(t: nat) returns (ghost keep: seq<bool>)
      requires Valid() && t < |threads|
      requires (threads[t].pc.Top? && !threads[t].qEmpty)
               || (threads[t].pc.Taking? && threads[t].open == {} && !threads[t].rootOpen)
      modifies this`threads, this`counter
      ensures Valid() && Did(t, Receive(keep)) && Sifted(pb, bound, old(threads)[t].q, keep)
    {
      ghost var s := Now();
      SizesOf(pb, s, t);
      var th := threads[t];
      var hasSends := th.pc.hs;
      var merged;
      merged, keep := Merge(t);
      ActionKeepsOpt(pb, s, t, Receive(keep));
      if th.qEmpty && !hasSends && th.open == {} && !th.rootOpen {
        EmptyQueueWhileBusy(pb, s, t);
        threads := threads[t := th.(completed := true, pc := Waiting)];
        counter := counter + 1;
      } else {
        threads := threads[t := merged.(pc := if th.pc.Top? then Taking(hasSends) else Received(hasSends))];
      }
    }

    /** flush_receives after the busy wait. */
    method AfterSpin(t: nat) returns (ghost keep: seq<bool>)
      requires Valid() && t < |threads| && threads[t].pc.Woken?
      modifies this`threads
      ensures Valid() && Did(t, Wake(keep)) && Sifted(pb, bound, old(threads)[t].q, keep)
      ensures old(counter) >= pb.threads ==> threads[t].q == [] && threads[t].qEmpty
    {
      ghost var s := Now();
      SizesOf(pb, s, t);
      var merged;
      merged, keep := Merge(t);
      ActionKeepsOpt(pb, s, t, Wake(keep));
      if counter >= pb.threads {
        WokenIsEmpty(pb, s, t);
        threads := threads[t := threads[t].(pc := Received(false))];
      } else {
        threads := threads[t := merged.(pc := Received(false))];
      }
    }

    /** The test after flush_receives that ends the search. */
    method CheckComplete(t: nat)
      requires Valid() && t < |threads| && threads[t].pc.Received?
      modifies this`threads, this`done
      ensures Valid() && Did(t, Check)
      ensures done && !old(done) ==> NothingPending(pb, Now()) && BoundIsOptimal(pb, bound)
      ensures done <==> old(done) || forall x :: 0 <= x < |old(threads)| ==> old(threads)[x].completed
    {
      ghost var s := Now();
      SizesOf(pb, s, t);
      CompleteMeansAll(pb, s);
      ActionKeepsOpt(pb, s, t, Check);
      var hasSends := threads[t].pc.hs;
      if counter >= pb.threads {
        done := true;
        threads := threads[t := threads[t].(pc := Loop)];
        CompleteIsQuiet(pb, Now());
        CompleteIsOptimal(pb, Now());
      } else {
        threads := threads[t := threads[t].(pc := Taking(hasSends))];
      }
    }

    /** send_state for the next child; `lockFree` says whether try_lock succeeds. */
    method SendState(t: nat, lockFree: bool)
      requires Valid() && t < |threads| && threads[t].pc.Expanding?
      requires threads[t].pc.node.v < |pb.adj| && threads[t].pc.next < |pb.adj[threads[t].pc.node.v]|
      modifies this`threads, this`counter
      ensures Valid() && Did(t, KeepChild(lockFree)) && |threads| == |old(threads)|
      ensures var pc := old(threads)[t].pc;
              Merged(old(threads)[t], threads[t], [Child(pb, pc.node, pc.next)])
    {
      hide TermInv, DutyInv, Send;
      ghost var s := Now();
      OwnStores(pb, s, t);
      SizesOf(pb, s, t);
      ActionKeepsOpt(pb, s, t, KeepChild(lockFree));
      var pc := threads[t].pc;
      var c := Child(pb, pc.node, pc.next);
      SendShape(pb, s, t, c, lockFree);
      Dispatch(t, c, lockFree);
      threads := threads[t := threads[t].(pc := Expanding(pc.node, pc.next + 1))];
    }

    method Dispatch(t: nat, c: Node, lockFree: bool)
      requires t < |threads| == |threads[t].out| && pb.owner(c.v) < |threads| && threads[t].out[t] == []
      modifies this`threads, this`counter
      ensures |threads| == old(|threads|) && Now() == Send(pb, old(Now()), t, c, lockFree)
    {
      var th := threads[t];
      var d := pb.owner(c.v);
      if d == t {
        if c.v in th.closed {
          if th.closed[c.v] > c.g {
            threads := threads[t := th.(closed := th.closed[c.v := c.g], open := th.open + {c.v})];
          } else {
            assert threads == threads[t := th];
          }
        } else {
          threads := threads[t := th.(open := th.open + {c.v}, closed := th.closed[c.v := c.g])];
        }
      } else {
        threads := threads[t := th.(out := th.out[d := th.out[d] + [c]])];
        if lockFree {
          Flush(t, d);
        }
      }
    }

    /** Any number of actions of other threads. */
    method Others(me: nat)
      requires Valid() && me < pb.threads
      modifies this
      ensures Valid() && |threads| == |old(threads)| == pb.threads
      ensures threads[me].pc == old(threads)[me].pc && NoHigher(bound, old(bound))
    {
      hide OptInv, After, Enabled;
      SizesAll(pb, Now());
      assert Legal(pb, Now(), [], me);
      var turns: seq<Turn> :| Legal(pb, Now(), turns, me);
      while turns != []
        invariant Legal(pb, Now(), turns, me) && Valid() && |threads| == |old(threads)| == pb.threads
        invariant threads[me].pc == old(threads)[me].pc && NoHigher(bound, old(bound))
        decreases |turns|
      {
        var x := turns[0];
        OthersLeave(pb, Now(), x.t, x.a, me);
        ActionKeepsOpt(pb, Now(), x.t, x.a);
        var s := After(pb, Now(), x.t, x.a);
        threads, counter, bound, best, done := s.threads, s.counter, s.bound, s.best, s.done;
        turns := turns[1..];
      }
    }

    /** The compare-and-swap on the bound, or the look that finds it low enough. */
    method Publishes(t: nat)
      requires Valid() && t < |threads| && threads[t].pc.Publishing?
      modifies this`threads, this`bound
      ensures Valid() && Did(t, Publish)
    {
      SizesOf(pb, Now(), t);
      ActionKeepsOpt(pb, Now(), t, Publish);
      var pc := threads[t].pc;
      if bound.None? || pc.b < bound.value {
        bound := Some(pc.b);
      }
      threads := threads[t := threads[t].(pc := Expanding(pc.node, 0))];
    }

    /** set_path after the solution stream has been updated.  Other threads act
        between the read of the bound and the compare-and-swap, which is retried
        until nobody has been quicker; a failure means that the bound has fallen, so
        the loop ends.  `found` is the bound in the end, just before this thread's
        own access. */
    method PublishBound(t: nat) returns (ghost found: Option<nat>)
      requires Valid() && t < |threads| && threads[t].pc.Publishing?
      modifies this
      ensures Valid() && |threads| == |old(threads)|
      ensures threads[t].pc == Expanding(old(threads)[t].pc.node, 0)
      ensures NoHigher(found, old(bound)) && bound == Some(Min(found, old(threads)[t].pc.b))
    {
      hide OptInv;
      SizesAll(pb, Now());
      var b := threads[t].pc.b;
      var oldb := bound;
      while oldb.None? || b < oldb.value
        invariant Valid() && |threads| == |old(threads)| == pb.threads && threads[t].pc == old(threads)[t].pc
        invariant NoHigher(oldb, old(bound)) && bound == oldb
        decreases if oldb.None? then 1 else 0, if oldb.None? then 0 else oldb.value
      {
        Others(t);
        if bound == oldb {
          found := bound;
          Publishes(t);
          return;
        }
        oldb := bound;
      }
      found := bound;
      Publishes(t);
    }
  }

  datatype Turn = Turn(t: nat, a: Action)

  /** A schedule of actions of threads other than `me`. */
  predicate Legal(pb: Problem, s: View, turns: seq<Turn>, me: nat)
    decreases |turns|
  {
    turns == []
    || (turns[0].t != me && Enabled(pb, s, turns[0].t, turns[0].a)
        && Legal(pb, After(pb, s, turns[0].t, turns[0].a), turns[1..], me))
  }

  /** None is infinite. */
  predicate NoHigher(b: Option<nat>, c: Option<nat>) {
    c.Some? ==> b.Some? && b.value <= c.value
  }

  lemma OthersLeave(pb: Problem, s: View, x: nat, a: Action, me: nat)
    requires Enabled(pb, s, x, a) && me < pb.threads && x != me
    ensures |After(pb, s, x, a).threads| == pb.threads && After(pb, s, x, a).threads[me].pc == s.threads[me].pc
    ensures NoHigher(After(pb, s, x, a).bound, s.bound)
  {
  }

  lemma SizesAll(pb: Problem, s: View)
    requires OptInv(pb, s)
    ensures |s.threads| == pb.threads
  {
  }

  lemma SizesOf(pb: Problem, s: View, t: nat)
    requires TermInv(pb, s) && t < pb.threads
    ensures |s.threads| == pb.threads && |s.threads[t].out| == pb.threads
  {
    assert ThreadOk(pb, s.threads[t], t, IsComplete(pb, s), s.done);
  }

  lemma EmptyQueueWhileBusy(pb: Problem, s: View, t: nat)
    requires TermInv(pb, s) && t < pb.threads && s.threads[t].qEmpty
    ensures s.threads[t].q == []
  {
    assert ThreadOk(pb, s.threads[t], t, IsComplete(pb, s), s.done);
  }

  lemma WokenIsEmpty(pb: Problem, s: View, t: nat)
    requires TermInv(pb, s) && t < pb.threads && IsComplete(pb, s)
    ensures s.threads[t].q == [] && s.threads[t].qEmpty
  {
    CompleteMeansAll(pb, s);
    assert ThreadOk(pb, s.threads[t], t, true, s.done);
  }
}

/** The shared object of PASE and the code each worker runs on it. */
module PaseSearch {
  import opened Graphs
  import opened PaseModel

  ghost predicate Defined(states: seq<VertexState>, es: seq<Entry>) {
    forall e :: e in es ==> e.vertex < |states| && states[e.vertex].g.Some?
  }

  lemma EntriesAreDefined(pb: Problem, b: Board)
    requires BoardOk(pb, b)
    ensures Defined(b.states, b.entries)
  {
    forall e | e in b.entries ensures e.vertex < |b.states| && b.states[e.vertex].g.Some? {
      assert EntryOk(pb, b, e);
    }
  }

  lemma {:induction false} PurgeIsPart(es: seq<Entry>, states: seq<VertexState>)
    ensures forall x :: x in Purge(es, states) ==> x in es
  {
    if es != [] { PurgeIsPart(es[..|es| - 1], states); }
  }

  /** The scan has passed the first k of the original entries: `cur` is what it
      has left in the multimap and `iv` the position of its iterator. */
  ghost predicate ScannedTo(all: seq<Entry>, k: nat, states: seq<VertexState>, cur: seq<Entry>, iv: nat) {
    k <= |all| && iv == |Purge(all[..k], states)| && cur == PurgeUpTo(all, k, states)
  }

  lemma ScanStep(all: seq<Entry>, k: nat, states: seq<VertexState>, cur: seq<Entry>, iv: nat)
    requires ScannedTo(all, k, states, cur, iv) && k < |all|
    ensures iv < |cur| && cur[iv] == all[k] && cur[..iv] == Purge(all[..k], states)
    ensures if IsExpanded(states, all[k].vertex)
            then ScannedTo(all, k + 1, states, cur[..iv] + cur[iv + 1..], iv)
            else ScannedTo(all, k + 1, states, cur, iv + 1)
  {
    assert all[..k + 1][..k] == all[..k];
    assert all[k..] == [all[k]] + all[k + 1..];
  }

  ghost predicate NoneClaimableBefore(pb: Problem, b: Board, k: nat) {
    forall i: nat :: i < k ==> !Claimable(pb, b, i)
  }

  lemma NoneClaimableExtends(pb: Problem, b: Board, k: nat)
    requires NoneClaimableBefore(pb, b, k) && !Claimable(pb, b, k)
    ensures NoneClaimableBefore(pb, b, k + 1)
  {
  }

  /** One object per search.  `workers[w]` holds worker w's local variables, so
      that a method call is one step of that worker; other workers may run any
      of their own steps between two calls. */
  class Search {
    const pb: Problem
    const states: array<VertexState>
    var entries: seq<Entry>
    var nextId: nat
    var isDone: bool
    var workers: seq<Worker>

    ghost function Current(): View
      reads this, states
    {
      View(Board(states[..], entries, nextId), isDone, workers)
    }

    ghost predicate Valid()
      reads this, states
    {
      WellPosed(pb) && Inv(pb, Current())
    }

    constructor (pb: Problem, threads: nat)
      requires WellPosed(pb)
      ensures Valid() && this.pb == pb && Initial(pb, Current()) && |workers| == threads
      ensures fresh(states)
    {
      var src := pb.source;
      this.pb := pb;
      states := new VertexState[|pb.adj|](v => VertexState(false, false, if v == src then Some(0) else None, -1));
      entries := [Entry(pb.h(pb.source, pb.dest), pb.source, 0)];
      nextId := 1;
      isDone := false;
      workers := seq(threads, _ => Idle);
      new;
      InitialOk(pb, Current());
    }

    /** The scan under the lock.  The worker either claims the first entry that is
        independent of everything before it, or erases entries of expanded
        vertices and gives up; while the search is not done it gives up only if
        no entry at all can be claimed. */
    method FindIndependent(w: nat) returns (found: bool)
      requires Valid() && w < |workers| && workers[w].Idle?
      modifies this`entries, this`workers, states
      ensures Valid()
      ensures found ==> Claims(pb, old(Current()), Current(), w)
      ensures !found ==> FindsNothing(pb, old(Current()), Current(), w)
      ensures !found && !isDone ==> forall i: nat :: !Claimable(pb, old(Current()).board, i)
    {
      ghost var s := Current();
      EntriesAreDefined(pb, s.board);
      ghost var k;
      var itv;
      found, itv, k := Scan();
      if found {
        workers := workers[w := Claimed(itv)];
        assert Claims(pb, s, Current(), w);
      } else {
        assert FindsNothing(pb, s, Current(), w);
      }
      StepKeepsInv(pb, s, Current(), w);
    }

    method Scan() returns (found: bool, itv: Entry, ghost k: nat)
      requires Defined(states[..], entries)
      modifies this`entries, states
      ensures k <= |old(entries)|
      ensures found ==> Claimable(pb, old(Current()).board, k) && itv == old(entries)[k]
                        && Current().board == Claim(old(Current()).board, k)
      ensures !found ==> states[..] == old(states[..]) && entries == PurgeUpTo(old(entries), k, states[..])
      ensures !found && !isDone ==> k == |old(entries)|
      ensures NoneClaimableBefore(pb, old(Current()).board, k)
    {
      ghost var all := entries;
      ghost var b := Current().board;
      k := 0;
      var iv := 0;
      assert all == PurgeUpTo(all, 0, b.states);
      while !isDone && iv < |entries|
        invariant states[..] == b.states && ScannedTo(all, k, b.states, entries, iv)
        invariant NoneClaimableBefore(pb, b, k)
        decreases |all| - k
      {
        assert k < |all|;
        ScanStep(all, k, b.states, entries, iv);
        assert all[k] in all;
        var v := entries[iv].vertex;
        if states[v].isExpanded {
          entries := entries[..iv] + entries[iv + 1..];
        } else {
          var valid := Candidate(iv, all, k);
          if valid {
            itv := entries[iv];
            states[v] := states[v].(beingExpanded := true);
            assert Current().board == Claim(b, k);
            return true, itv, k;
          }
          iv := iv + 1;
        }
        NoneClaimableExtends(pb, b, k);
        k := k + 1;
      }
      found, itv := false, Entry(0, 0, 0);
    }

    method Candidate(iv: nat, ghost all: seq<Entry>, ghost k: nat) returns (valid: bool)
      requires k < |all| && ScannedTo(all, k, states[..], entries, iv)
      requires Defined(states[..], all) && !IsExpanded(states[..], all[k].vertex)
      ensures valid <==> Claimable(pb, Board(states[..], all, nextId), k)
    {
      ScanStep(all, k, states[..], entries, iv);
      PurgeIsPart(all[..k], states[..]);
      assert all[k] in all;
      valid := Passes(entries[iv].vertex, iv);
    }

    /** The inner loop: compare the candidate with every entry before it. */
    method Passes(v: nat, iv: nat) returns (valid: bool)
      requires iv <= |entries| && Defined(states[..], entries[..iv])
      requires v < states.Length && states[v].g.Some?
      ensures valid <==> !states[v].beingExpanded
                         && forall e :: e in entries[..iv] ==> Independent(pb, states[..], e.vertex, v)
    {
      valid := !states[v].beingExpanded;
      var iu := 0;
      while valid && iu != iv
        invariant 0 <= iu <= iv
        invariant valid <==> !states[v].beingExpanded
                             && forall e :: e in entries[..iu] ==> Independent(pb, states[..], e.vertex, v)
        decreases iv - iu
      {
        assert entries[..iu + 1] == entries[..iu] + [entries[iu]];
        assert entries[..iv][iu] == entries[iu];
        var u := entries[iu].vertex;
        valid := valid && states[u].g.value + pb.h(u, v) >= states[v].g.value;
        iu := iu + 1;
      }
      if !valid && iu < iv {
        assert forall e :: e in entries[..iu] ==> e in entries[..iv];
      }
    }

    /** After the claim: the destination ends the search, any other vertex has its
        distance read outside the lock. */
    method Begin(w: nat)
      requires Valid() && w < |workers| && workers[w].Claimed?
      modifies this`isDone, this`workers
      ensures Valid()
      ensures if old(workers[w]).entry.vertex == pb.dest
              then Arrives(pb, old(Current()), Current(), w)
              else ReadsG(pb, old(Current()), Current(), w)
    {
      assert HoldOk(pb, Current().board, workers[w]);
      var entry := workers[w].entry;
      assert EntryOk(pb, Current().board, entry);
      if entry.vertex == pb.dest {
        isDone := true;
        workers := workers[w := Exited];
      } else {
        var vdist := states[entry.vertex].g.value;
        workers := workers[w := Expanding(entry, vdist)];
      }
      StepKeepsInv(pb, old(Current()), Current(), w);
    }

    /** The second critical section: relax every out-edge, then mark the vertex
        expanded and erase the claimed node. */
    method Relax(w: nat)
      requires Valid() && w < |workers| && workers[w].Expanding?
      modifies this`entries, this`nextId, this`workers, states
      ensures Valid()
      ensures Relaxes(pb, old(Current()), Current(), w)
    {
      ghost var s := Current();
      var entry, vdist := workers[w].entry, workers[w].vdist;
      assert HoldOk(pb, s.board, workers[w]);
      RelaxEdges(entry.vertex, vdist);
      states[entry.vertex] := states[entry.vertex].(isExpanded := true);
      entries := Erase(entries, entry.id);
      workers := workers[w := Idle];
      assert Current().board == Finish(pb, s.board, entry, vdist);
      StepKeepsInv(pb, s, Current(), w);
    }

    method RelaxEdges(v: nat, vdist: nat)
      requires v < |pb.adj| && states.Length == |pb.adj|
      requires forall i :: 0 <= i < |pb.adj[v]| ==> pb.adj[v][i].target < |pb.adj|
      modifies this`entries, this`nextId, states
      ensures Current().board == RelaxAll(pb, old(Current()).board, v, vdist, pb.adj[v])
    {
      hide Insert;
      ghost var b := Current().board;
      var i := 0;
      while i < |pb.adj[v]|
        invariant 0 <= i <= |pb.adj[v]|
        invariant Current().board == RelaxAll(pb, b, v, vdist, pb.adj[v][..i])
      {
        var e := pb.adj[v][i];
        assert pb.adj[v][..i + 1][..i] == pb.adj[v][..i];
        ghost var before := Current().board;
        var nbrdist := vdist + e.weight;
        var olddist := states[e.target].g;
        if olddist.None? || nbrdist < olddist.value {
          states[e.target] := states[e.target].(g := Some(nbrdist), pred := v);
          entries := Insert(entries, Entry(nbrdist + pb.h(e.target, pb.dest), e.target, nextId));
          nextId := nextId + 1;
        }
        assert Current().board == RelaxOne(pb, before, v, vdist, e);
        i := i + 1;
      }
      assert pb.adj[v][..i] == pb.adj[v];
    }

    method Leave(w: nat)
      requires Valid() && w < |workers| && workers[w].Idle? && isDone
      modifies this`workers
      ensures Valid()
      ensures Leaves(pb, old(Current()), Current(), w)
    {
      workers := workers[w := Exited];
      StepKeepsInv(pb, old(Current()), Current(), w);
    }
  }
}

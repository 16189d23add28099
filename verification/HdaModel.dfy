/** HDA* (PRA*): A* distributed over threads that own the states hashed to them
    and send each other generated states, possibly through buffers.

    One action is one lock-protected section, one atomic access or one purely
    local move of one thread.  States are identified with their hash values,
    which assumes a perfect hash. */
module HdaModel {
  import opened Graphs

  datatype Problem = Problem(
    adj: Adjacency, init: nat, goal: nat -> bool, h: nat -> nat, owner: nat -> nat, threads: nat)

  ghost predicate WellPosed(pb: Problem) {
    && ValidGraph(pb.adj) && pb.init < |pb.adj| && pb.threads > 0
    && (forall v: nat :: pb.owner(v) < pb.threads)
    && (forall r: Walk :: r.In(pb.adj) && pb.goal(r.End()) ==> pb.h(r.Start()) <= r.Cost())
  }

  /** A state object: vertex and cost so far. */
  datatype Node = Node(v: nat, g: nat)

  /** Where a thread is in run/take/flush_receives; `hs` is has_sends. */
  datatype Pc =
    | Loop
    | Top(hs: bool)
    | Taking(hs: bool)
    | Received(hs: bool)
    | Waiting
    | Woken
    | Popped(node: Node)
    | Recorded(node: Node)
    | Publishing(node: Node, b: nat)
    | Expanding(node: Node, next: nat)
    | Exited

  /** `closed` gives the g of every state object in the closed list, `open` the
      ones among them that are in the open list.  The initial state object is put
      in open but never in closed; `rootOpen` says whether it is still there. */
  datatype Thread = Thread(
    open: set<nat>, rootOpen: bool, closed: map<nat, nat>, q: seq<Node>, qEmpty: bool,
    out: seq<seq<Node>>, completed: bool, pc: Pc)

  /** `bound` None is fp_infinity; `best` is the cost of the solution stream's best path. */
  datatype View = View(threads: seq<Thread>, counter: int, bound: Option<nat>, best: Option<nat>, done: bool)

  datatype Action =
    | Enter
    | Leave
    | TryFlush(dest: nat)
    | EndFlush
    | Skip
    | Receive(keep: seq<bool>)
    | EndSpin
    | Wake(keep: seq<bool>)
    | Check
    | Take(v: nat)
    | TakeRoot
    | TakeNothing
    | Discard
    | Keep
    | ReadBest
    | Publish
    | DropChild
    | KeepChild(deliver: bool)
    | EndExpansion

  // ---------- pieces of the actions ----------

  predicate TooCostly(pb: Problem, bound: Option<nat>, n: Node) {
    bound.Some? && n.g + pb.h(n.v) >= bound.value
  }

  /** Duplicate detection of one arriving state: keep the cheaper copy, and put it
      in the open list if it is new or has become cheaper. */
  function Accept(th: Thread, n: Node): Thread {
    if n.v in th.closed && th.closed[n.v] <= n.g then th
    else th.(closed := th.closed[n.v := n.g], open := th.open + {n.v})
  }

  function Absorb(th: Thread, ns: seq<Node>, keep: seq<bool>): (r: Thread)
    requires |keep| == |ns|
    ensures r == th.(closed := r.closed, open := r.open)
  {
    if ns == [] then th
    else
      var l := |ns| - 1;
      var r := Absorb(th, ns[..l], keep[..l]);
      if keep[l] then Accept(r, ns[l]) else r
  }

  function Drain(th: Thread, keep: seq<bool>): Thread
    requires |keep| == |th.q|
  {
    Absorb(th, th.q, keep).(q := [], qEmpty := true)
  }

  /** Only states at or above the bound are thrown away.  The bound may fall while
      the queue is processed, so keeping such a state is allowed too. */
  predicate LegalDrops(pb: Problem, bound: Option<nat>, ns: seq<Node>, keep: seq<bool>) {
    |keep| == |ns| && forall i :: 0 <= i < |ns| && !keep[i] ==> TooCostly(pb, bound, ns[i])
  }

  predicate HasSends(th: Thread) {
    exists d :: 0 <= d < |th.out| && th.out[d] != []
  }

  predicate IsComplete(pb: Problem, s: View) {
    s.counter >= pb.threads
  }

  /** Append messages to d's queue and run post_send, all under d's lock. */
  function Post(s: View, d: nat, ns: seq<Node>): (r: View)
    requires d < |s.threads|
    ensures |r.threads| == |s.threads|
  {
    if ns == [] then s
    else
      var th := s.threads[d];
      s.(threads := s.threads[d := th.(q := th.q + ns, qEmpty := false, completed := false)],
         counter := if th.completed then s.counter - 1 else s.counter)
  }

  /** t empties its buffer for d into d's queue. */
  function Deliver(s: View, t: nat, d: nat): (r: View)
    requires t < |s.threads| && d < |s.threads| && d < |s.threads[t].out|
    ensures |r.threads| == |s.threads|
  {
    var th := s.threads[t];
    Post(s.(threads := s.threads[t := th.(out := th.out[d := []])]), d, th.out[d])
  }

  function SetPc(s: View, t: nat, pc: Pc): View
    requires t < |s.threads|
  {
    s.(threads := s.threads[t := s.threads[t].(pc := pc)])
  }

  function SetThread(s: View, t: nat, th: Thread): View
    requires t < |s.threads|
  {
    s.(threads := s.threads[t := th])
  }

  function Min(a: Option<nat>, b: nat): nat {
    if a.Some? && a.value <= b then a.value else b
  }

  function Child(pb: Problem, n: Node, i: nat): Node
    requires n.v < |pb.adj| && i < |pb.adj[n.v]|
  {
    Node(pb.adj[n.v][i].target, n.g + pb.adj[n.v][i].weight)
  }

  function Send(pb: Problem, s: View, t: nat, c: Node, deliver: bool): View
    requires t < |s.threads| && pb.owner(c.v) < |s.threads| == |s.threads[t].out|
  {
    var th := s.threads[t];
    var d := pb.owner(c.v);
    if d == t then SetThread(s, t, Accept(th, c))
    else
      var buffered := SetThread(s, t, th.(out := th.out[d := th.out[d] + [c]]));
      if deliver then Deliver(buffered, t, d) else buffered
  }

  // ---------- the actions ----------

  predicate Enabled(pb: Problem, s: View, t: nat, a: Action) {
    && t < |s.threads| == pb.threads && |s.threads[t].out| == pb.threads
    && var th := s.threads[t];
    match a
    case Enter => th.pc.Loop? && !s.done
    case Leave => th.pc.Loop? && s.done
    case TryFlush(d) => (th.pc.Top? || th.pc.Taking?) && d < pb.threads
    case EndFlush => th.pc.Top? || th.pc.Taking?
    case Skip => th.pc.Top?
    case Receive(keep) =>
      && ((th.pc.Top? && !th.qEmpty) || (th.pc.Taking? && th.open == {} && !th.rootOpen))
      && LegalDrops(pb, s.bound, th.q, keep)
    case EndSpin => th.pc.Waiting? && (!th.qEmpty || IsComplete(pb, s) || s.done)
    case Wake(keep) => th.pc.Woken? && LegalDrops(pb, s.bound, th.q, keep)
    case Check => th.pc.Received?
    case Take(v) => th.pc.Taking? && v in th.open && v in th.closed
    case TakeRoot => th.pc.Taking? && th.rootOpen
    case TakeNothing => th.pc.Taking? && s.done && (th.open != {} || th.rootOpen)
    case Discard => th.pc.Popped? && TooCostly(pb, s.bound, th.pc.node)
    case Keep => th.pc.Popped?
    case ReadBest => th.pc.Recorded? && s.best.Some?
    case Publish => th.pc.Publishing?
    case DropChild => th.pc.Expanding? && th.pc.node.v < |pb.adj| && th.pc.next < |pb.adj[th.pc.node.v]|
                      && TooCostly(pb, s.bound, Child(pb, th.pc.node, th.pc.next))
    case KeepChild(_) => th.pc.Expanding? && th.pc.node.v < |pb.adj| && th.pc.next < |pb.adj[th.pc.node.v]|
                         && pb.owner(Child(pb, th.pc.node, th.pc.next).v) < pb.threads
    case EndExpansion => th.pc.Expanding? && th.pc.node.v < |pb.adj| && th.pc.next == |pb.adj[th.pc.node.v]|
  }

  function After(pb: Problem, s: View, t: nat, a: Action): View
    requires Enabled(pb, s, t, a)
  {
    var th := s.threads[t];
    match a
    case Enter => SetPc(s, t, Top(true))
    case Leave => SetPc(s, t, Exited)
    case TryFlush(d) => Deliver(s, t, d)
    case EndFlush => SetPc(s, t, if th.pc.Top? then Top(HasSends(th)) else Taking(HasSends(th)))
    case Skip => SetPc(s, t, Taking(th.pc.hs))
    case Receive(keep) =>
      if th.pc.Top? then SetThread(s, t, Drain(th, keep).(pc := Taking(th.pc.hs)))
      else if th.qEmpty && !th.pc.hs
      then SetThread(s, t, th.(completed := true, pc := Waiting)).(counter := s.counter + 1)
      else SetThread(s, t, Drain(th, keep).(pc := Received(th.pc.hs)))
    case EndSpin => SetPc(s, t, Woken)
    case Wake(keep) =>
      if IsComplete(pb, s) then SetPc(s, t, Received(false))
      else SetThread(s, t, Drain(th, keep).(pc := Received(false)))
    case Check =>
      if IsComplete(pb, s) then SetPc(s, t, Loop).(done := true) else SetPc(s, t, Taking(th.pc.hs))
    case Take(v) => SetThread(s, t, th.(open := th.open - {v}, pc := Popped(Node(v, th.closed[v]))))
    case TakeRoot => SetThread(s, t, th.(rootOpen := false, pc := Popped(Node(pb.init, 0))))
    case TakeNothing => SetPc(s, t, Loop)
    case Discard => SetPc(s, t, Loop)
    case Keep =>
      if pb.goal(th.pc.node.v) then SetPc(s, t, Recorded(th.pc.node)).(best := Some(Min(s.best, th.pc.node.g)))
      else SetPc(s, t, Expanding(th.pc.node, 0))
    case ReadBest => SetPc(s, t, Publishing(th.pc.node, s.best.value))
    case Publish => SetPc(s, t, Expanding(th.pc.node, 0)).(bound := Some(Min(s.bound, th.pc.b)))
    case DropChild => SetPc(s, t, Expanding(th.pc.node, th.pc.next + 1))
    case KeepChild(deliver) =>
      SetPc(Send(pb, s, t, Child(pb, th.pc.node, th.pc.next), deliver), t, Expanding(th.pc.node, th.pc.next + 1))
    case EndExpansion => SetPc(s, t, Loop)
  }

  ghost predicate Initial(pb: Problem, s: View) {
    && |s.threads| == pb.threads && s.counter == 0 && s.bound == None && s.best == None && !s.done
    && forall t :: 0 <= t < pb.threads ==>
         var th := s.threads[t];
         && th.open == {} && th.closed == map[] && th.q == [] && th.qEmpty && !th.completed && th.pc == Loop
         && th.rootOpen == (t == pb.owner(pb.init))
         && |th.out| == pb.threads && forall d :: 0 <= d < |th.out| ==> th.out[d] == []
  }

  ghost predicate Next(pb: Problem, s: View, r: View) {
    exists t, a :: Enabled(pb, s, t, a) && r == After(pb, s, t, a)
  }

  ghost predicate Run(pb: Problem, trace: seq<View>) {
    && |trace| > 0 && Initial(pb, trace[0])
    && forall i :: 0 <= i < |trace| - 1 ==> Next(pb, trace[i], trace[i + 1])
  }
}

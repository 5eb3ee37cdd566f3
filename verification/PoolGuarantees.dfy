/** What concurrent acquires promise: one connection per node, and no deadlock. */
module PoolGuarantees {
  import opened Pool
  import opened PoolAcquire

  // ---------- single flight ----------

  /** A new connection never overwrites an entry, live or stale. */
  lemma OpenNeverOverwrites(f: Fleet, steps: seq<Step>, t: Task, conn: Conn, now: real)
    requires ValidRun(f, EMPTY, steps)
    requires Enabled(Run(f, EMPTY, steps), Open(t, conn, now))
    ensures var w := Run(f, EMPTY, steps); Top(w, t).node !in w.conns
  {
    RunKeepsInv(f, EMPTY, steps);
    var w := Run(f, EMPTY, steps);
    HoldsTop(w.stacks[t], Top(w, t).node);
  }

  /** At most one connection per node is being opened. */
  lemma OneOpeningPerNode(f: Fleet, steps: seq<Step>, t: Task, u: Task)
    requires ValidRun(f, EMPTY, steps)
    requires var w := Run(f, EMPTY, steps);
             && Running(w, t) && Running(w, u) && Top(w, t).pc == Top(w, u).pc == Connecting
             && Top(w, t).node == Top(w, u).node
    ensures t == u
  {
    RunKeepsInv(f, EMPTY, steps);
    var w := Run(f, EMPTY, steps);
    var n := Top(w, t).node;
    HoldsTop(w.stacks[t], n);
    HoldsTop(w.stacks[u], n);
    HolderOf(f, w, t, n);
    HolderOf(f, w, u, n);
  }

  /** The step neither closes the node's connection nor reaps it. */
  predicate Spares(f: Fleet, w: World, step: Step, node: Node) {
    match step
    case Lose(conn) => node in w.conns ==> w.conns[node].conn != conn
    case Reap(now) => node in w.conns ==> !Reapable(w.conns[node], now, f.ttl)
    case _ => true
  }

  predicate SparesAll(f: Fleet, w: World, steps: seq<Step>, node: Node)
    requires ValidRun(f, w, steps)
    decreases |steps|
  {
    steps == [] || (Spares(f, w, steps[0], node) && SparesAll(f, Exec(f, w, steps[0]), steps[1..], node))
  }

  /** From results[from..] on, every acquire of the node returned conn. */
  ghost predicate AllReturned(w: World, from: nat, node: Node, conn: Conn) {
    forall i :: from <= i < |w.results| && w.results[i].node == node ==> w.results[i].conn == conn
  }

  ghost predicate NoneReturned(w: World, from: nat, node: Node) {
    forall i :: from <= i < |w.results| ==> w.results[i].node != node
  }

  /** The connections of different nodes differ, so closing one leaves the others alone. */
  ghost predicate Apart(w: World) {
    forall m, n :: m in w.conns && n in w.conns && w.conns[m].conn == w.conns[n].conn ==> m == n
  }

  ghost predicate Good(f: Fleet, w: World) {
    Inv(f, w) && Apart(w)
  }

  lemma StepKeepsGood(f: Fleet, w: World, step: Step)
    requires Good(f, w) && Enabled(w, step)
    ensures Good(f, Exec(f, w, step))
  {
    StepKeepsInv(f, w, step);
  }

  /** A result is for the node of a live entry, which stays as it is for the rest of the step. */
  lemma StepResult(f: Fleet, w: World, step: Step)
    requires Good(f, w) && Enabled(w, step)
    ensures var v := Exec(f, w, step);
            && w.results <= v.results && |v.results| <= |w.results| + 1
            && (|v.results| > |w.results| ==>
                  var r := v.results[|w.results|];
                  Live(v.conns, v.dead, r.node) && v.conns[r.node].conn == r.conn)
  {}

  lemma OpenKeepsLive(f: Fleet, w: World, step: Step, node: Node)
    requires Good(f, w) && Enabled(w, step) && step.Open? && Live(w.conns, w.dead, node)
    ensures var v := Exec(f, w, step);
            Live(v.conns, v.dead, node) && v.conns[node].conn == w.conns[node].conn
  {
    HoldsTop(w.stacks[step.task], Top(w, step.task).node);
  }

  lemma RoundKeepsLive(f: Fleet, w: World, now: real, node: Node)
    requires Good(f, w) && Spares(f, w, Reap(now), node) && Live(w.conns, w.dead, node)
    ensures var v := Exec(f, w, Reap(now));
            Live(v.conns, v.dead, node) && v.conns[node].conn == w.conns[node].conn
  {}

  lemma StepKeepsLive(f: Fleet, w: World, step: Step, node: Node)
    requires Good(f, w) && Enabled(w, step) && Spares(f, w, step, node) && Live(w.conns, w.dead, node)
    ensures var v := Exec(f, w, step);
            Live(v.conns, v.dead, node) && v.conns[node].conn == w.conns[node].conn
  {
    match step
    case Open(_, _, _) => OpenKeepsLive(f, w, step, node);
    case Reap(now) => RoundKeepsLive(f, w, now, node);
    case _ =>
  }

  /** Once a node has a live entry that is spared, every acquire of the node returns its connection. */
  lemma {:induction false} LiveIsShared(f: Fleet, w: World, steps: seq<Step>, from: nat, node: Node)
    requires Good(f, w) && ValidRun(f, w, steps) && SparesAll(f, w, steps, node)
    requires Live(w.conns, w.dead, node) && from <= |w.results| && AllReturned(w, from, node, w.conns[node].conn)
    ensures AllReturned(Run(f, w, steps), from, node, w.conns[node].conn)
    decreases |steps|
  {
    if steps != [] {
      StepKeepsGood(f, w, steps[0]);
      StepResult(f, w, steps[0]);
      StepKeepsLive(f, w, steps[0], node);
      LiveIsShared(f, Exec(f, w, steps[0]), steps[1..], from, node);
    }
  }

  /** The step that makes the node's entry. */
  lemma FirstResult(f: Fleet, w: World, step: Step, from: nat, node: Node)
    requires Good(f, w) && Enabled(w, step) && node !in w.conns && node in Exec(f, w, step).conns
    requires from <= |w.results| && NoneReturned(w, from, node)
    ensures var v := Exec(f, w, step);
            Live(v.conns, v.dead, node) && AllReturned(v, from, node, v.conns[node].conn)
  {}

  /**
   * Acquires of a node that begin without an entry for it all return one and the same connection,
   * as long as that connection is neither closed nor reaped meanwhile.
   */
  lemma {:induction false} FirstAcquiresAgree(f: Fleet, w: World, steps: seq<Step>, from: nat, node: Node)
    returns (conn: Conn)
    requires Good(f, w) && ValidRun(f, w, steps) && SparesAll(f, w, steps, node)
    requires node !in w.conns && from <= |w.results| && NoneReturned(w, from, node)
    ensures AllReturned(Run(f, w, steps), from, node, conn)
    decreases |steps|
  {
    if steps == [] {
      conn := 0;
    } else {
      var v := Exec(f, w, steps[0]);
      StepKeepsGood(f, w, steps[0]);
      StepResult(f, w, steps[0]);
      if node in v.conns {
        FirstResult(f, w, steps[0], from, node);
        LiveIsShared(f, v, steps[1..], from, node);
        conn := v.conns[node].conn;
      } else {
        conn := FirstAcquiresAgree(f, v, steps[1..], from, node);
      }
    }
  }

  lemma {:induction false} RunKeepsGood(f: Fleet, w: World, steps: seq<Step>)
    requires Good(f, w) && ValidRun(f, w, steps)
    ensures Good(f, Run(f, w, steps))
    decreases |steps|
  {
    if steps != [] {
      StepKeepsGood(f, w, steps[0]);
      RunKeepsGood(f, Exec(f, w, steps[0]), steps[1..]);
    }
  }

  /** The same from any reachable state on: all later returns for a node without an entry agree. */
  lemma ConcurrentAcquiresShare(f: Fleet, before: seq<Step>, steps: seq<Step>, node: Node) returns (conn: Conn)
    requires ValidRun(f, EMPTY, before)
    requires var w := Run(f, EMPTY, before);
             node !in w.conns && ValidRun(f, w, steps) && SparesAll(f, w, steps, node)
    ensures var w := Run(f, EMPTY, before);
            AllReturned(Run(f, w, steps), |w.results|, node, conn)
  {
    RunKeepsGood(f, EMPTY, before);
    var w := Run(f, EMPTY, before);
    conn := FirstAcquiresAgree(f, w, steps, |w.results|, node);
  }

  // ---------- deadlock ----------

  /** Going from jump host to jump host never leaves the set. */
  ghost predicate Closed(jump: map<Node, Node>, s: set<Node>) {
    s != {} && s <= jump.Keys && forall n :: n in s ==> jump[n] in s
  }

  ghost predicate Acyclic(jump: map<Node, Node>) {
    forall s: set<Node> :: !Closed(jump, s)
  }

  /** A ranking that falls along every jump. */
  ghost predicate Ranked(jump: map<Node, Node>, rank: map<Node, nat>) {
    rank.Keys == jump.Keys && forall n :: n in jump ==> Level(rank, jump[n]) < Level(rank, n)
  }

  function Level(rank: map<Node, nat>, n: Node): nat {
    if n in rank then 1 + rank[n] else 0
  }

  lemma FewerClosed(jump: map<Node, Node>, last: Node, s: set<Node>)
    ensures Closed(jump - {last}, s) ==> Closed(jump, s)
  {
    assert forall n :: n in jump - {last} ==> (jump - {last})[n] == jump[n];
  }

  lemma {:induction false} AcyclicHasRank(jump: map<Node, Node>) returns (rank: map<Node, nat>)
    requires Acyclic(jump)
    ensures Ranked(jump, rank) && forall n :: n in rank ==> rank[n] < |jump|
    decreases |jump.Keys|
  {
    if jump.Keys == {} {
      rank := map[];
    } else {
      assert !Closed(jump, jump.Keys);
      var last :| last in jump.Keys && jump[last] !in jump.Keys;
      var fewer := jump - {last};
      assert fewer.Keys == jump.Keys - {last};
      forall s: set<Node> ensures !Closed(fewer, s) {
        FewerClosed(jump, last, s);
      }
      assert |fewer| == |jump| - 1 by { assert |fewer.Keys| == |jump.Keys - {last}|; }
      var below := AcyclicHasRank(fewer);
      rank := map n | n in jump :: if n == last then 0 else 1 + below[n];
      forall n | n in jump ensures Level(rank, jump[n]) < Level(rank, n) {
        if n != last {
          assert Level(below, fewer[n]) < Level(below, n);
        }
      }
    }
  }

  /** A round of the reaper closes the connections of the entries it takes, unpinned ones idle for longer than ttl. */
  lemma RoundCloses(f: Fleet, w: World, now: real, conn: Conn)
    ensures var v := Exec(f, w, Reap(now));
            conn in v.dead <==>
            conn in w.dead ||
            exists n :: n in w.conns && w.conns[n].conn == conn
                        && w.conns[n].pinned == 0 && now - w.conns[n].lastUsed > f.ttl
  {}

  predicate Blocked(w: World, t: Task) {
    Running(w, t) && Top(w, t).pc == Waiting && Top(w, t).node in w.holder
  }

  predicate WaitsFor(w: World, t: Task, u: Task) {
    Blocked(w, t) && w.holder[Top(w, t).node] == u
  }

  /** A step of the task itself; Begin starts another acquire under its name. */
  predicate Moves(step: Step, t: Task) {
    match step
    case Enter(u, _) => u == t
    case Wake(u, _) => u == t
    case Open(u, _, _) => u == t
    case Fail(u) => u == t
    case _ => false
  }

  /** The task can take a step other than giving up. */
  ghost predicate CanMove(w: World, t: Task) {
    exists step :: Moves(step, t) && !step.Fail? && Enabled(w, step)
  }

  /** Some call is under way and none can go on. */
  ghost predicate Stuck(w: World) {
    w.stacks.Keys != {} && forall t :: t in w.stacks ==> !CanMove(w, t)
  }

  lemma {:induction false} FreshConn(made: set<Conn>) returns (conn: Conn)
    ensures forall c :: c in made ==> c < conn
  {
    if c :| c in made {
      var other := FreshConn(made - {c});
      conn := if c < other then other else c + 1;
      assert forall d :: d in made ==> d == c || d in made - {c};
    } else {
      conn := 0;
    }
  }

  lemma BlockedCannotMove(w: World, t: Task)
    requires Blocked(w, t)
    ensures !CanMove(w, t)
  {}

  /** In a reachable state a task cannot go on exactly when it waits for a lock that is taken. */
  lemma CanMoveIff(f: Fleet, w: World, t: Task)
    requires Inv(f, w) && t in w.stacks
    ensures CanMove(w, t) <==> !Blocked(w, t)
  {
    assert StackOk(f, w.stacks[t]);
    if !Blocked(w, t) {
      var conn := FreshConn(w.made);
      var step := match Top(w, t).pc
        case Start => Enter(t, 0.0)
        case Waiting => Wake(t, 0.0)
        case _ => Open(t, conn, 0.0);
      assert Moves(step, t) && Enabled(w, step);
    } else {
      BlockedCannotMove(w, t);
    }
  }

  /** Levels fall along a stack of nested acquires. */
  lemma {:induction false} LevelsFall(f: Fleet, rank: map<Node, nat>, s: seq<Frame>, i: nat, j: nat)
    requires Ranked(f.jump, rank) && StackOk(f, s) && i < j < |s|
    ensures Level(rank, s[j].node) + (j - i) <= Level(rank, s[i].node)
    decreases j - i
  {
    assert s[i].node in f.jump && f.jump[s[i].node] == s[i + 1].node;
    if i + 1 < j {
      LevelsFall(f, rank, s, i + 1, j);
    }
  }

  /** The recursion through jump hosts is bounded by the level of the host it starts from. */
  lemma RecursionIsBounded(f: Fleet, rank: map<Node, nat>, w: World, t: Task)
    requires Ranked(f.jump, rank) && Inv(f, w) && t in w.stacks
    ensures |w.stacks[t]| <= 1 + Level(rank, w.stacks[t][0].node)
  {
    var s := w.stacks[t];
    if |s| > 1 {
      LevelsFall(f, rank, s, 0, |s| - 1);
    }
  }

  /** A waiting task holds its locks above the frame it waits in. */
  lemma HeldAbove(f: Fleet, rank: map<Node, nat>, s: seq<Frame>, n: Node)
    requires Ranked(f.jump, rank) && StackOk(f, s) && Holds(s, n) && s[|s| - 1].pc == Waiting
    ensures Level(rank, s[|s| - 1].node) < Level(rank, n)
  {
    var i :| 0 <= i < |s| && s[i].node == n && Holding(s[i]);
    LevelsFall(f, rank, s, i, |s| - 1);
  }

  /** Whoever blocks a task waits, if at all, at a lower level. */
  lemma WaitingFalls(f: Fleet, rank: map<Node, nat>, w: World, t: Task, u: Task)
    requires Ranked(f.jump, rank) && Inv(f, w) && WaitsFor(w, t, u) && Blocked(w, u)
    ensures Level(rank, Top(w, u).node) < Level(rank, Top(w, t).node)
  {
    HeldAbove(f, rank, w.stacks[u], Top(w, t).node);
  }

  /** With acyclic jumps the waits-for relation has no cycle, in any reachable state. */
  lemma NoWaitCycle(f: Fleet, steps: seq<Step>, ts: seq<Task>)
    requires Acyclic(f.jump) && ValidRun(f, EMPTY, steps) && ts != []
    ensures var w := Run(f, EMPTY, steps);
            exists i :: 0 <= i < |ts| && !WaitsFor(w, ts[i], ts[if i + 1 < |ts| then i + 1 else 0])
  {
    var rank := AcyclicHasRank(f.jump);
    RunKeepsInv(f, EMPTY, steps);
    var w := Run(f, EMPTY, steps);
    if forall i :: 0 <= i < |ts| ==> WaitsFor(w, ts[i], ts[if i + 1 < |ts| then i + 1 else 0]) {
      ChainFalls(f, rank, w, ts, |ts| - 1);
      assert WaitsFor(w, ts[|ts| - 1], ts[0]) && Blocked(w, ts[0]);
      WaitingFalls(f, rank, w, ts[|ts| - 1], ts[0]);
    }
  }

  lemma {:induction false} ChainFalls(f: Fleet, rank: map<Node, nat>, w: World, ts: seq<Task>, k: nat)
    requires Ranked(f.jump, rank) && Inv(f, w) && k < |ts|
    requires forall i :: 0 <= i < |ts| ==> WaitsFor(w, ts[i], ts[if i + 1 < |ts| then i + 1 else 0])
    ensures Blocked(w, ts[0]) && Blocked(w, ts[k])
    ensures Level(rank, Top(w, ts[k]).node) <= Level(rank, Top(w, ts[0]).node)
  {
    assert WaitsFor(w, ts[0], ts[if 1 < |ts| then 1 else 0]);
    assert WaitsFor(w, ts[k], ts[if k + 1 < |ts| then k + 1 else 0]);
    if k > 0 {
      ChainFalls(f, rank, w, ts, k - 1);
      assert WaitsFor(w, ts[k - 1], ts[k]);
      WaitingFalls(f, rank, w, ts[k - 1], ts[k]);
    }
  }

  /** Following who blocks whom ends at a task that can go on. */
  lemma {:induction false} SomeoneCanGo(f: Fleet, rank: map<Node, nat>, w: World, t: Task)
    requires Ranked(f.jump, rank) && Inv(f, w) && t in w.stacks
    ensures exists u :: u in w.stacks && !Blocked(w, u)
    decreases Level(rank, w.stacks[t][|w.stacks[t]| - 1].node)
  {
    if Blocked(w, t) {
      var u := w.holder[Top(w, t).node];
      if Blocked(w, u) {
        WaitingFalls(f, rank, w, t, u);
        SomeoneCanGo(f, rank, w, u);
      }
    }
  }

  lemma AcyclicNeverStuck(f: Fleet, steps: seq<Step>)
    requires Acyclic(f.jump) && ValidRun(f, EMPTY, steps)
    ensures !Stuck(Run(f, EMPTY, steps))
  {
    var rank := AcyclicHasRank(f.jump);
    RunKeepsInv(f, EMPTY, steps);
    var w := Run(f, EMPTY, steps);
    if t :| t in w.stacks {
      SomeoneCanGo(f, rank, w, t);
      var u :| u in w.stacks && !Blocked(w, u);
      CanMoveIff(f, w, u);
    }
  }

  /** One task that walks around a cycle of jump hosts ends up waiting for itself. */
  lemma {:induction false} CycleGetsStuck(f: Fleet, w: World, s: set<Node>) returns (steps: seq<Step>)
    requires Closed(f.jump, s)
    requires w.stacks.Keys == {0} && Running(w, 0) && Top(w, 0).pc == Start && Top(w, 0).node in s
    requires w.conns == map[]
    ensures ValidRun(f, w, steps) && Stuck(Run(f, w, steps))
    decreases s - w.holder.Keys
  {
    var n, step := Top(w, 0).node, Enter(0, 0.0);
    var v := Exec(f, w, step);
    if n in w.holder {
      steps := [step];
      assert v.stacks.Keys == {0} && Blocked(v, 0);
      BlockedCannotMove(v, 0);
      RunOneMore(f, w, step, []);
    } else {
      assert Top(v, 0) == Frame(f.jump[n], Start);
      assert n in s - w.holder.Keys;
      var rest := CycleGetsStuck(f, v, s);
      steps := [step] + rest;
      RunOneMore(f, w, step, rest);
    }
  }

  lemma RunOneMore(f: Fleet, w: World, step: Step, rest: seq<Step>)
    requires Enabled(w, step) && ValidRun(f, Exec(f, w, step), rest)
    ensures ValidRun(f, w, [step] + rest)
    ensures Run(f, w, [step] + rest) == Run(f, Exec(f, w, step), rest)
  {}

  lemma CyclicReachesStuck(f: Fleet) returns (steps: seq<Step>)
    requires !Acyclic(f.jump)
    ensures ValidRun(f, EMPTY, steps) && Stuck(Run(f, EMPTY, steps))
  {
    var s: set<Node> :| Closed(f.jump, s);
    var n :| n in s;
    var rest := CycleGetsStuck(f, Exec(f, EMPTY, Begin(0, n)), s);
    steps := [Begin(0, n)] + rest;
    RunOneMore(f, EMPTY, Begin(0, n), rest);
  }

  ghost predicate NeverStuck(f: Fleet) {
    forall steps :: ValidRun(f, EMPTY, steps) ==> !Stuck(Run(f, EMPTY, steps))
  }

  /** Deadlock is out of the question exactly when the jump relation has no cycle. */
  lemma NeverStuckIffAcyclic(f: Fleet)
    ensures Acyclic(f.jump) <==> NeverStuck(f)
  {
    if Acyclic(f.jump) {
      forall steps | ValidRun(f, EMPTY, steps) ensures !Stuck(Run(f, EMPTY, steps)) {
        AcyclicNeverStuck(f, steps);
      }
    } else {
      var steps := CyclicReachesStuck(f);
      assert ValidRun(f, EMPTY, steps) && Stuck(Run(f, EMPTY, steps));
    }
  }
}

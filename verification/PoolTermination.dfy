/** With acyclic jumps every acquire ends: each of its steps brings it closer to its return. */
module PoolTermination {
  import opened Pool
  import opened PoolAcquire
  import opened PoolGuarantees

  /** How many steps a call may still take: it holds its lock, waits for it, or has not started. */
  function Due(rank: map<Node, nat>, frame: Frame): nat {
    match frame.pc
    case Start => 3 * (1 + Level(rank, frame.node))
    case Waiting => 3 * (1 + Level(rank, frame.node)) - 1
    case _ => 1
  }

  function DueAll(rank: map<Node, nat>, s: seq<Frame>): nat {
    if s == [] then 0 else DueAll(rank, s[..|s| - 1]) + Due(rank, s[|s| - 1])
  }

  function Left(rank: map<Node, nat>, w: World, t: Task): nat {
    if t in w.stacks then DueAll(rank, w.stacks[t]) else 0
  }

  function Moved(steps: seq<Step>, t: Task): nat {
    if steps == [] then 0 else (if Moves(steps[0], t) then 1 else 0) + Moved(steps[1..], t)
  }

  lemma {:induction false} MovedUpTo(steps: seq<Step>, n: nat, t: Task)
    requires n < |steps|
    ensures Moved(steps[..n + 1], t) == Moved(steps[..n], t) + (if Moves(steps[n], t) then 1 else 0)
    decreases n
  {
    if n == 0 {
      assert steps[..1][1..] == [];
    } else {
      assert steps[..n + 1][1..] == steps[1..][..n] && steps[..n][1..] == steps[1..][..n - 1];
      MovedUpTo(steps[1..], n - 1, t);
    }
  }

  /** That many of the steps are the task's. */
  lemma {:induction false} MovedCounts(steps: seq<Step>, n: nat, t: Task)
    requires n <= |steps|
    ensures Moved(steps[..n], t) == |set i | 0 <= i < n && Moves(steps[i], t)|
  {
    if n > 0 {
      var before, now := set i | 0 <= i < n - 1 && Moves(steps[i], t), set i | 0 <= i < n && Moves(steps[i], t);
      MovedCounts(steps, n - 1, t);
      MovedUpTo(steps, n - 1, t);
      assert now == if Moves(steps[n - 1], t) then before + {n - 1} else before;
    } else {
      assert steps[..0] == [];
    }
  }

  lemma DueWithTop(rank: map<Node, nat>, s: seq<Frame>, pc: Pc)
    requires s != []
    ensures DueAll(rank, WithTop(s, pc)) == DueAll(rank, s[..|s| - 1]) + Due(rank, s[|s| - 1].(pc := pc))
  {
    assert WithTop(s, pc)[..|s| - 1] == s[..|s| - 1];
  }

  lemma DuePush(rank: map<Node, nat>, s: seq<Frame>, frame: Frame)
    ensures DueAll(rank, s + [frame]) == DueAll(rank, s) + Due(rank, frame)
  {
    assert (s + [frame])[..|s|] == s;
  }

  /** The call below a returning one goes from waiting for its jump host to connecting. */
  lemma DuePopped(f: Fleet, rank: map<Node, nat>, s: seq<Frame>)
    requires StackOk(f, s) && |s| > 1
    ensures DueAll(rank, Popped(s)) == DueAll(rank, s[..|s| - 1])
  {
    var below := s[..|s| - 1];
    assert below[|below| - 1] == s[|s| - 2] && s[|s| - 2].pc == Jumping;
    DueWithTop(rank, below, Connecting);
  }

  lemma ReturnFalls(f: Fleet, rank: map<Node, nat>, w: World, t: Task, conn: Conn)
    requires Running(w, t) && StackOk(f, w.stacks[t])
    ensures Left(rank, Return(w, t, conn), t) < Left(rank, w, t)
  {
    var s := w.stacks[t];
    if |s| > 1 {
      DuePopped(f, rank, s);
      assert Return(w, t, conn).stacks[t] == Popped(s);
    } else {
      assert Return(w, t, conn).stacks == w.stacks - {t};
    }
  }

  lemma LockedFalls(f: Fleet, rank: map<Node, nat>, s: seq<Frame>)
    requires Ranked(f.jump, rank) && s != [] && !Holding(s[|s| - 1])
    ensures DueAll(rank, LockedStack(f, s)) < DueAll(rank, s)
  {
    var n := s[|s| - 1].node;
    if n in f.jump {
      DueWithTop(rank, s, Jumping);
      DuePush(rank, WithTop(s, Jumping), Frame(f.jump[n], Start));
      assert Level(rank, f.jump[n]) < Level(rank, n);
    } else {
      DueWithTop(rank, s, Connecting);
    }
  }

  lemma EnterFalls(f: Fleet, rank: map<Node, nat>, w: World, t: Task, now: real)
    requires Ranked(f.jump, rank) && Inv(f, w) && Running(w, t) && Top(w, t).pc == Start
    ensures Left(rank, Exec(f, w, Enter(t, now)), t) < Left(rank, w, t)
  {
    var s, n := w.stacks[t], Top(w, t).node;
    if Live(w.conns, w.dead, n) {
      ReturnFalls(f, rank, w.(conns := Touched(w.conns, n, now)), t, w.conns[n].conn);
    } else if n in w.holder {
      DueWithTop(rank, s, Waiting);
    } else {
      LockedFalls(f, rank, s);
    }
  }

  lemma WakeFalls(f: Fleet, rank: map<Node, nat>, w: World, t: Task, now: real)
    requires Ranked(f.jump, rank) && Inv(f, w) && Enabled(w, Wake(t, now))
    ensures Left(rank, Exec(f, w, Wake(t, now)), t) < Left(rank, w, t)
  {
    var s, n := w.stacks[t], Top(w, t).node;
    if Live(w.conns, w.dead, n) {
      ReturnFalls(f, rank, w.(conns := Touched(w.conns, n, now)), t, w.conns[n].conn);
    } else {
      LockedFalls(f, rank, s);
    }
  }

  lemma OpenFalls(f: Fleet, rank: map<Node, nat>, w: World, t: Task, conn: Conn, now: real)
    requires Inv(f, w) && Enabled(w, Open(t, conn, now))
    ensures Left(rank, Exec(f, w, Open(t, conn, now)), t) < Left(rank, w, t)
  {
    var n := Top(w, t).node;
    ReturnFalls(f, rank, w.(conns := w.conns[n := Entry(conn, now, 0)], made := w.made + {conn},
                            holder := w.holder - {n}), t, conn);
  }

  lemma FailFalls(f: Fleet, rank: map<Node, nat>, w: World, t: Task)
    requires Running(w, t)
    ensures Left(rank, Exec(f, w, Fail(t)), t) < Left(rank, w, t)
  {}

  /** Every step of a task leaves it less to do. */
  lemma MoveFalls(f: Fleet, rank: map<Node, nat>, w: World, step: Step, t: Task)
    requires Ranked(f.jump, rank) && Inv(f, w) && Enabled(w, step) && Moves(step, t)
    ensures Left(rank, Exec(f, w, step), t) < Left(rank, w, t)
  {
    match step
    case Enter(_, now) => EnterFalls(f, rank, w, t, now);
    case Wake(_, now) => WakeFalls(f, rank, w, t, now);
    case Open(_, conn, now) => OpenFalls(f, rank, w, t, conn, now);
    case Fail(_) => FailFalls(f, rank, w, t);
  }

  /** A step of another task, of the network or of the reaper does not touch it. */
  lemma OthersLeave(f: Fleet, rank: map<Node, nat>, w: World, step: Step, t: Task)
    requires Enabled(w, step) && !Moves(step, t) && !(step.Begin? && step.task == t)
    ensures Left(rank, Exec(f, w, step), t) == Left(rank, w, t)
  {}

  lemma {:induction false} MovesAreBounded(f: Fleet, rank: map<Node, nat>, w: World, steps: seq<Step>, t: Task)
    requires Ranked(f.jump, rank) && Inv(f, w) && ValidRun(f, w, steps)
    requires forall i :: 0 <= i < |steps| ==> !(steps[i].Begin? && steps[i].task == t)
    ensures Moved(steps, t) + Left(rank, Run(f, w, steps), t) <= Left(rank, w, t)
    decreases |steps|
  {
    if steps != [] {
      StepKeepsInv(f, w, steps[0]);
      if Moves(steps[0], t) {
        MoveFalls(f, rank, w, steps[0], t);
      } else {
        OthersLeave(f, rank, w, steps[0], t);
      }
      MovesAreBounded(f, rank, Exec(f, w, steps[0]), steps[1..], t);
    }
  }

  lemma BegunIsBounded(f: Fleet, rank: map<Node, nat>, w: World, t: Task, node: Node)
    requires Enabled(w, Begin(t, node)) && forall n :: n in rank ==> rank[n] < |f.jump|
    ensures Left(rank, Exec(f, w, Begin(t, node)), t) <= 3 * (1 + |f.jump|)
  {
    assert [] + [Frame(node, Start)] == [Frame(node, Start)];
    DuePush(rank, [], Frame(node, Start));
  }

  /**
   * With acyclic jumps, in every interleaving, an acquire takes at most three steps and three more for
   * every node that has a jump host; as long as it is under way it has taken fewer.
   */
  lemma AcquireTerminates(f: Fleet, before: seq<Step>, t: Task, node: Node, steps: seq<Step>)
    requires Acyclic(f.jump) && ValidRun(f, EMPTY, before)
    requires Enabled(Run(f, EMPTY, before), Begin(t, node))
    requires ValidRun(f, Exec(f, Run(f, EMPTY, before), Begin(t, node)), steps)
    requires forall i :: 0 <= i < |steps| ==> !(steps[i].Begin? && steps[i].task == t)
    ensures var v := Run(f, Exec(f, Run(f, EMPTY, before), Begin(t, node)), steps);
            var moves := set i | 0 <= i < |steps| && Moves(steps[i], t);
            && |moves| <= 3 * (1 + |f.jump|)
            && (t in v.stacks ==> |moves| < 3 * (1 + |f.jump|))
  {
    MovedCounts(steps, |steps|, t);
    assert steps[..|steps|] == steps;
    var rank := AcyclicHasRank(f.jump);
    RunKeepsInv(f, EMPTY, before);
    var w := Run(f, EMPTY, before);
    var begun := Exec(f, w, Begin(t, node));
    StepKeepsInv(f, w, Begin(t, node));
    BegunIsBounded(f, rank, w, t, node);
    MovesAreBounded(f, rank, begun, steps, t);
    RunKeepsInv(f, begun, steps);
    UnderWayHasLeft(f, rank, Run(f, begun, steps), t);
  }

  lemma UnderWayHasLeft(f: Fleet, rank: map<Node, nat>, w: World, t: Task)
    requires Inv(f, w)
    ensures t in w.stacks ==> Left(rank, w, t) > 0
  {
    if t in w.stacks {
      assert StackOk(f, w.stacks[t]);
    }
  }
}

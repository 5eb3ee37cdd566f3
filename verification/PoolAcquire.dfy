/** Concurrent SSHPool.acquire calls, as steps between two awaits. */
module PoolAcquire {
  import opened Pool

  type Task = nat

  /**
   * Where one acquire call stands: not started, waiting for the node's lock, holding it while its
   * jump host is acquired, or holding it while the connection is opened.
   */
  datatype Pc = Start | Waiting | Jumping | Connecting

  datatype Frame = Frame(node: Node, pc: Pc)

  /** One return of an acquire call, nested ones included. */
  datatype Result = Result(task: Task, node: Node, conn: Conn)

  datatype World = World(conns: Conns, dead: set<Conn>, made: set<Conn>,
                         holder: map<Node, Task>, stacks: map<Task, seq<Frame>>, results: seq<Result>)

  const EMPTY := World(map[], {}, {}, map[], map[], [])

  datatype Step =
    | Begin(task: Task, node: Node)
    | Enter(task: Task, now: real)
    | Wake(task: Task, now: real)
    | Open(task: Task, conn: Conn, now: real)
    | Fail(task: Task)
    | Lose(conn: Conn)
    | Reap(now: real)

  predicate Running(w: World, t: Task) {
    t in w.stacks && w.stacks[t] != []
  }

  function Top(w: World, t: Task): Frame
    requires Running(w, t)
  {
    w.stacks[t][|w.stacks[t]| - 1]
  }

  predicate Enabled(w: World, step: Step) {
    match step
    case Begin(t, _) => t !in w.stacks
    case Enter(t, _) => Running(w, t) && Top(w, t).pc == Start
    case Wake(t, _) => Running(w, t) && Top(w, t).pc == Waiting && Top(w, t).node !in w.holder
    case Open(t, conn, _) => Running(w, t) && Top(w, t).pc == Connecting && conn !in w.made
    case Fail(t) => Running(w, t)
    case Lose(conn) => conn in w.made
    case Reap(_) => true
  }

  function WithTop(s: seq<Frame>, pc: Pc): seq<Frame>
    requires s != []
  {
    s[|s| - 1 := s[|s| - 1].(pc := pc)]
  }

  /** The innermost call returns conn; the one below it goes on to connect through it. */
  function Return(w: World, t: Task, conn: Conn): World
    requires Running(w, t)
  {
    var s := w.stacks[t];
    var below := s[..|s| - 1];
    w.(results := w.results + [Result(t, Top(w, t).node, conn)],
       stacks := if below == [] then w.stacks - {t} else w.stacks[t := WithTop(below, Connecting)])
  }

  function LockedStack(f: Fleet, s: seq<Frame>): seq<Frame>
    requires s != []
  {
    var n := s[|s| - 1].node;
    if n in f.jump then WithTop(s, Jumping) + [Frame(f.jump[n], Start)] else WithTop(s, Connecting)
  }

  /** With the lock just taken and no live entry: the stale one goes, and the jump host comes first. */
  function Locked(f: Fleet, w: World, t: Task): World
    requires Running(w, t)
  {
    var n := Top(w, t).node;
    w.(conns := w.conns - {n}, holder := w.holder[n := t], stacks := w.stacks[t := LockedStack(f, w.stacks[t])])
  }

  function Exec(f: Fleet, w: World, step: Step): World
    requires Enabled(w, step)
  {
    match step
    case Begin(t, node) => w.(stacks := w.stacks[t := [Frame(node, Start)]])
    case Enter(t, now) =>
      var n := Top(w, t).node;
      if Live(w.conns, w.dead, n) then
        Return(w.(conns := Touched(w.conns, n, now)), t, w.conns[n].conn)
      else if n in w.holder then w.(stacks := w.stacks[t := WithTop(w.stacks[t], Waiting)])
      else Locked(f, w, t)
    case Wake(t, now) =>
      var n := Top(w, t).node;
      if Live(w.conns, w.dead, n) then
        Return(w.(conns := Touched(w.conns, n, now)), t, w.conns[n].conn)
      else Locked(f, w, t)
    case Open(t, conn, now) =>
      var n := Top(w, t).node;
      Return(w.(conns := w.conns[n := Entry(conn, now, 0)], made := w.made + {conn},
                holder := w.holder - {n}), t, conn)
    case Fail(t) =>
      w.(holder := map n | n in w.holder && w.holder[n] != t :: w.holder[n], stacks := w.stacks - {t})
    case Lose(conn) => w.(dead := w.dead + {conn})
    case Reap(now) =>
      var left := Reaped(w.conns, now, f.ttl);
      w.(conns := left, dead := w.dead + ConnsOf(w.conns, w.conns.Keys - left.Keys))
  }

  predicate ValidRun(f: Fleet, w: World, steps: seq<Step>)
    decreases |steps|
  {
    steps == [] || (Enabled(w, steps[0]) && ValidRun(f, Exec(f, w, steps[0]), steps[1..]))
  }

  function Run(f: Fleet, w: World, steps: seq<Step>): World
    requires ValidRun(f, w, steps)
    decreases |steps|
  {
    if steps == [] then w else Run(f, Exec(f, w, steps[0]), steps[1..])
  }

  // ---------- the invariant ----------

  predicate Holding(frame: Frame) {
    frame.pc == Jumping || frame.pc == Connecting
  }

  ghost predicate Holds(s: seq<Frame>, n: Node) {
    exists i :: 0 <= i < |s| && s[i].node == n && Holding(s[i])
  }

  /** Every call but the innermost waits for its jump host, holding its own lock; no lock is held twice. */
  ghost predicate StackOk(f: Fleet, s: seq<Frame>) {
    && s != []
    && (forall i :: 0 <= i < |s| - 1 ==>
          s[i].pc == Jumping && s[i].node in f.jump && f.jump[s[i].node] == s[i + 1].node)
    && s[|s| - 1].pc != Jumping
    && (forall i, j :: 0 <= i < j < |s| && Holding(s[i]) && Holding(s[j]) ==> s[i].node != s[j].node)
  }

  ghost predicate StacksOk(f: Fleet, stacks: map<Task, seq<Frame>>) {
    forall t :: t in stacks ==> StackOk(f, stacks[t])
  }

  ghost predicate LocksOk(w: World) {
    && (forall t, n :: t in w.stacks && Holds(w.stacks[t], n) ==> n in w.holder && w.holder[n] == t)
    && (forall n :: n in w.holder ==> w.holder[n] in w.stacks && Holds(w.stacks[w.holder[n]], n))
  }

  ghost predicate Inv(f: Fleet, w: World) {
    && StacksOk(f, w.stacks)
    && LocksOk(w)
    && w.holder.Keys !! w.conns.Keys
    && w.dead <= w.made
    && (forall n :: n in w.conns ==> w.conns[n].conn in w.made)
  }

  lemma HolderOf(f: Fleet, w: World, t: Task, n: Node)
    requires Inv(f, w) && t in w.stacks && Holds(w.stacks[t], n)
    ensures n in w.holder && w.holder[n] == t
  {}

  lemma HoldsWithTop(s: seq<Frame>, pc: Pc, n: Node)
    requires s != []
    ensures Holds(WithTop(s, pc), n) <==>
            (Holds(s[..|s| - 1], n) || (s[|s| - 1].node == n && Holding(Frame(n, pc))))
  {
    var u, below := WithTop(s, pc), s[..|s| - 1];
    assert forall i :: 0 <= i < |s| - 1 ==> u[i] == s[i] && below[i] == s[i];
    if i :| 0 <= i < |u| && u[i].node == n && Holding(u[i]) {
      if i < |s| - 1 {
        assert below[i].node == n;
      }
    }
    if j :| 0 <= j < |below| && below[j].node == n && Holding(below[j]) {
      assert u[j].node == n && Holding(u[j]);
    }
    if s[|s| - 1].node == n && Holding(Frame(n, pc)) {
      assert u[|s| - 1].node == n && Holding(u[|s| - 1]);
    }
  }

  lemma HoldsPush(s: seq<Frame>, frame: Frame, n: Node)
    requires !Holding(frame)
    ensures Holds(s + [frame], n) <==> Holds(s, n)
  {
    var u := s + [frame];
    if i :| 0 <= i < |u| && u[i].node == n && Holding(u[i]) {
      assert s[i].node == n;
    }
    if j :| 0 <= j < |s| && s[j].node == n && Holding(s[j]) {
      assert u[j].node == n;
    }
  }

  lemma HoldsTop(s: seq<Frame>, n: Node)
    requires s != []
    ensures Holds(s, n) <==> Holds(s[..|s| - 1], n) || (s[|s| - 1].node == n && Holding(s[|s| - 1]))
  {}

  /** Replacing one stack, where the locks it holds change by at most one. */
  lemma ReplaceKeepsLocks(w: World, v: World, t: Task)
    requires LocksOk(w)
    requires forall u :: u != t ==> (u in v.stacks <==> u in w.stacks)
    requires forall u :: u != t && u in w.stacks ==> v.stacks[u] == w.stacks[u]
    requires forall n :: n in v.holder && v.holder[n] != t ==> n in w.holder && w.holder[n] == v.holder[n]
    requires forall n :: n in w.holder && w.holder[n] != t ==> n in v.holder && v.holder[n] == w.holder[n]
    requires forall n :: n in v.holder && v.holder[n] == t ==> t in v.stacks && Holds(v.stacks[t], n)
    requires forall n :: t in v.stacks && Holds(v.stacks[t], n) ==> n in v.holder && v.holder[n] == t
    ensures LocksOk(v)
  {}

  /** What the stack of a returning call leaves behind: the call below, now connecting. */
  function Popped(s: seq<Frame>): seq<Frame>
    requires |s| > 1
  {
    WithTop(s[..|s| - 1], Connecting)
  }

  lemma PoppedOk(f: Fleet, s: seq<Frame>)
    requires StackOk(f, s) && |s| > 1
    ensures StackOk(f, Popped(s))
    ensures forall n :: Holds(Popped(s), n) <==> Holds(s[..|s| - 1], n)
  {
    var below, p := s[..|s| - 1], Popped(s);
    assert forall i :: 0 <= i < |p| ==> p[i].node == s[i].node && Holding(s[i]) && below[i] == s[i];
    assert forall i :: 0 <= i < |p| - 1 ==> p[i] == s[i];
    forall n ensures Holds(p, n) <==> Holds(below, n) {
      HoldsWithTop(below, Connecting, n);
      HoldsTop(below, n);
    }
  }

  lemma TopNotBelow(f: Fleet, s: seq<Frame>)
    requires StackOk(f, s) && Holding(s[|s| - 1])
    ensures !Holds(s[..|s| - 1], s[|s| - 1].node)
  {}

  /** A call that returns without holding its lock, or that has just given it back. */
  lemma ReturnKeeps(f: Fleet, w: World, v: World, t: Task, conn: Conn)
    requires Running(w, t) && StackOk(f, w.stacks[t]) && LocksOk(w)
    requires v.stacks == w.stacks
    requires v.holder == if Holding(Top(w, t)) then w.holder - {Top(w, t).node} else w.holder
    ensures LocksOk(Return(v, t, conn))
    ensures |w.stacks[t]| > 1 ==> StackOk(f, Popped(w.stacks[t]))
  {
    var s, r := w.stacks[t], Return(v, t, conn);
    var below := s[..|s| - 1];
    forall n ensures Holds(s, n) <==> Holds(below, n) || (Holding(Top(w, t)) && n == Top(w, t).node) {
      HoldsTop(s, n);
    }
    if Holding(Top(w, t)) {
      TopNotBelow(f, s);
    }
    if |s| > 1 {
      PoppedOk(f, s);
      assert r.stacks[t] == Popped(s);
    } else {
      assert forall n :: !Holds(below, n);
    }
    ReplaceKeepsLocks(w, r, t);
  }

  lemma WaitKeeps(f: Fleet, s: seq<Frame>)
    requires StackOk(f, s) && !Holding(s[|s| - 1])
    ensures StackOk(f, WithTop(s, Waiting))
    ensures forall n :: Holds(WithTop(s, Waiting), n) <==> Holds(s, n)
  {
    forall n ensures Holds(WithTop(s, Waiting), n) <==> Holds(s, n) {
      HoldsWithTop(s, Waiting, n);
      HoldsTop(s, n);
    }
  }

  /** The stack of a call that takes its lock. */
  lemma LockedStackOk(f: Fleet, s: seq<Frame>)
    requires StackOk(f, s) && !Holding(s[|s| - 1]) && !Holds(s, s[|s| - 1].node)
    ensures StackOk(f, LockedStack(f, s))
    ensures forall m :: Holds(LockedStack(f, s), m) <==> Holds(s, m) || m == s[|s| - 1].node
  {
    var n := s[|s| - 1].node;
    var pc := if n in f.jump then Jumping else Connecting;
    var held := WithTop(s, pc);
    assert forall i :: 0 <= i < |s| - 1 ==> held[i] == s[i];
    assert forall i :: 0 <= i < |s| && s[i].node == n ==> !Holding(s[i]);
    forall m ensures Holds(held, m) <==> Holds(s, m) || m == n {
      HoldsWithTop(s, pc, m);
      HoldsTop(s, m);
    }
    if n in f.jump {
      var frame := Frame(f.jump[n], Start);
      forall m ensures Holds(held + [frame], m) <==> Holds(held, m) {
        HoldsPush(held, frame, m);
      }
      assert forall i :: 0 <= i < |held| ==> (held + [frame])[i] == held[i];
    }
  }

  /** s holds the lock of n besides what other holds. */
  ghost predicate HoldsOneMore(s: seq<Frame>, other: seq<Frame>, n: Node) {
    forall m :: Holds(s, m) <==> Holds(other, m) || m == n
  }

  lemma TakingKeepsLocks(w: World, v: World, t: Task, s: seq<Frame>, n: Node)
    requires LocksOk(w) && t in w.stacks && n !in w.holder && HoldsOneMore(s, w.stacks[t], n)
    requires v.holder == w.holder[n := t] && v.stacks == w.stacks[t := s]
    ensures LocksOk(v)
  {
    ReplaceKeepsLocks(w, v, t);
  }

  lemma OneStackMore(f: Fleet, stacks: map<Task, seq<Frame>>, t: Task, s: seq<Frame>)
    requires StacksOk(f, stacks) && StackOk(f, s)
    ensures StacksOk(f, stacks[t := s])
  {}

  /** A task takes a free lock and goes on with another stack, which holds that lock besides its own. */
  lemma TakingKeepsInv(f: Fleet, w: World, v: World, t: Task, s: seq<Frame>, n: Node)
    requires Inv(f, w) && t in w.stacks && n !in w.holder && StackOk(f, s) && HoldsOneMore(s, w.stacks[t], n)
    requires v == w.(conns := w.conns - {n}, holder := w.holder[n := t], stacks := w.stacks[t := s])
    ensures Inv(f, v)
  {
    OneStackMore(f, w.stacks, t, s);
    TakingKeepsLocks(w, v, t, s, n);
  }

  lemma LockedKeeps(f: Fleet, w: World, t: Task)
    requires Inv(f, w) && Running(w, t) && !Holding(Top(w, t)) && Top(w, t).node !in w.holder
    ensures Inv(f, Locked(f, w, t))
  {
    var s, n := w.stacks[t], Top(w, t).node;
    assert !Holds(s, n);
    LockedStackOk(f, s);
    TakingKeepsInv(f, w, Locked(f, w, t), t, LockedStack(f, s), n);
  }

  lemma ReturnKeepsInv(f: Fleet, w: World, t: Task, now: real)
    requires Inv(f, w) && Running(w, t) && !Holding(Top(w, t)) && Live(w.conns, w.dead, Top(w, t).node)
    ensures var n := Top(w, t).node;
            Inv(f, Return(w.(conns := Touched(w.conns, n, now)), t, w.conns[n].conn))
  {
    var n := Top(w, t).node;
    ReturnKeeps(f, w, w.(conns := Touched(w.conns, n, now)), t, w.conns[n].conn);
  }

  lemma OpenKeepsInv(f: Fleet, w: World, t: Task, conn: Conn, now: real)
    requires Inv(f, w) && Enabled(w, Open(t, conn, now))
    ensures Inv(f, Exec(f, w, Open(t, conn, now)))
  {
    var n := Top(w, t).node;
    HoldsTop(w.stacks[t], n);
    var v := w.(conns := w.conns[n := Entry(conn, now, 0)], made := w.made + {conn}, holder := w.holder - {n});
    ReturnKeeps(f, w, v, t, conn);
  }

  lemma FailKeepsInv(f: Fleet, w: World, t: Task)
    requires Inv(f, w) && Enabled(w, Fail(t))
    ensures Inv(f, Exec(f, w, Fail(t)))
  {
    ReplaceKeepsLocks(w, Exec(f, w, Fail(t)), t);
  }

  lemma EnterWaits(f: Fleet, w: World, t: Task)
    requires Inv(f, w) && Running(w, t) && !Holding(Top(w, t))
    ensures Inv(f, w.(stacks := w.stacks[t := WithTop(w.stacks[t], Waiting)]))
  {
    WaitKeeps(f, w.stacks[t]);
    ReplaceKeepsLocks(w, w.(stacks := w.stacks[t := WithTop(w.stacks[t], Waiting)]), t);
  }

  lemma BeginKeepsInv(f: Fleet, w: World, t: Task, node: Node)
    requires Inv(f, w) && t !in w.stacks
    ensures Inv(f, w.(stacks := w.stacks[t := [Frame(node, Start)]]))
  {}

  lemma StepKeepsInv(f: Fleet, w: World, step: Step)
    requires Inv(f, w) && Enabled(w, step)
    ensures Inv(f, Exec(f, w, step))
  {
    match step
    case Begin(t, node) => BeginKeepsInv(f, w, t, node);
    case Enter(t, now) =>
      if Live(w.conns, w.dead, Top(w, t).node) {
        ReturnKeepsInv(f, w, t, now);
      } else if Top(w, t).node in w.holder {
        EnterWaits(f, w, t);
      } else {
        LockedKeeps(f, w, t);
      }
    case Wake(t, now) =>
      if Live(w.conns, w.dead, Top(w, t).node) {
        ReturnKeepsInv(f, w, t, now);
      } else {
        LockedKeeps(f, w, t);
      }
    case Open(t, conn, now) => OpenKeepsInv(f, w, t, conn, now);
    case Fail(t) => FailKeepsInv(f, w, t);
    case _ =>
  }

  lemma {:induction false} RunKeepsInv(f: Fleet, w: World, steps: seq<Step>)
    requires Inv(f, w) && ValidRun(f, w, steps)
    ensures Inv(f, Run(f, w, steps))
    decreases |steps|
  {
    if steps != [] {
      StepKeepsInv(f, w, steps[0]);
      RunKeepsInv(f, Exec(f, w, steps[0]), steps[1..]);
    }
  }
}

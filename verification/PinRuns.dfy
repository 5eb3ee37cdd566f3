/** Runs over the pool and everything that pins it: when pins and open handles agree. */
module PinRuns {
  import opened Text
  import opened Pool
  import opened PoolPins

  /**
   * made says for which node a connection was made, via through which other connection it runs;
   * connecting holds the nodes whose lock is held for a new connection; openings holds the opens that
   * have their connection and have not entered their handle yet.
   */
  datatype World = World(conns: Conns, dead: set<Conn>, made: map<Conn, Node>, via: map<Conn, Conn>, now: real,
                         connecting: set<Node>, openings: map<nat, Handle>, handles: map<nat, Handle>)

  const EMPTY := World(map[], {}, map[], map[], 0.0, {}, map[], map[])

  /** The stretches between two awaits. An acquire that returns may belong to an open. */
  datatype Step =
    | Hit(node: Node, now: real, opener: Option<nat>)
    | Drop(node: Node)
    | Install(node: Node, conn: Conn, tunnel: Option<Conn>, now: real, opener: Option<nat>)
    | GiveUp(node: Node)
    | EndOpen(id: nat)
    | AbortOpen(id: nat)
    | Close(id: nat)
    | Lose(conn: Conn)
    | Reap(now: real)

  predicate Free(w: World, opener: Option<nat>) {
    opener.Some? ==> opener.value !in w.openings && opener.value !in w.handles
  }

  /** A node with a jump host is reached through a connection made for that host. */
  predicate Tunnelled(f: Fleet, w: World, node: Node, tunnel: Option<Conn>) {
    if node in f.jump
    then tunnel.Some? && tunnel.value in w.made && w.made[tunnel.value] == f.jump[node] && tunnel.value !in w.dead
    else tunnel.None?
  }

  predicate Enabled(f: Fleet, w: World, step: Step) {
    match step
    case Hit(node, now, opener) => Live(w.conns, w.dead, node) && now >= w.now && Free(w, opener)
    case Drop(node) => !Live(w.conns, w.dead, node) && node !in w.connecting
    case Install(node, conn, tunnel, now, opener) =>
      && node in w.connecting && conn !in w.made && now >= w.now && Free(w, opener)
      && Tunnelled(f, w, node, tunnel)
    case GiveUp(node) => node in w.connecting
    case EndOpen(id) => id in w.openings
    case AbortOpen(id) => id in w.openings
    case Close(id) => id in w.handles
    case Lose(conn) => conn in w.made
    case Reap(now) => now >= w.now
  }

  /** The acquire has returned conn, to an open or to a single command. */
  function Given(w: World, opener: Option<nat>, node: Node, conn: Conn): World {
    if opener.Some? then w.(openings := w.openings[opener.value := Handle(node, conn, w.now, false)]) else w
  }

  /** Each connection of the path runs through the next one. */
  predicate CarrierPath(via: map<Conn, Conn>, path: seq<Conn>) {
    path != [] && forall i :: 0 <= i < |path| - 1 ==> path[i] in via && via[path[i]] == path[i + 1]
  }

  /** Traffic of c passes through d. */
  ghost predicate Carries(via: map<Conn, Conn>, d: Conn, c: Conn) {
    exists path :: CarrierPath(via, path) && path[0] == c && path[|path| - 1] == d
  }

  /** What a reaper round closes. */
  function ClosedBy(f: Fleet, w: World, now: real): set<Conn> {
    ConnsOf(w.conns, w.conns.Keys - Reaped(w.conns, now, f.ttl).Keys)
  }

  /** What goes down with it: the connections that run through one it closes. */
  ghost function Falling(f: Fleet, w: World, now: real): set<Conn> {
    set c | c in w.made && CarriedByAny(w.via, ClosedBy(f, w, now), c)
  }

  ghost predicate CarriedByAny(via: map<Conn, Conn>, closed: set<Conn>, c: Conn) {
    exists d :: d in closed && Carries(via, d, c)
  }

  ghost function Exec(f: Fleet, w: World, step: Step): World
    requires Enabled(f, w, step)
  {
    match step
    case Hit(node, now, opener) =>
      Given(w.(conns := Touched(w.conns, node, now), now := now), opener, node, w.conns[node].conn)
    case Drop(node) => w.(conns := w.conns - {node}, connecting := w.connecting + {node})
    case Install(node, conn, tunnel, now, opener) =>
      var v := w.(conns := w.conns[node := Entry(conn, now, 0)], made := w.made[conn := node],
                  via := if tunnel.Some? then w.via[conn := tunnel.value] else w.via,
                  connecting := w.connecting - {node}, now := now);
      Given(v, opener, node, conn)
    case GiveUp(node) => w.(connecting := w.connecting - {node})
    case EndOpen(id) =>
      w.(conns := Pinned(w.conns, w.openings[id].node), handles := w.handles[id := w.openings[id]],
         openings := w.openings - {id})
    case AbortOpen(id) => w.(openings := w.openings - {id})
    case Close(id) => w.(conns := Unpinned(w.conns, w.handles[id].node), handles := w.handles - {id})
    case Lose(conn) => w.(dead := w.dead + {conn})
    case Reap(now) =>
      w.(conns := Reaped(w.conns, now, f.ttl), dead := w.dead + ClosedBy(f, w, now) + Falling(f, w, now), now := now)
  }

  /** A round of the reaper closes the connections of the entries it takes, and all that run through them. */
  lemma RoundCloses(f: Fleet, w: World, now: real, conn: Conn)
    requires now >= w.now
    ensures var v := Exec(f, w, Reap(now));
            conn in v.dead <==>
            conn in w.dead ||
            exists n :: n in w.conns && w.conns[n].pinned == 0 && now - w.conns[n].lastUsed > f.ttl
                        && (conn == w.conns[n].conn || (conn in w.made && Carries(w.via, w.conns[n].conn, conn)))
  {}

  ghost predicate ValidRun(f: Fleet, w: World, steps: seq<Step>)
    decreases |steps|
  {
    steps == [] || (Enabled(f, w, steps[0]) && ValidRun(f, Exec(f, w, steps[0]), steps[1..]))
  }

  ghost function Run(f: Fleet, w: World, steps: seq<Step>): World
    requires ValidRun(f, w, steps)
    decreases |steps|
  {
    if steps == [] then w else Run(f, Exec(f, w, steps[0]), steps[1..])
  }

  /** The open shells, logs and tunnels of a node. */
  function HandlesOn(w: World, node: Node): set<nat> { On(w.handles, w.handles.Keys, node) }

  function Pins(w: World, node: Node): nat {
    if node in w.conns then w.conns[node].pinned else 0
  }

  // ---------- never more pins than handles ----------

  ghost predicate Bounded(w: World) {
    forall n :: Pins(w, n) <= |HandlesOn(w, n)|
  }

  /** How many more handles a node has after a step. */
  function Gained(w: World, step: Step, n: Node): int {
    match step
    case EndOpen(id) => if id in w.openings && w.openings[id].node == n then 1 else 0
    case Close(id) => if id in w.handles && w.handles[id].node == n then -1 else 0
    case _ => 0
  }

  /** An id is never open and opening at once. */
  predicate IdsApart(w: World) {
    w.openings.Keys !! w.handles.Keys
  }

  lemma HandleAdded(handles: map<nat, Handle>, id: nat, handle: Handle, n: Node)
    requires id !in handles
    ensures var more := handles[id := handle];
            |On(more, more.Keys, n)| == |On(handles, handles.Keys, n)| + if handle.node == n then 1 else 0
  {
    var more := handles[id := handle];
    OneMoreOn(more, handles.Keys, id, n);
    assert more.Keys == handles.Keys + {id} && On(more, handles.Keys, n) == On(handles, handles.Keys, n);
  }

  lemma HandlesCounted(f: Fleet, w: World, step: Step, n: Node)
    requires IdsApart(w) && Enabled(f, w, step)
    ensures |HandlesOn(Exec(f, w, step), n)| == |HandlesOn(w, n)| + Gained(w, step, n)
  {
    match step
    case EndOpen(id) => HandleAdded(w.handles, id, w.openings[id], n);
    case Close(id) =>
      HandleAdded(w.handles - {id}, id, w.handles[id], n);
      assert (w.handles - {id})[id := w.handles[id]] == w.handles;
    case _ =>
  }

  lemma StepKeepsBound(f: Fleet, w: World, step: Step)
    requires IdsApart(w) && Bounded(w) && Enabled(f, w, step)
    ensures IdsApart(Exec(f, w, step)) && Bounded(Exec(f, w, step))
  {
    var v := Exec(f, w, step);
    forall n ensures Pins(v, n) <= |HandlesOn(v, n)| {
      HandlesCounted(f, w, step, n);
      assert Pins(w, n) <= |HandlesOn(w, n)|;
    }
  }

  lemma {:induction false} RunKeepsBound(f: Fleet, w: World, steps: seq<Step>)
    requires IdsApart(w) && Bounded(w) && ValidRun(f, w, steps)
    ensures IdsApart(Run(f, w, steps)) && Bounded(Run(f, w, steps))
    decreases |steps|
  {
    if steps != [] {
      StepKeepsBound(f, w, steps[0]);
      RunKeepsBound(f, Exec(f, w, steps[0]), steps[1..]);
    }
  }

  /**
   * In every run, failed and overlapping reconnects included, a node has at most as many pins as open
   * handles; so once they are all closed nothing but its last use keeps it from the reaper.
   */
  lemma PinsNeverExceedHandles(f: Fleet, steps: seq<Step>, node: Node)
    requires ValidRun(f, EMPTY, steps)
    ensures var w := Run(f, EMPTY, steps);
            && Pins(w, node) <= |HandlesOn(w, node)|
            && (node in w.conns && HandlesOn(w, node) == {} ==>
                  forall now :: Reapable(w.conns[node], now, f.ttl) <==> now - w.conns[node].lastUsed > f.ttl)
  {
    RunKeepsBound(f, EMPTY, steps);
    assert Pins(Run(f, EMPTY, steps), node) <= |HandlesOn(Run(f, EMPTY, steps), node)|;
  }

  // ---------- when pins equal handles ----------

  ghost predicate Equal(w: World) {
    forall n :: Pins(w, n) == |HandlesOn(w, n)|
  }

  /** A node that is being connected has no entry. */
  predicate Sane(w: World) {
    IdsApart(w) && w.connecting !! w.conns.Keys
  }

  /**
   * The two steps that lose pins: a dead entry is dropped under open handles, and an open ends on a
   * node whose entry is gone.
   */
  predicate Loses(w: World, step: Step) {
    match step
    case Drop(node) => node in w.conns && HandlesOn(w, node) != {}
    case EndOpen(id) => id in w.openings && w.openings[id].node !in w.conns
    case _ => false
  }

  lemma StepKeepsSane(f: Fleet, w: World, step: Step)
    requires Sane(w) && Enabled(f, w, step)
    ensures Sane(Exec(f, w, step))
  {}

  /** How many more pins a node has after a step that starts with pins equal to handles. */
  lemma PinsCounted(f: Fleet, w: World, step: Step, n: Node)
    requires Sane(w) && Equal(w) && Enabled(f, w, step)
    ensures Pins(Exec(f, w, step), n) ==
            if step == Drop(n) then 0
            else if step.EndOpen? && n !in w.conns then Pins(w, n)
            else Pins(w, n) + Gained(w, step, n)
  {
    assert Pins(w, n) == |HandlesOn(w, n)|;
    match step
    case Close(id) =>
      if w.handles[id].node == n {
        assert id in HandlesOn(w, n);
      }
    case _ =>
  }

  /** From a state where they are equal, a step keeps them equal exactly when it is not one that loses pins. */
  lemma StepKeepsEqualIff(f: Fleet, w: World, step: Step)
    requires Sane(w) && Equal(w) && Enabled(f, w, step)
    ensures Equal(Exec(f, w, step)) <==> !Loses(w, step)
  {
    var v := Exec(f, w, step);
    if Loses(w, step) {
      var n := if step.Drop? then step.node else w.openings[step.id].node;
      PinsCounted(f, w, step, n);
      HandlesCounted(f, w, step, n);
      assert Pins(w, n) == |HandlesOn(w, n)|;
      assert Pins(v, n) != |HandlesOn(v, n)|;
    } else {
      forall n ensures Pins(v, n) == |HandlesOn(v, n)| {
        PinsCounted(f, w, step, n);
        HandlesCounted(f, w, step, n);
        assert Pins(w, n) == |HandlesOn(w, n)|;
      }
    }
  }

  ghost predicate EqualThroughout(f: Fleet, w: World, steps: seq<Step>)
    requires ValidRun(f, w, steps)
    decreases |steps|
  {
    Equal(w) && (steps == [] || EqualThroughout(f, Exec(f, w, steps[0]), steps[1..]))
  }

  ghost predicate LosesNothing(f: Fleet, w: World, steps: seq<Step>)
    requires ValidRun(f, w, steps)
    decreases |steps|
  {
    steps == [] || (!Loses(w, steps[0]) && LosesNothing(f, Exec(f, w, steps[0]), steps[1..]))
  }

  lemma {:induction false} EqualIffLosesNothing(f: Fleet, w: World, steps: seq<Step>)
    requires Sane(w) && Equal(w) && ValidRun(f, w, steps)
    ensures EqualThroughout(f, w, steps) <==> LosesNothing(f, w, steps)
    ensures LosesNothing(f, w, steps) ==> Sane(Run(f, w, steps)) && Equal(Run(f, w, steps))
    decreases |steps|
  {
    if steps != [] {
      var v := Exec(f, w, steps[0]);
      StepKeepsSane(f, w, steps[0]);
      StepKeepsEqualIff(f, w, steps[0]);
      if Equal(v) {
        EqualIffLosesNothing(f, v, steps[1..]);
      }
    }
  }

  /** In every run, pins equal open handles in all its states exactly when no step of it loses pins. */
  lemma PinsEqualHandlesIff(f: Fleet, steps: seq<Step>)
    requires ValidRun(f, EMPTY, steps)
    ensures EqualThroughout(f, EMPTY, steps) <==> LosesNothing(f, EMPTY, steps)
  {
    EqualIffLosesNothing(f, EMPTY, steps);
  }

  /** In a run that loses no pins, no reaper round at any time takes a node with an open handle. */
  lemma UsedNodesAreSpared(f: Fleet, steps: seq<Step>, now: real, node: Node)
    requires ValidRun(f, EMPTY, steps) && LosesNothing(f, EMPTY, steps)
    requires HandlesOn(Run(f, EMPTY, steps), node) != {}
    ensures node in Reaped(Run(f, EMPTY, steps).conns, now, f.ttl)
  {
    var w := Run(f, EMPTY, steps);
    EqualIffLosesNothing(f, EMPTY, steps);
    assert Pins(w, node) == |HandlesOn(w, node)|;
  }

  // ---------- a run that loses pins ----------

  /** One connection, on which a shell is open; it is dead if so said. */
  predicate OneShell(w: World, node: Node, conn: Conn, id: nat, dead: bool) {
    && w.conns == map[node := Entry(conn, 0.0, 1)] && conn in w.made && w.now == 0.0
    && w.connecting == {} && w.openings == map[] && w.handles == map[id := Handle(node, conn, 0.0, false)]
    && (if dead then w.dead == {conn} else conn !in w.dead)
  }

  lemma FirstShell(f: Fleet, node: Node, conn: Conn) returns (steps: seq<Step>, w: World)
    requires node !in f.jump
    ensures ValidRun(f, EMPTY, steps) && w == Run(f, EMPTY, steps)
    ensures OneShell(w, node, conn, 1, true) && w.made == map[conn := node]
  {
    steps := [Drop(node), Install(node, conn, None, 0.0, Some(1)), EndOpen(1), Lose(conn)];
    w := After(f, EMPTY, steps[0], steps[1], steps[2], steps[3]);
  }

  lemma SecondShell(f: Fleet, w: World, node: Node, conn: Conn) returns (steps: seq<Step>, v: World)
    requires node !in f.jump && conn !in w.made && w.dead <= w.made.Keys
    requires exists other :: OneShell(w, node, other, 1, true)
    ensures ValidRun(f, w, steps) && v == Run(f, w, steps)
    ensures v.conns == map[node := Entry(conn, 0.0, 0)] && conn !in v.dead && v.now == 0.0
    ensures v.handles == map[2 := Handle(node, conn, 0.0, false)]
  {
    steps := [Drop(node), Install(node, conn, None, 0.0, Some(2)), EndOpen(2), Close(1)];
    v := After(f, w, steps[0], steps[1], steps[2], steps[3]);
  }

  /**
   * A run that loses a pin: a shell opened before a reconnect takes the pin of one opened after it,
   * and the reaper then closes a connection in use.
   */
  lemma ReconnectCanLosePins(f: Fleet, node: Node, now: real) returns (steps: seq<Step>)
    requires node !in f.jump && now >= 0.0 && now > f.ttl
    ensures ValidRun(f, EMPTY, steps)
    ensures var w := Run(f, EMPTY, steps);
            && HandlesOn(w, node) == {2} && Live(w.conns, w.dead, node) && w.handles[2].conn == w.conns[node].conn
            && Enabled(f, w, Reap(now)) && node !in Reaped(w.conns, now, f.ttl)
  {
    var first, w := FirstShell(f, node, 10);
    var second, v := SecondShell(f, w, node, 11);
    steps := first + second;
    RunsJoin(f, EMPTY, first, second);
  }

  lemma After(f: Fleet, w: World, a: Step, b: Step, c: Step, d: Step) returns (v: World)
    requires Enabled(f, w, a)
    requires Enabled(f, Exec(f, w, a), b)
    requires Enabled(f, Exec(f, Exec(f, w, a), b), c)
    requires Enabled(f, Exec(f, Exec(f, Exec(f, w, a), b), c), d)
    ensures v == Exec(f, Exec(f, Exec(f, Exec(f, w, a), b), c), d)
    ensures ValidRun(f, w, [a, b, c, d]) && Run(f, w, [a, b, c, d]) == v
  {
    var x := Exec(f, w, a);
    var y := Exec(f, x, b);
    var z := Exec(f, y, c);
    v := Exec(f, z, d);
    RunOneMore(f, z, d, []);
    RunOneMore(f, y, c, [d]);
    RunOneMore(f, x, b, [c, d]);
    RunOneMore(f, w, a, [b, c, d]);
    assert [a] + ([b] + ([c] + ([d] + []))) == [a, b, c, d];
  }

  lemma RunOneMore(f: Fleet, w: World, step: Step, rest: seq<Step>)
    requires Enabled(f, w, step) && ValidRun(f, Exec(f, w, step), rest)
    ensures ValidRun(f, w, [step] + rest)
    ensures Run(f, w, [step] + rest) == Run(f, Exec(f, w, step), rest)
  {
    assert ([step] + rest)[1..] == rest;
  }

  lemma {:induction false} RunsJoin(f: Fleet, w: World, a: seq<Step>, b: seq<Step>)
    requires ValidRun(f, w, a) && ValidRun(f, Run(f, w, a), b)
    ensures ValidRun(f, w, a + b) && Run(f, w, a + b) == Run(f, Run(f, w, a), b)
    decreases |a|
  {
    if a == [] {
      assert a + b == b;
    } else {
      RunsJoin(f, Exec(f, w, a[0]), a[1..], b);
      RunOneMore(f, w, a[0], a[1..] + b);
      assert a + b == [a[0]] + (a[1..] + b);
    }
  }
}

/** Runs in which no connection dies by itself, and for which fleets pins equal open handles in all of them. */
module PinQuiet {
  import opened Text
  import opened Pool
  import opened PoolPins
  import opened PinRuns

  /** No connection dies by itself, and no open is still under way when it is older than the idle limit. */
  predicate Quiet(f: Fleet, w: World, step: Step) {
    match step
    case Lose(_) => false
    case Reap(now) => forall id | id in w.openings :: now - w.openings[id].stamp <= f.ttl
    case _ => true
  }

  ghost predicate QuietRun(f: Fleet, w: World, steps: seq<Step>)
    requires ValidRun(f, w, steps)
    decreases |steps|
  {
    steps == [] || (Quiet(f, w, steps[0]) && QuietRun(f, Exec(f, w, steps[0]), steps[1..]))
  }

  /** No connection in the table goes down with the one it runs through. */
  ghost predicate Carrying(f: Fleet, w: World, step: Step) {
    step.Reap? ==> forall n :: n in Reaped(w.conns, step.now, f.ttl) ==> w.conns[n].conn !in Falling(f, w, step.now)
  }

  ghost predicate CarryingRun(f: Fleet, w: World, steps: seq<Step>)
    requires ValidRun(f, w, steps)
    decreases |steps|
  {
    steps == [] || (Carrying(f, w, steps[0]) && CarryingRun(f, Exec(f, w, steps[0]), steps[1..]))
  }

  /** The node still has the connection that was given. */
  predicate Tied(w: World, handle: Handle) {
    handle.node in w.conns && w.conns[handle.node].conn == handle.conn
  }

  ghost predicate EntriesLive(w: World) {
    && w.dead <= w.made.Keys
    && forall n :: n in w.conns ==>
         w.conns[n].conn in w.made && w.made[w.conns[n].conn] == n && w.conns[n].conn !in w.dead
  }

  ghost predicate HandlesTied(w: World) {
    forall id :: id in w.handles ==> Tied(w, w.handles[id])
  }

  ghost predicate OpeningsTied(w: World) {
    forall id :: id in w.openings ==>
      && Tied(w, w.openings[id])
      && w.openings[id].stamp <= w.now && w.openings[id].stamp <= w.conns[w.openings[id].node].lastUsed
  }

  ghost predicate Calm(w: World) {
    Sane(w) && Equal(w) && EntriesLive(w) && HandlesTied(w) && OpeningsTied(w)
  }

  lemma StepKeepsEntriesLive(f: Fleet, w: World, step: Step)
    requires EntriesLive(w) && Enabled(f, w, step) && Quiet(f, w, step) && Carrying(f, w, step)
    ensures EntriesLive(Exec(f, w, step))
  {
    if step.Reap? {
      RoundKeepsEntriesLive(f, w, step.now);
    }
  }

  /** What a round closes belonged to nodes that are gone. */
  lemma ClosedAreGone(f: Fleet, w: World, now: real)
    requires EntriesLive(w)
    ensures forall d :: d in ClosedBy(f, w, now) ==> d in w.made && w.made[d] !in Reaped(w.conns, now, f.ttl)
  {}

  lemma RoundKeepsEntriesLive(f: Fleet, w: World, now: real)
    requires EntriesLive(w) && Enabled(f, w, Reap(now)) && Carrying(f, w, Reap(now))
    ensures EntriesLive(Exec(f, w, Reap(now)))
  {
    ClosedAreGone(f, w, now);
  }

  /** A node that a quiet reaper round takes has neither a handle nor an open under way. */
  lemma ReapedIsIdle(f: Fleet, w: World, now: real, n: Node)
    requires Calm(w) && Quiet(f, w, Reap(now)) && n in w.conns && Reapable(w.conns[n], now, f.ttl)
    ensures forall id :: id in w.handles ==> w.handles[id].node != n
    ensures forall id :: id in w.openings ==> w.openings[id].node != n
  {
    assert Pins(w, n) == |HandlesOn(w, n)|;
    forall id | id in w.handles ensures w.handles[id].node != n {
      assert id !in HandlesOn(w, n);
    }
  }

  lemma RoundKeepsTied(f: Fleet, w: World, now: real)
    requires Calm(w) && Enabled(f, w, Reap(now)) && Quiet(f, w, Reap(now))
    ensures HandlesTied(Exec(f, w, Reap(now))) && OpeningsTied(Exec(f, w, Reap(now)))
  {
    forall n | n in w.conns && Reapable(w.conns[n], now, f.ttl)
      ensures forall id :: id in w.handles ==> w.handles[id].node != n
      ensures forall id :: id in w.openings ==> w.openings[id].node != n
    {
      ReapedIsIdle(f, w, now, n);
    }
  }

  lemma StepKeepsHandlesTied(f: Fleet, w: World, step: Step)
    requires Calm(w) && Enabled(f, w, step) && !step.Reap?
    ensures HandlesTied(Exec(f, w, step))
  {}

  lemma ReturnKeepsOpeningsTied(f: Fleet, w: World, step: Step)
    requires OpeningsTied(w) && Sane(w) && Enabled(f, w, step) && (step.Hit? || step.Install?)
    ensures OpeningsTied(Exec(f, w, step))
  {}

  lemma StepKeepsOpeningsTied(f: Fleet, w: World, step: Step)
    requires OpeningsTied(w) && EntriesLive(w) && Sane(w) && Enabled(f, w, step) && !step.Reap?
    ensures OpeningsTied(Exec(f, w, step))
  {
    if step.Hit? || step.Install? {
      ReturnKeepsOpeningsTied(f, w, step);
    }
  }

  /** A quiet step that takes no carried connection down loses no pins. */
  lemma QuietLosesNothing(f: Fleet, w: World, step: Step)
    requires Calm(w) && Enabled(f, w, step) && Quiet(f, w, step) && Carrying(f, w, step)
    ensures !Loses(w, step) && Calm(Exec(f, w, step))
  {
    StepKeepsSane(f, w, step);
    StepKeepsEntriesLive(f, w, step);
    StepKeepsEqualIff(f, w, step);
    if step.Reap? {
      RoundKeepsTied(f, w, step.now);
    } else {
      StepKeepsHandlesTied(f, w, step);
      StepKeepsOpeningsTied(f, w, step);
    }
  }

  lemma {:induction false} QuietRunIsCalm(f: Fleet, w: World, steps: seq<Step>)
    requires Calm(w) && ValidRun(f, w, steps) && QuietRun(f, w, steps) && CarryingRun(f, w, steps)
    ensures LosesNothing(f, w, steps) && Calm(Run(f, w, steps))
    decreases |steps|
  {
    if steps != [] {
      QuietLosesNothing(f, w, steps[0]);
      QuietRunIsCalm(f, Exec(f, w, steps[0]), steps[1..]);
    }
  }

  /** So where connections die neither by themselves nor with their carriers, pins equal handles throughout. */
  lemma QuietRunsAreExact(f: Fleet, steps: seq<Step>)
    requires ValidRun(f, EMPTY, steps) && QuietRun(f, EMPTY, steps) && CarryingRun(f, EMPTY, steps)
    ensures LosesNothing(f, EMPTY, steps) && EqualThroughout(f, EMPTY, steps)
  {
    QuietRunIsCalm(f, EMPTY, steps);
    PinsEqualHandlesIff(f, steps);
  }

  // ---------- for which fleets ----------

  /** No host is reached through a host that is reached directly, so no jump can ever be made. */
  predicate NoUsableJump(f: Fleet) {
    forall n :: n in f.jump ==> f.jump[n] in f.jump
  }

  ghost predicate Direct(f: Fleet, w: World) {
    w.via == map[] && forall c :: c in w.made ==> w.made[c] !in f.jump
  }

  lemma StepIsDirect(f: Fleet, w: World, step: Step)
    requires NoUsableJump(f) && Direct(f, w) && Enabled(f, w, step)
    ensures Direct(f, Exec(f, w, step))
  {}

  /** Without tunnels a connection carries only itself. */
  lemma CarriesItself(d: Conn, c: Conn)
    requires Carries(map[], d, c)
    ensures d == c
  {
    var path :| CarrierPath(map[], path) && path[0] == c && path[|path| - 1] == d;
    assert |path| == 1;
  }

  lemma DirectIsCarrying(f: Fleet, w: World, step: Step)
    requires EntriesLive(w) && w.via == map[]
    ensures Carrying(f, w, step)
  {
    if step.Reap? {
      var left := Reaped(w.conns, step.now, f.ttl);
      forall n | n in left ensures w.conns[n].conn !in Falling(f, w, step.now) {
        var c := w.conns[n].conn;
        forall d | d in ClosedBy(f, w, step.now) ensures !Carries(w.via, d, c) {
          ClosedAreGone(f, w, step.now);
          assert w.made[c] == n && d != c;
          if Carries(w.via, d, c) {
            CarriesItself(d, c);
          }
        }
      }
    }
  }

  lemma {:induction false} DirectRunIsCarrying(f: Fleet, w: World, steps: seq<Step>)
    requires NoUsableJump(f) && Direct(f, w) && Calm(w) && ValidRun(f, w, steps) && QuietRun(f, w, steps)
    ensures CarryingRun(f, w, steps) && Direct(f, Run(f, w, steps))
    decreases |steps|
  {
    if steps != [] {
      DirectIsCarrying(f, w, steps[0]);
      StepIsDirect(f, w, steps[0]);
      QuietLosesNothing(f, w, steps[0]);
      DirectRunIsCarrying(f, Exec(f, w, steps[0]), steps[1..]);
    }
  }

  /** A shell through a jump host. */
  lemma JumpShell(f: Fleet, n: Node) returns (steps: seq<Step>, w: World)
    requires n in f.jump && f.jump[n] !in f.jump
    ensures ValidRun(f, EMPTY, steps) && QuietRun(f, EMPTY, steps) && w == Run(f, EMPTY, steps)
    ensures w.conns == map[f.jump[n] := Entry(0, 0.0, 0), n := Entry(1, 0.0, 1)] && w.connecting == {}
    ensures w.made == map[0 := f.jump[n], 1 := n] && w.via == map[1 := 0] && w.now == 0.0
    ensures w.handles == map[1 := Handle(n, 1, 0.0, false)] && w.openings == map[]
  {
    var m := f.jump[n];
    var a, b := Drop(m), Install(m, 0, None, 0.0, None);
    var c, d := Drop(n), Install(n, 1, Some(0), 0.0, Some(1));
    var v := After(f, EMPTY, a, b, c, d);
    w := Exec(f, v, EndOpen(1));
    steps := [a, b, c, d] + [EndOpen(1)];
    RunOneMore(f, v, EndOpen(1), []);
    assert [EndOpen(1)] + [] == [EndOpen(1)];
    RunsJoin(f, EMPTY, [a, b, c, d], [EndOpen(1)]);
    OnlyOpens(f, EMPTY, steps);
  }

  /** Steps that are neither a loss nor a reaper round are quiet. */
  lemma {:induction false} OnlyOpens(f: Fleet, w: World, steps: seq<Step>)
    requires ValidRun(f, w, steps)
    requires forall i :: 0 <= i < |steps| ==> !steps[i].Lose? && !steps[i].Reap?
    ensures QuietRun(f, w, steps)
    decreases |steps|
  {
    if steps != [] {
      OnlyOpens(f, Exec(f, w, steps[0]), steps[1..]);
    }
  }

  /** A time at which what was last used at 0 is idle for too long. */
  function Late(f: Fleet): real {
    if f.ttl >= 0.0 then f.ttl + 1.0 else 0.0
  }

  /** The round that closes the jump host takes the shell's connection down, and the next acquire drops it. */
  lemma JumpShellFalls(f: Fleet, n: Node, w: World) returns (v: World)
    requires n in f.jump && f.jump[n] != n
    requires w.conns == map[f.jump[n] := Entry(0, 0.0, 0), n := Entry(1, 0.0, 1)] && w.connecting == {}
    requires w.made == map[0 := f.jump[n], 1 := n] && w.via == map[1 := 0] && w.now == 0.0
    requires w.handles == map[1 := Handle(n, 1, 0.0, false)] && w.openings == map[]
    ensures ValidRun(f, w, [Reap(Late(f)), Drop(n)]) && QuietRun(f, w, [Reap(Late(f)), Drop(n)])
    ensures v == Run(f, w, [Reap(Late(f)), Drop(n)]) && Pins(v, n) == 0 && HandlesOn(v, n) == {1}
  {
    var m, now := f.jump[n], Late(f);
    assert m in w.conns && Reapable(w.conns[m], now, f.ttl);
    assert 0 in ClosedBy(f, w, now) by { assert m in w.conns.Keys - Reaped(w.conns, now, f.ttl).Keys; }
    assert Carries(w.via, 0, 1) by { assert CarrierPath(w.via, [1, 0]) && [1, 0][0] == 1 && [1, 0][1] == 0; }
    var u := Exec(f, w, Reap(now));
    assert 1 in u.dead && n in u.conns;
    v := Exec(f, u, Drop(n));
    RunOneMore(f, u, Drop(n), []);
    RunOneMore(f, w, Reap(now), [Drop(n)]);
    assert [Reap(now)] + ([Drop(n)] + []) == [Reap(now), Drop(n)];
    assert [Reap(now), Drop(n)][1..] == [Drop(n)] && [Drop(n)][1..] == [];
    assert QuietRun(f, u, [Drop(n)]);
  }

  lemma {:induction false} QuietRunsJoin(f: Fleet, w: World, a: seq<Step>, b: seq<Step>)
    requires ValidRun(f, w, a) && ValidRun(f, Run(f, w, a), b) && ValidRun(f, w, a + b)
    requires QuietRun(f, w, a) && QuietRun(f, Run(f, w, a), b)
    ensures QuietRun(f, w, a + b)
    decreases |a|
  {
    if a == [] {
      assert a + b == b;
    } else {
      assert (a + b)[1..] == a[1..] + b;
      QuietRunsJoin(f, Exec(f, w, a[0]), a[1..], b);
    }
  }

  /** For every usable jump, a quiet run after which an open shell has no pin. */
  lemma JumpCanLosePins(f: Fleet, n: Node) returns (steps: seq<Step>)
    requires n in f.jump && f.jump[n] !in f.jump
    ensures ValidRun(f, EMPTY, steps) && QuietRun(f, EMPTY, steps)
    ensures Pins(Run(f, EMPTY, steps), n) == 0 && HandlesOn(Run(f, EMPTY, steps), n) == {1}
  {
    var first, w := JumpShell(f, n);
    var second := [Reap(Late(f)), Drop(n)];
    var v := JumpShellFalls(f, n, w);
    steps := first + second;
    RunsJoin(f, EMPTY, first, second);
    QuietRunsJoin(f, EMPTY, first, second);
  }

  /** Over every quiet run pins equal open handles in all states. */
  ghost predicate AlwaysEqual(f: Fleet) {
    forall steps :: ValidRun(f, EMPTY, steps) && QuietRun(f, EMPTY, steps) ==> EqualThroughout(f, EMPTY, steps)
  }

  /** Pins equal open handles over all quiet runs exactly when the fleet has no usable jump. */
  lemma AlwaysEqualIffNoUsableJump(f: Fleet)
    ensures AlwaysEqual(f) <==> NoUsableJump(f)
  {
    if NoUsableJump(f) {
      forall steps | ValidRun(f, EMPTY, steps) && QuietRun(f, EMPTY, steps) ensures EqualThroughout(f, EMPTY, steps) {
        DirectRunIsCarrying(f, EMPTY, steps);
        QuietRunsAreExact(f, steps);
      }
    } else {
      var n :| n in f.jump && f.jump[n] !in f.jump;
      var steps := JumpCanLosePins(f, n);
      EqualIffLosesNothing(f, EMPTY, steps);
      var w := Run(f, EMPTY, steps);
      assert Pins(w, n) != |HandlesOn(w, n)|;
    }
  }
}

/** Connections that carry others: a jump host is not pinned for the shells that run through it. */
module PinCarriers {
  import opened Pool
  import opened PinRuns
  import opened PinQuiet

  /** Some open shell, log or tunnel depends on d. */
  ghost predicate InUse(w: World, d: Conn) {
    exists id :: id in w.handles && Carries(w.via, d, w.handles[id].conn)
  }

  /** The round closes nothing that an open handle depends on. */
  ghost predicate RoundSpares(f: Fleet, w: World, now: real) {
    forall d :: d in ClosedBy(f, w, now) ==> !InUse(w, d)
  }

  /**
   * In a run that loses no pins, a reaper round closes no connection in use exactly when every node
   * whose connection is in use has an open handle of its own or was acquired within the idle limit.
   */
  lemma RoundSparesIff(f: Fleet, steps: seq<Step>, now: real)
    requires ValidRun(f, EMPTY, steps) && LosesNothing(f, EMPTY, steps)
    ensures var w := Run(f, EMPTY, steps);
            RoundSpares(f, w, now) <==>
            forall n :: n in w.conns && InUse(w, w.conns[n].conn) ==>
              HandlesOn(w, n) != {} || now - w.conns[n].lastUsed <= f.ttl
  {
    EqualIffLosesNothing(f, EMPTY, steps);
    var w := Run(f, EMPTY, steps);
    forall n | n in w.conns ensures Reapable(w.conns[n], now, f.ttl) <==>
                                    HandlesOn(w, n) == {} && now - w.conns[n].lastUsed > f.ttl
    {
      assert Pins(w, n) == |HandlesOn(w, n)|;
    }
    ClosedAreReapable(f, w, now);
  }

  lemma ClosedAreReapable(f: Fleet, w: World, now: real)
    ensures forall n :: n in w.conns && Reapable(w.conns[n], now, f.ttl) ==> w.conns[n].conn in ClosedBy(f, w, now)
    ensures forall d :: d in ClosedBy(f, w, now) ==>
              exists n :: n in w.conns && Reapable(w.conns[n], now, f.ttl) && w.conns[n].conn == d
  {}

  // ---------- which fleets are safe ----------

  /** Over every quiet run no reaper round closes a connection in use. */
  ghost predicate SafeFleet(f: Fleet) {
    forall steps, now :: QuietUntil(f, steps, now) ==> RoundSpares(f, Run(f, EMPTY, steps), now)
  }

  ghost predicate QuietUntil(f: Fleet, steps: seq<Step>, now: real) {
    && ValidRun(f, EMPTY, steps) && QuietRun(f, EMPTY, steps)
    && Enabled(f, Run(f, EMPTY, steps), Reap(now)) && Quiet(f, Run(f, EMPTY, steps), Reap(now))
  }

  /** Without tunnels the only connection a handle depends on is the one of its node. */
  lemma DirectUse(w: World, n: Node)
    requires Calm(w) && w.via == map[] && n in w.conns
    ensures InUse(w, w.conns[n].conn) ==> HandlesOn(w, n) != {}
  {
    if InUse(w, w.conns[n].conn) {
      var id :| id in w.handles && Carries(w.via, w.conns[n].conn, w.handles[id].conn);
      CarriesItself(w.conns[n].conn, w.handles[id].conn);
      assert Tied(w, w.handles[id]);
      assert id in HandlesOn(w, n);
    }
  }

  /** So a quiet round spares what is in use: it is pinned itself. */
  lemma DirectRoundSpares(f: Fleet, w: World, now: real)
    requires Calm(w) && w.via == map[]
    ensures RoundSpares(f, w, now)
  {
    ClosedAreReapable(f, w, now);
    forall d | d in ClosedBy(f, w, now) ensures !InUse(w, d) {
      var n :| n in w.conns && Reapable(w.conns[n], now, f.ttl) && w.conns[n].conn == d;
      assert Pins(w, n) == |HandlesOn(w, n)|;
      DirectUse(w, n);
    }
  }

  /** Any later round then closes the connection the shell runs through. */
  lemma JumpHostIsReaped(f: Fleet, n: Node) returns (steps: seq<Step>, now: real)
    requires n in f.jump && f.jump[n] !in f.jump
    ensures QuietUntil(f, steps, now) && !RoundSpares(f, Run(f, EMPTY, steps), now)
  {
    var w;
    steps, w := JumpShell(f, n);
    now := Late(f);
    ClosedAreReapable(f, w, now);
    assert Reapable(w.conns[f.jump[n]], now, f.ttl) && w.conns[f.jump[n]].conn == 0;
    assert InUse(w, 0) by {
      assert CarrierPath(w.via, [1, 0]) && [1, 0][0] == w.handles[1].conn && [1, 0][1] == 0;
    }
  }

  /**
   * The reaper never closes a connection in use, over all quiet runs of a fleet, exactly when the
   * fleet has no usable jump: pins protect a node's own connection and not the one it runs through.
   */
  lemma SafeIffNoUsableJump(f: Fleet)
    ensures SafeFleet(f) <==> NoUsableJump(f)
  {
    if NoUsableJump(f) {
      forall steps, now | QuietUntil(f, steps, now) ensures RoundSpares(f, Run(f, EMPTY, steps), now) {
        DirectRunIsCarrying(f, EMPTY, steps);
        QuietRunIsCalm(f, EMPTY, steps);
        DirectRoundSpares(f, Run(f, EMPTY, steps), now);
      }
    } else {
      var n :| n in f.jump && f.jump[n] !in f.jump;
      var steps, now := JumpHostIsReaped(f, n);
    }
  }
}

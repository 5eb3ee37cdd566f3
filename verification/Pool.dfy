/** The connection table of ssh/pool.py. */
module Pool {
  import opened Text

  type Node = string

  /** An asyncssh connection object. */
  type Conn = nat

  datatype Entry = Entry(conn: Conn, lastUsed: real, pinned: nat)

  type Conns = map<Node, Entry>

  /** The fixed inventory: the jump host of each node that has one, and the idle limit of the reaper. */
  datatype Fleet = Fleet(jump: map<Node, Node>, ttl: real)

  /** An entry that is there and whose connection is not closed. */
  predicate Live(conns: Conns, dead: set<Conn>, node: Node) {
    node in conns && conns[node].conn !in dead
  }

  function Touched(conns: Conns, node: Node, now: real): Conns {
    if node in conns then conns[node := conns[node].(lastUsed := now)] else conns
  }

  function Pinned(conns: Conns, node: Node): Conns {
    if node in conns then conns[node := conns[node].(pinned := conns[node].pinned + 1)] else conns
  }

  function Unpinned(conns: Conns, node: Node): Conns {
    if node in conns && conns[node].pinned > 0
    then conns[node := conns[node].(pinned := conns[node].pinned - 1)] else conns
  }

  /** What the reaper takes: entries nobody pins that have been idle for longer than ttl. */
  predicate Reapable(e: Entry, now: real, ttl: real) {
    e.pinned == 0 && now - e.lastUsed > ttl
  }

  function Reaped(conns: Conns, now: real, ttl: real): Conns {
    map n | n in conns && !Reapable(conns[n], now, ttl) :: conns[n]
  }

  class SSHPool {
    var conns: Conns

    constructor ()
      ensures conns == map[]
    {
      conns := map[];
    }

    /** The look-up that acquire makes twice; a hit counts as use. */
    method Lookup(node: Node, dead: set<Conn>, now: real) returns (found: Option<Conn>)
      modifies this
      ensures found == if Live(old(conns), dead, node) then Some(old(conns)[node].conn) else None
      ensures conns == if Live(old(conns), dead, node) then Touched(old(conns), node, now) else old(conns)
    {
      if node in conns && conns[node].conn !in dead {
        conns := conns[node := conns[node].(lastUsed := now)];
        return Some(conns[node].conn);
      }
      return None;
    }

    method Drop(node: Node)
      modifies this
      ensures conns == old(conns) - {node}
    {
      conns := conns - {node};
    }

    method Install(node: Node, conn: Conn, now: real)
      modifies this
      ensures conns == old(conns)[node := Entry(conn, now, 0)]
    {
      conns := conns[node := Entry(conn, now, 0)];
    }

    method Pin(node: Node)
      modifies this
      ensures conns == Pinned(old(conns), node)
    {
      if node in conns {
        conns := conns[node := conns[node].(pinned := conns[node].pinned + 1)];
      }
    }

    method Unpin(node: Node)
      modifies this
      ensures conns == Unpinned(old(conns), node)
    {
      if node in conns && conns[node].pinned > 0 {
        conns := conns[node := conns[node].(pinned := conns[node].pinned - 1)];
      }
    }

    /** One round of the reaper, over a snapshot of the table; returns what it closed. */
    method Reap(now: real, ttl: real) returns (closed: set<Conn>)
      modifies this
      ensures conns == Reaped(old(conns), now, ttl)
      ensures closed == ConnsOf(old(conns), old(conns).Keys - conns.Keys)
    {
      var todo := conns.Keys;
      closed := {};
      ghost var taken := {};
      while todo != {}
        invariant todo <= old(conns).Keys && taken <= old(conns).Keys - todo
        invariant conns == old(conns) - taken
        invariant forall n :: n in old(conns) && n !in todo ==> (n in taken <==> Reapable(old(conns)[n], now, ttl))
        invariant closed == ConnsOf(old(conns), taken)
        decreases |todo|
      {
        var node :| node in todo;
        var e := conns[node];
        if e.pinned == 0 && now - e.lastUsed > ttl {
          ConnsOfOneMore(old(conns), taken, node);
          closed := closed + {e.conn};
          conns := conns - {node};
          taken := taken + {node};
        }
        todo := todo - {node};
      }
      assert old(conns).Keys - conns.Keys == taken;
    }
  }

  function ConnsOf(conns: Conns, nodes: set<Node>): set<Conn> {
    set n | n in nodes && n in conns :: conns[n].conn
  }

  lemma ConnsOfOneMore(conns: Conns, nodes: set<Node>, node: Node)
    requires node in conns
    ensures ConnsOf(conns, nodes + {node}) == ConnsOf(conns, nodes) + {conns[node].conn}
  {}
}

/** The tables of shells, logs and tunnels, which pin the connections they use. */
module PoolPins {
  import opened Pool

  /** An open shell, log or tunnel: its node, the connection it was given, and when it was opened or last used. */
  datatype Handle = Handle(node: Node, conn: Conn, stamp: real, closed: bool)

  /** a - b, but not below zero */
  function Minus(a: nat, b: nat): nat {
    if a > b then a - b else 0
  }

  /** The handles of a table that lead to a node. */
  function On<K>(table: map<K, Handle>, ids: set<K>, node: Node): set<K> {
    set id | id in ids && id in table && table[id].node == node
  }

  /** After k handles of each node were closed, one unpin each. */
  ghost predicate UnpinnedBy(before: Conns, after: Conns, table: map<string, Handle>, ids: set<string>) {
    && after.Keys == before.Keys
    && forall n :: n in before ==>
         after[n] == before[n].(pinned := Minus(before[n].pinned, |On(table, ids, n)|))
  }

  /** One of SessionManager, LogManager and TunnelManager: a table of handles on one shared pool. */
  class Manager {
    const pool: SSHPool
    var table: map<string, Handle>

    constructor (pool: SSHPool)
      ensures this.pool == pool && table == map[]
    {
      this.pool := pool;
      table := map[];
    }

    /** The end of open, after the last await: the handle is entered and its node pinned. */
    method Enter(id: string, handle: Handle)
      requires id !in table
      modifies this, pool
      ensures table == old(table)[id := handle]
      ensures pool.conns == Pinned(old(pool.conns), handle.node)
    {
      table := table[id := handle];
      pool.Pin(handle.node);
    }

    method Close(id: string)
      modifies this, pool
      ensures table == old(table) - {id}
      ensures pool.conns == if id in old(table) then Unpinned(old(pool.conns), old(table)[id].node)
                            else old(pool.conns)
    {
      if id in table {
        var node := table[id].node;
        table := table - {id};
        pool.Unpin(node);
      }
    }

    /** reap: closes what is closed already or older than ttl, over a snapshot of the table. */
    method Reap(now: real, ttl: real)
      modifies this, pool
      ensures table == map id | id in old(table) && !(old(table)[id].closed || now - old(table)[id].stamp > ttl)
                         :: old(table)[id]
      ensures UnpinnedBy(old(pool.conns), pool.conns, old(table), old(table).Keys - table.Keys)
    {
      var todo := table.Keys;
      ghost var gone := {};
      NothingUnpinned(pool.conns, table);
      while todo != {}
        invariant todo <= old(table).Keys && gone <= old(table).Keys - todo
        invariant table == old(table) - gone
        invariant forall id :: id in old(table) && id !in todo ==>
                    (id in gone <==> old(table)[id].closed || now - old(table)[id].stamp > ttl)
        invariant UnpinnedBy(old(pool.conns), pool.conns, old(table), gone)
        decreases |todo|
      {
        var id :| id in todo;
        if table[id].closed || now - table[id].stamp > ttl {
          ghost var before := pool.conns;
          Close(id);
          OneMoreUnpinned(old(pool.conns), before, old(table), gone, id);
          gone := gone + {id};
        }
        todo := todo - {id};
      }
      assert old(table).Keys - table.Keys == gone;
    }
  }

  lemma NothingUnpinned(conns: Conns, table: map<string, Handle>)
    ensures UnpinnedBy(conns, conns, table, {})
  {}

  lemma OneMoreOn<K>(table: map<K, Handle>, ids: set<K>, id: K, n: Node)
    requires id in table && id !in ids
    ensures |On(table, ids + {id}, n)| == |On(table, ids, n)| + if n == table[id].node then 1 else 0
  {
    assert On(table, ids + {id}, n) == On(table, ids, n) + if n == table[id].node then {id} else {};
  }

  lemma OneMoreUnpinned(before: Conns, mid: Conns, table: map<string, Handle>, ids: set<string>, id: string)
    requires UnpinnedBy(before, mid, table, ids) && id in table && id !in ids
    ensures UnpinnedBy(before, Unpinned(mid, table[id].node), table, ids + {id})
  {
    var after := Unpinned(mid, table[id].node);
    forall n | n in before
      ensures after[n] == before[n].(pinned := Minus(before[n].pinned, |On(table, ids + {id}, n)|))
    {
      OneMoreOn(table, ids, id, n);
    }
  }
}

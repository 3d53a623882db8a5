/** services/ws-worker/internal/handler/ws/hub.go: the registry of connected clients, as a class, and the
    history of calls that it refines. */
module HubRegistry {
  /** One call on the hub; C identifies a client instance. */
  datatype HubOp<C> = Reg(user: string, client: C) | Unreg(user: string, client: C) | Shut

  function Step<C(==)>(m: map<string, C>, op: HubOp<C>): map<string, C> {
    match op
    case Reg(u, c) => m[u := c]
    case Unreg(u, c) => if u in m && m[u] == c then m - {u} else m
    case Shut => map[]
  }

  /** The registry after a history of calls. */
  function Replay<C(==)>(ops: seq<HubOp<C>>): map<string, C> {
    if ops == [] then map[] else Step(Replay(ops[..|ops| - 1]), ops[|ops| - 1])
  }

  /** The call ends the standing of client c as the registered client of user u. */
  ghost predicate Displaces<C>(op: HubOp<C>, u: string, c: C) {
    op.Shut? || op == Unreg(u, c) || (op.Reg? && op.user == u)
  }

  /** c is the latest registration for u, and neither Unregister(c) nor Shutdown came later. */
  ghost predicate IsCurrent<C>(ops: seq<HubOp<C>>, u: string, c: C) {
    exists i :: 0 <= i < |ops| && ops[i] == Reg(u, c) && forall j :: i < j < |ops| ==> !Displaces(ops[j], u, c)
  }

  /** The registry refines its history: the entry of a user is c exactly when c is current. */
  lemma {:induction false} ReplayIffCurrent<C>(ops: seq<HubOp<C>>, u: string, c: C)
    ensures u in Replay(ops) && Replay(ops)[u] == c <==> IsCurrent(ops, u, c)
  {
    if ops != [] {
      var n := |ops| - 1;
      var before, op := ops[..n], ops[n];
      ReplayIffCurrent(before, u, c);
      if IsCurrent(ops, u, c) {
        var i :| 0 <= i < |ops| && ops[i] == Reg(u, c) && forall j :: i < j < |ops| ==> !Displaces(ops[j], u, c);
        if i < n {
          assert before[i] == Reg(u, c) && forall j :: i < j < n ==> before[j] == ops[j];
          assert IsCurrent(before, u, c);
          assert !Displaces(op, u, c);
        }
      }
      if u in Replay(ops) && Replay(ops)[u] == c && op != Reg(u, c) {
        assert IsCurrent(before, u, c) && !Displaces(op, u, c);
        var i :| 0 <= i < n && before[i] == Reg(u, c) && forall j :: i < j < n ==> !Displaces(before[j], u, c);
        assert ops[i] == Reg(u, c);
        forall j | i < j < |ops| ensures !Displaces(ops[j], u, c) {
          if j < n { assert before[j] == ops[j]; }
        }
      }
      if op == Reg(u, c) { assert ops[n] == Reg(u, c); }
    }
  }

  class Conn {
    var closed: bool

    constructor ()
      ensures !closed
    {
      closed := false;
    }

    method Close()
      modifies this
      ensures closed
    {
      closed := true;
    }
  }

  class Client {
    const userID: string
    const conn: Conn

    constructor (userID: string, conn: Conn)
      ensures this.userID == userID && this.conn == conn
    {
      this.userID, this.conn := userID, conn;
    }
  }

  class Hub {
    var clients: map<string, Client>
    ghost var log: seq<HubOp<Client>>

    ghost predicate Valid()
      reads this
    {
      clients == Replay(log) && forall u :: u in clients ==> clients[u].userID == u
    }

    constructor ()
      ensures Valid() && log == []
    {
      clients, log := map[], [];
    }

    method Register(c: Client)
      requires Valid()
      modifies this
      ensures Valid() && log == old(log) + [Reg(c.userID, c)]
      ensures clients == old(clients)[c.userID := c]
    {
      clients := clients[c.userID := c];
      log := log + [Reg(c.userID, c)];
      assert log[..|log| - 1] == old(log);
    }

    /** Only the entry of this very instance is removed, never that of a newer connection. */
    method Unregister(c: Client)
      requires Valid()
      modifies this
      ensures Valid() && log == old(log) + [Unreg(c.userID, c)]
      ensures clients == if c.userID in old(clients) && old(clients)[c.userID] == c
                         then old(clients) - {c.userID} else old(clients)
      ensures forall u :: u in clients ==> clients[u] != c
    {
      if c.userID in clients && clients[c.userID] == c {
        clients := clients - {c.userID};
      }
      log := log + [Unreg(c.userID, c)];
      assert log[..|log| - 1] == old(log);
    }

    method ActiveCount() returns (n: nat)
      requires Valid()
      ensures n == |set u | u in Replay(log)|
    {
      n := |clients|;
      assert clients.Keys == set u | u in Replay(log);
    }

    /** Closes the connection of every registered client and empties the registry; no other
        connection is touched. */
    method Shutdown()
      requires Valid()
      modifies this, set u | u in clients :: clients[u].conn
      ensures Valid() && clients == map[] && log == old(log) + [Shut]
      ensures forall u :: u in old(clients) ==> old(clients)[u].conn.closed
    {
      while clients != map[]
        invariant clients.Keys <= old(clients).Keys
        invariant forall u :: u in clients ==> clients[u] == old(clients)[u]
        invariant forall u :: u in old(clients) && u !in clients ==> old(clients)[u].conn.closed
        invariant log == old(log)
        decreases |clients|
      {
        var userID :| userID in clients;
        clients[userID].conn.Close();
        var rest := clients - {userID};
        assert rest.Keys == clients.Keys - {userID};
        clients := rest;
      }
      log := log + [Shut];
      assert log[..|log| - 1] == old(log);
    }
  }
}

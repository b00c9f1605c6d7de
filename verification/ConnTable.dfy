/** The connection table as an object (tcp/transport/conntable.go): two maps updated in
    place; each method is one critical section. */
module ConnTable {
  import opened SeqNum
  import opened Addresses
  import opened Tcb
  import opened Conn
  import StateMachine
  import Mux

  /** How a missing connection is made: by Dial, or by a listener for a SYN. */
  datatype Maker = Dialing(iss: u32) | Deriving

  class ConnTable {
    var conns: map<FourTuple, Connection>
    var listeners: map<Endpoint, Mux.Channel>

    /** Every entry's connection has exactly the entry's 4-tuple. */
    ghost predicate Valid()
      reads this
    {
      forall tp :: tp in conns ==> conns[tp].tuple == tp
    }

    constructor ()
      ensures Valid() && conns == map[] && listeners == map[]
    {
      conns, listeners := map[], map[];
    }

    /** ISS past everything the connection has sent, for its next incarnation. */
    method MaxSentSeq(c: Connection) returns (nxt: u32)
      ensures nxt == c.tcb.snd.nxt
    {
      nxt := c.tcb.snd.nxt;
    }

    /** Test-and-set: an occupant outside TIME-WAIT is returned untouched; otherwise a new
        connection takes the entry, with an ISS beyond the replaced incarnation's numbers
        when a listener derives it. */
    method InsertIfAbsent(tp: FourTuple, maker: Maker, env: Env) returns (c: Connection, created: bool)
      requires Valid()
      modifies this
      ensures Valid() && listeners == old(listeners)
      ensures created <==> (tp !in old(conns) || old(conns[tp].tcb.state) == TimeWait)
      ensures conns == if created then old(conns)[tp := c] else old(conns)
      ensures !created ==> c == old(conns[tp])
      ensures created ==> fresh(c) && c.tuple == tp
      ensures created && maker.Dialing? ==> c.tcb == StateMachine.ActiveOpen(Mux.BlankTcb(0), maker.iss, env)
      ensures created && maker.Deriving? ==>
        c.tcb == StateMachine.PassiveOpen(Mux.BlankTcb(
          if tp in old(conns) then Add(old(conns[tp].tcb.snd.nxt), Mux.ISS_GAP) else 0))
    {
      var iss := 0;
      if tp in conns {
        var existing := conns[tp];
        if existing.tcb.state != TimeWait {
          return existing, false;
        }
        var sent := MaxSentSeq(existing);
        iss := Add(sent, Mux.ISS_GAP);
      }
      match maker {
        case Dialing(wanted) =>
          c := new Connection(tp, 0, 0, false, TIME_WAIT_DURATION, 0);
          c.ActiveOpen(wanted, env);
        case Deriving =>
          c := new Connection(tp, iss, 0, false, TIME_WAIT_DURATION, 0);
          c.PassiveOpen();
      }
      conns := conns[tp := c];
      created := true;
    }

    method Lookup(tp: FourTuple) returns (c: Connection?)
      ensures c == if tp in conns then conns[tp] else null
    {
      c := if tp in conns then conns[tp] else null;
    }

    /** Remove the entry only while it still leads to want. */
    method RemoveIf(tp: FourTuple, want: Connection)
      requires Valid()
      modifies this
      ensures Valid() && listeners == old(listeners)
      ensures conns == if tp in old(conns) && old(conns)[tp] == want then old(conns) - {tp} else old(conns)
    {
      if tp in conns && conns[tp] == want {
        conns := conns - {tp};
      }
    }

    method AddListener(local: Endpoint, ch: Mux.Channel)
      modifies this
      ensures conns == old(conns) && listeners == old(listeners)[local := ch]
    {
      listeners := listeners[local := ch];
    }

    method RemoveListener(local: Endpoint)
      modifies this
      ensures conns == old(conns) && listeners == old(listeners) - {local}
    {
      listeners := listeners - {local};
    }

    method LookupListener(local: Endpoint) returns (found: bool, ch: Mux.Channel)
      ensures found <==> local in listeners
      ensures found ==> ch == listeners[local]
    {
      found := local in listeners;
      ch := if found then listeners[local] else 0;
    }
  }
}

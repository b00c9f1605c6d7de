/** The connection multiplexer (tcp/transport/listener.go, conntable.go): the receive
    thread, the tick thread, any number of Dial callers and the users of connections,
    interleaved at every lock.  One action is one critical section (or one connection step
    under its own lock); the test-and-set holds the table lock across two of them, because
    the connection it inspects may still move in between. */
module Mux {
  import opened SeqNum
  import opened Addresses
  import opened Segments
  import opened Tcb
  import opened StateMachine
  import opened SenderSteps
  import Lifecycle

  const ISS_GAP: u32 := 64000
  const ACCEPT_BACKLOG: nat := 16

  /** Identity of a connection object, and of an accept channel. */
  type Ref = nat
  type Channel = nat

  datatype DeriveTo = Nowhere | To(ch: Channel)
  datatype Obj = Obj(tuple: FourTuple, t: Tcb, deriveTo: DeriveTo)

  datatype Occupant = Nobody | Somebody(c: Ref)

  /** Where the receive thread is. */
  datatype Rx =
    | RxIdle
    | RxLookup(tp: FourTuple, s: Segment)
    | RxState(tp: FourTuple, s: Segment, c: Ref)
    | RxReap(tp: FourTuple, s: Segment, c: Ref)
    | RxUntrack(tp: FourTuple, s: Segment, c: Ref)
    | RxListen(tp: FourTuple, s: Segment)
    | RxInsert(tp: FourTuple, s: Segment, ch: Channel)
    | RxReplace(tp: FourTuple, s: Segment, ch: Channel, was: Occupant) // holds the table lock
    | RxDerive(s: Segment, ch: Channel, c: Ref)
    | RxTrack(s: Segment, c: Ref)
    | RxSegment(s: Segment, c: Ref)
    | RxDeliver(c: Ref)

  datatype Ticker =
    | TkIdle
    | TkTicking(todo: set<Ref>)
    | TkReaping(todo: set<Ref>)
    | TkRemove(c: Ref, todo: set<Ref>)
    | TkUntrack(c: Ref, todo: set<Ref>)

  datatype Dialer =
    | DlInsert(tp: FourTuple, iss: u32)
    | DlReplace(tp: FourTuple, iss: u32, was: Occupant) // holds the table lock
    | DlTrack(c: Ref)
    | DlDone(c: Ref)

  datatype Lock = Free | ByRx | ByDial(d: nat)

  /** An accept channel: the endpoint listened on, and what waits in it. */
  datatype AcceptQueue = AcceptQueue(local: Endpoint, waiting: seq<Ref>)

  /** One connection passing through one accept channel. */
  datatype Handover = Handover(ch: Channel, c: Ref)

  /** The accept channels, every send on them (handed) and everything Accept has returned
      (accepted), in order. */
  datatype Desk = Desk(queues: map<Channel, AcceptQueue>, handed: seq<Handover>, accepted: seq<Handover>)

  datatype Stack = Stack(
    objs: map<Ref, Obj>, // every connection object created so far
    table: map<FourTuple, Ref>, listeners: map<Endpoint, Channel>,
    conns: set<Ref>, delivered: set<Ref>,
    desk: Desk,
    rx: Rx, tick: Ticker, dials: map<nat, Dialer>, tableLock: Lock)

  /** Neither TIME-WAIT nor CLOSED. */
  predicate Live(s: State) {
    s != TimeWait && s != Closed
  }

  // ----- actions -----

  datatype Call = Sends(data: seq<u8>) | Receives(max: nat) | Closes

  datatype Action =
    | Packet(tp: FourTuple, s: Segment) // a parsed, checksummed segment off the link
    | RxAct(spare: Ref, env: Env)
    | TickAct(c: Ref, env: Env)
    | TickNext
    | DialStart(d: nat, tp: FourTuple, iss: u32)
    | DialAct(d: nat, spare: Ref, env: Env)
    | UserCall(c: Ref, call: Call, env: Env)
    | ListenOn(key: Endpoint, ch: Channel)
    | Unlisten(key: Endpoint)
    | Accept(ch: Channel)

  predicate CanCall(t: Tcb, call: Call) {
    call.Sends? ==> |t.snd.buf| + |call.data| <= SEND_LIMIT
  }

  function Called(t: Tcb, call: Call, env: Env): Tcb
    requires CanCall(t, call)
  {
    match call
    case Sends(data) => Send(t, data, env)
    case Receives(max) => Recv(t, max, env)
    case Closes => Close(t, env)
  }

  function SetConn(s: Stack, c: Ref, t: Tcb): Stack
    requires c in s.objs
  {
    s.(objs := s.objs[c := s.objs[c].(t := t)])
  }

  /** removeIf: only if c still occupies the entry. */
  function RemoveIf(table: map<FourTuple, Ref>, tp: FourTuple, c: Ref): map<FourTuple, Ref> {
    if tp in table && table[tp] == c then table - {tp} else table
  }

  function OccupantOf(s: Stack, tp: FourTuple): Occupant {
    if tp in s.table then Somebody(s.table[tp]) else Nobody
  }

  /** The occupant that stops an insertion: anything but TIME-WAIT. */
  predicate Blocks(s: Stack, tp: FourTuple) {
    tp in s.table && s.table[tp] in s.objs && s.objs[s.table[tp]].t.state != TimeWait
  }

  function BlankTcb(iss: u32): Tcb {
    NewTcb(iss, 0, false, TIME_WAIT_DURATION, 0)
  }

  /** ISS of a derived connection: past everything the replaced incarnation sent. */
  function DerivedIss(s: Stack, was: Occupant): u32 {
    match was
    case Nobody => 0
    case Somebody(c) => if c in s.objs then Add(s.objs[c].t.snd.nxt, ISS_GAP) else 0
  }

  /** A new connection object enters the table. */
  function Create(s: Stack, spare: Ref, tp: FourTuple, t: Tcb): Stack {
    s.(objs := s.objs[spare := Obj(tp, t, Nowhere)], table := s.table[tp := spare], tableLock := Free)
  }

  predicate CanRx(s: Stack, spare: Ref) {
    match s.rx
    case RxIdle => false
    case RxLookup(_, _) => s.tableLock == Free
    case RxReap(_, _, _) => s.tableLock == Free
    case RxListen(_, _) => s.tableLock == Free
    case RxInsert(_, _, _) => s.tableLock == Free
    case RxReplace(_, _, _, _) => s.tableLock == ByRx && spare !in s.objs
    case RxState(_, _, c) => c in s.objs
    case RxDerive(_, _, c) => c in s.objs
    case RxSegment(_, c) => c in s.objs
    case RxDeliver(c) => c in s.objs
    case _ => true
  }

  /** A send on an accept channel, and a receive from it. */
  function HandOver(k: Desk, ch: Channel, c: Ref): Desk
    requires ch in k.queues
  {
    var q := k.queues[ch];
    k.(queues := k.queues[ch := q.(waiting := q.waiting + [c])], handed := k.handed + [Handover(ch, c)])
  }

  function TakeNext(k: Desk, ch: Channel): Desk
    requires ch in k.queues && k.queues[ch].waiting != []
  {
    var q := k.queues[ch];
    k.(queues := k.queues[ch := q.(waiting := q.waiting[1..])], accepted := k.accepted + [Handover(ch, q.waiting[0])])
  }

  /** maybeDeliver: a derived connection that reached ESTABLISHED goes to its accept channel
      once; a full channel is retried on a later segment. */
  function MaybeDeliver(s: Stack, c: Ref): Stack
    requires c in s.objs
  {
    var o := s.objs[c];
    if o.deriveTo == Nowhere || c in s.delivered || !o.t.reachedEstablished then s
    else
      var ch := o.deriveTo.ch;
      if ch !in s.desk.queues || |s.desk.queues[ch].waiting| >= ACCEPT_BACKLOG then s
      else s.(desk := HandOver(s.desk, ch, c), delivered := s.delivered + {c})
  }

  /** What a listener does with a segment for no connection. */
  function AfterListener(s: Stack, tp: FourTuple, seg: Segment): Rx {
    if tp.local !in s.listeners then RxIdle
    else if seg.flags.rst || seg.flags.ack || !seg.flags.syn || !ValidUnicastSrc(tp.remote.ip) then RxIdle
    else RxInsert(tp, seg, s.listeners[tp.local])
  }

  function RxStep(s: Stack, spare: Ref, env: Env): Stack
    requires CanRx(s, spare)
  {
    match s.rx
    case RxLookup(tp, seg) =>
      s.(rx := if tp in s.table then RxState(tp, seg, s.table[tp]) else RxListen(tp, seg))
    case RxState(tp, seg, c) =>
      var st := s.objs[c].t.state;
      s.(rx := if st == Closed then RxReap(tp, seg, c)
               else if seg.flags.syn && st == TimeWait then RxListen(tp, seg)
               else RxSegment(seg, c))
    case RxReap(tp, seg, c) => s.(table := RemoveIf(s.table, tp, c), rx := RxUntrack(tp, seg, c))
    case RxUntrack(tp, seg, c) => s.(conns := s.conns - {c}, rx := RxListen(tp, seg))
    case RxListen(tp, seg) => s.(rx := AfterListener(s, tp, seg))
    case RxInsert(tp, seg, ch) =>
      if Blocks(s, tp) then s.(rx := RxSegment(seg, s.table[tp]))
      else s.(rx := RxReplace(tp, seg, ch, OccupantOf(s, tp)), tableLock := ByRx)
    case RxReplace(tp, seg, ch, was) =>
      Create(s, spare, tp, PassiveOpen(BlankTcb(DerivedIss(s, was)))).(rx := RxDerive(seg, ch, spare))
    case RxDerive(seg, ch, c) => s.(objs := s.objs[c := s.objs[c].(deriveTo := To(ch))], rx := RxTrack(seg, c))
    case RxTrack(seg, c) => s.(conns := s.conns + {c}, rx := RxSegment(seg, c))
    case RxSegment(seg, c) => SetConn(s, c, OnSegment(s.objs[c].t, seg, env)).(rx := RxDeliver(c))
    case RxDeliver(c) => MaybeDeliver(s, c).(rx := RxIdle)
  }

  predicate CanTick(s: Stack, c: Ref) {
    match s.tick
    case TkTicking(todo) => c in todo && c in s.objs
    case TkReaping(todo) => c in todo && c in s.objs
    case TkRemove(r, _) => c == r && r in s.objs && s.tableLock == Free
    case TkUntrack(r, _) => c == r
    case TkIdle => false
  }

  /** One connection of the tick loop: Tick, or the reaping of a CLOSED one. */
  function TickStep(s: Stack, c: Ref, env: Env): Stack
    requires CanTick(s, c)
  {
    match s.tick
    case TkTicking(todo) => SetConn(s, c, Tick(s.objs[c].t, env)).(tick := TkTicking(todo - {c}))
    case TkReaping(todo) =>
      s.(tick := if s.objs[c].t.state == Closed then TkRemove(c, todo - {c}) else TkReaping(todo - {c}))
    case TkRemove(r, todo) => s.(table := RemoveIf(s.table, s.objs[r].tuple, r), tick := TkUntrack(r, todo))
    case TkUntrack(r, todo) => s.(conns := s.conns - {r}, tick := TkReaping(todo))
  }

  /** The two snapshots of the tick loop. */
  function TickSnapshot(s: Stack): Stack {
    match s.tick
    case TkIdle => s.(tick := TkTicking(s.conns))
    case TkTicking(todo) => if todo == {} then s.(tick := TkReaping(s.conns)) else s
    case TkReaping(todo) => if todo == {} then s.(tick := TkIdle) else s
    case _ => s
  }

  predicate CanDial(s: Stack, d: nat, spare: Ref) {
    d in s.dials &&
    match s.dials[d]
    case DlInsert(_, _) => s.tableLock == Free
    case DlReplace(_, _, _) => s.tableLock == ByDial(d) && spare !in s.objs
    case DlTrack(_) => true
    case DlDone(_) => false
  }

  function DialStep(s: Stack, d: nat, spare: Ref, env: Env): Stack
    requires CanDial(s, d, spare)
  {
    match s.dials[d]
    case DlInsert(tp, iss) =>
      if Blocks(s, tp) then s.(dials := s.dials[d := DlDone(s.table[tp])])
      else s.(dials := s.dials[d := DlReplace(tp, iss, OccupantOf(s, tp))], tableLock := ByDial(d))
    case DlReplace(tp, iss, was) =>
      Create(s, spare, tp, ActiveOpen(BlankTcb(0), iss, env)).(dials := s.dials[d := DlTrack(spare)])
    case DlTrack(c) => s.(conns := s.conns + {c}, dials := s.dials[d := DlDone(c)])
  }

  predicate CanAct(s: Stack, a: Action) {
    match a
    case Packet(_, _) => s.rx == RxIdle
    case RxAct(spare, _) => CanRx(s, spare)
    case TickAct(c, _) => CanTick(s, c)
    case TickNext => true
    case DialStart(d, _, _) => d !in s.dials
    case DialAct(d, spare, _) => CanDial(s, d, spare)
    case UserCall(c, call, _) => c in s.objs && CanCall(s.objs[c].t, call)
    case ListenOn(_, ch) => s.tableLock == Free && ch !in s.desk.queues
    case Unlisten(_) => s.tableLock == Free
    case Accept(ch) => ch in s.desk.queues && s.desk.queues[ch].waiting != []
  }

  function Act(s: Stack, a: Action): Stack
    requires CanAct(s, a)
  {
    match a
    case Packet(tp, seg) => s.(rx := RxLookup(tp, seg))
    case RxAct(spare, env) => RxStep(s, spare, env)
    case TickAct(c, env) => TickStep(s, c, env)
    case TickNext => TickSnapshot(s)
    case DialStart(d, tp, iss) => s.(dials := s.dials[d := DlInsert(tp, iss)])
    case DialAct(d, spare, env) => DialStep(s, d, spare, env)
    case UserCall(c, call, env) => SetConn(s, c, Called(s.objs[c].t, call, env))
    case ListenOn(key, ch) =>
      s.(listeners := s.listeners[key := ch], desk := s.desk.(queues := s.desk.queues[ch := AcceptQueue(key, [])]))
    case Unlisten(key) => s.(listeners := s.listeners - {key})
    case Accept(ch) => s.(desk := TakeNext(s.desk, ch))
  }

  // ----- the invariant -----

  predicate Known(s: Stack, c: Ref, tp: FourTuple) {
    c in s.objs && s.objs[c].tuple == tp
  }

  predicate IsClosed(s: Stack, c: Ref) {
    c in s.objs && s.objs[c].t.state == Closed
  }

  /** An entry's connection has exactly that 4-tuple. */
  ghost predicate TableOk(s: Stack) {
    forall tp :: tp in s.table ==> Known(s, s.table[tp], tp)
  }

  predicate InTable(s: Stack, c: Ref, tp: FourTuple) {
    tp in s.table && s.table[tp] == c
  }

  /** Every live connection is the one its 4-tuple leads to: there are never two. */
  ghost predicate LiveOk(s: Stack) {
    forall c :: c in s.objs && Live(s.objs[c].t.state) ==> InTable(s, c, s.objs[c].tuple)
  }

  /** What the holder of the table lock has seen is still there, and dead. */
  predicate WasOk(s: Stack, tp: FourTuple, was: Occupant) {
    match was
    case Nobody => tp !in s.table
    case Somebody(c) => Known(s, c, tp) && InTable(s, c, tp) && !Live(s.objs[c].t.state)
  }

  predicate RxOk(s: Stack) {
    && (s.tableLock == ByRx <==> s.rx.RxReplace?)
    && match s.rx
       case RxState(tp, _, c) => Known(s, c, tp)
       case RxReap(tp, _, c) => Known(s, c, tp) && IsClosed(s, c)
       case RxUntrack(tp, _, c) => Known(s, c, tp) && IsClosed(s, c)
       case RxReplace(tp, _, _, was) => WasOk(s, tp, was)
       case RxDerive(_, _, c) => c in s.objs && s.objs[c].deriveTo == Nowhere
       case RxTrack(_, c) => c in s.objs
       case RxSegment(_, c) => c in s.objs
       case RxDeliver(c) => c in s.objs
       case _ => true
  }

  predicate TickOk(s: Stack) {
    match s.tick
    case TkIdle => true
    case TkTicking(todo) => todo <= s.objs.Keys
    case TkReaping(todo) => todo <= s.objs.Keys
    case TkRemove(c, todo) => todo <= s.objs.Keys && IsClosed(s, c)
    case TkUntrack(c, todo) => todo <= s.objs.Keys && IsClosed(s, c)
  }

  predicate DialerOk(s: Stack, d: nat, pc: Dialer) {
    && (pc.DlReplace? ==> s.tableLock == ByDial(d) && WasOk(s, pc.tp, pc.was))
    && (pc.DlTrack? || pc.DlDone? ==> pc.c in s.objs)
  }

  ghost predicate DialsOk(s: Stack) {
    forall d :: d in s.dials ==> DialerOk(s, d, s.dials[d])
  }

  /** The connection was ESTABLISHED and goes to the channel it was derived for. */
  predicate Delivered(s: Stack, h: Handover) {
    && h.c in s.objs && h.c in s.delivered
    && s.objs[h.c].t.reachedEstablished && s.objs[h.c].deriveTo == To(h.ch)
  }

  predicate OncePerConnection(log: seq<Handover>) {
    forall i, j :: 0 <= i < j < |log| ==> log[i].c != log[j].c
  }

  /** Handed over at most once, to its own channel, and only after ESTABLISHED. */
  ghost predicate HandedOk(s: Stack) {
    && (forall h :: h in s.desk.handed ==> Delivered(s, h))
    && OncePerConnection(s.desk.handed)
  }

  ghost predicate MuxOk(s: Stack) {
    && TableOk(s) && LiveOk(s) && RxOk(s) && TickOk(s) && DialsOk(s) && HandedOk(s)
    && s.conns <= s.objs.Keys
  }

  // ----- one connection moves -----

  /** What any step of a connection keeps: once dead it stays dead, once CLOSED it stays
      CLOSED, and having been ESTABLISHED is not forgotten. */
  predicate Ages(t: Tcb, t': Tcb) {
    && (!Live(t.state) ==> !Live(t'.state))
    && (t.state == Closed ==> t'.state == Closed)
    && (t.reachedEstablished ==> t'.reachedEstablished)
  }

  lemma {:induction false} SegmentAges(t: Tcb, s: Segment, env: Env)
    ensures Ages(t, OnSegment(t, s, env))
  {
    Lifecycle.SegmentFollows(t, s, env);
    Lifecycle.SegmentRemembers(t, s, env);
  }

  lemma {:induction false} TickAges(t: Tcb, env: Env)
    ensures Ages(t, Tick(t, env))
  {
    Lifecycle.TickState(t, env);
    Lifecycle.TickRemembers(t, env);
  }

  lemma {:induction false} CallAges(t: Tcb, call: Call, env: Env)
    requires CanCall(t, call)
    ensures Ages(t, Called(t, call, env))
  {
    match call
    case Sends(data) => Lifecycle.SendState(t, data, env); Lifecycle.SendRemembers(t, data, env);
    case Receives(max) => Lifecycle.RecvState(t, max, env); Lifecycle.CallsRemember(t, max, env);
    case Closes => Lifecycle.CloseState(t, env); Lifecycle.CallsRemember(t, 0, env);
  }

  lemma {:induction false} MoveKeeps(s: Stack, c: Ref, t': Tcb)
    requires MuxOk(s) && c in s.objs && Ages(s.objs[c].t, t')
    ensures MuxOk(SetConn(s, c, t'))
  {
    MoveTable(s, c, t');
    MoveThreads(s, c, t');
    MoveHanded(s, c, t');
  }

  lemma {:induction false} MoveTable(s: Stack, c: Ref, t': Tcb)
    requires TableOk(s) && LiveOk(s) && c in s.objs && Ages(s.objs[c].t, t')
    ensures TableOk(SetConn(s, c, t')) && LiveOk(SetConn(s, c, t'))
  {
    var s' := SetConn(s, c, t');
    forall tp | tp in s'.table ensures Known(s', s'.table[tp], tp) {
      assert Known(s, s.table[tp], tp);
    }
  }

  lemma {:induction false} MoveThreads(s: Stack, c: Ref, t': Tcb)
    requires RxOk(s) && TickOk(s) && DialsOk(s) && c in s.objs && Ages(s.objs[c].t, t')
    ensures RxOk(SetConn(s, c, t')) && TickOk(SetConn(s, c, t')) && DialsOk(SetConn(s, c, t'))
  {
    var s' := SetConn(s, c, t');
    forall d | d in s'.dials ensures DialerOk(s', d, s'.dials[d]) {
      assert DialerOk(s, d, s.dials[d]);
    }
  }

  lemma {:induction false} MoveHanded(s: Stack, c: Ref, t': Tcb)
    requires HandedOk(s) && c in s.objs && Ages(s.objs[c].t, t')
    ensures HandedOk(SetConn(s, c, t'))
  {
    var s' := SetConn(s, c, t');
    forall h | h in s'.desk.handed ensures Delivered(s', h) {
      assert Delivered(s, h);
    }
  }

  // ----- entries come and go -----

  lemma {:induction false} RemoveKeeps(s: Stack, tp: FourTuple, c: Ref)
    requires MuxOk(s) && IsClosed(s, c) && s.tableLock == Free
    ensures MuxOk(s.(table := RemoveIf(s.table, tp, c)))
  {
  }

  /** Creating under the lock keeps everything, whichever thread does it. */
  lemma {:induction false} CreateKeeps(s: Stack, spare: Ref, tp: FourTuple, was: Occupant, t: Tcb)
    requires TableOk(s) && LiveOk(s) && TickOk(s) && HandedOk(s) && s.conns <= s.objs.Keys
    requires spare !in s.objs && WasOk(s, tp, was)
    ensures var s' := Create(s, spare, tp, t);
      TableOk(s') && LiveOk(s') && TickOk(s') && HandedOk(s') && s'.conns <= s'.objs.Keys
  {
  }

  // ----- the receive thread -----

  lemma {:induction false} RxGoesOn(s: Stack, next: Rx)
    requires MuxOk(s) && RxOk(s.(rx := next))
    ensures MuxOk(s.(rx := next))
  {
  }

  lemma {:induction false} RxLocks(s: Stack, next: Rx)
    requires MuxOk(s) && s.tableLock == Free && next.RxReplace? && WasOk(s, next.tp, next.was)
    ensures MuxOk(s.(rx := next, tableLock := ByRx))
  {
    assert forall d :: d in s.dials ==> DialerOk(s, d, s.dials[d]);
  }

  lemma {:induction false} RxInsertKeeps(s: Stack, spare: Ref, env: Env)
    requires MuxOk(s) && s.rx.RxInsert? && CanRx(s, spare)
    ensures MuxOk(RxStep(s, spare, env))
  {
    var tp := s.rx.tp;
    assert tp in s.table ==> Known(s, s.table[tp], tp);
    if Blocks(s, tp) { RxGoesOn(s, RxStep(s, spare, env).rx); }
    else { RxLocks(s, RxStep(s, spare, env).rx); }
  }

  lemma {:induction false} RxCreates(s: Stack, spare: Ref, env: Env)
    requires MuxOk(s) && s.rx.RxReplace? && CanRx(s, spare)
    ensures MuxOk(RxStep(s, spare, env))
  {
    var t := PassiveOpen(BlankTcb(DerivedIss(s, s.rx.was)));
    CreateKeeps(s, spare, s.rx.tp, s.rx.was, t);
    assert forall d :: d in s.dials ==> DialerOk(s, d, s.dials[d]);
  }

  lemma {:induction false} RxReaps(s: Stack, spare: Ref, env: Env)
    requires MuxOk(s) && s.rx.RxReap? && CanRx(s, spare)
    ensures MuxOk(RxStep(s, spare, env))
  {
    RemoveKeeps(s, s.rx.tp, s.rx.c);
  }

  lemma {:induction false} RxMoves(s: Stack, spare: Ref, env: Env)
    requires MuxOk(s) && s.rx.RxSegment? && CanRx(s, spare)
    ensures MuxOk(RxStep(s, spare, env))
  {
    SegmentAges(s.objs[s.rx.c].t, s.rx.s, env);
    MoveKeeps(s, s.rx.c, OnSegment(s.objs[s.rx.c].t, s.rx.s, env));
  }

  lemma {:induction false} DeliverKeeps(s: Stack, c: Ref)
    requires MuxOk(s) && c in s.objs
    ensures MuxOk(MaybeDeliver(s, c))
  {
    var log := s.desk.handed;
    assert forall i :: 0 <= i < |log| ==> log[i] in log && Delivered(s, log[i]);
  }

  lemma {:induction false} RxKeeps(s: Stack, spare: Ref, env: Env)
    requires MuxOk(s) && CanRx(s, spare)
    ensures MuxOk(RxStep(s, spare, env))
  {
    match s.rx
    case RxInsert(_, _, _) => RxInsertKeeps(s, spare, env);
    case RxReplace(_, _, _, _) => RxCreates(s, spare, env);
    case RxReap(_, _, _) => RxReaps(s, spare, env);
    case RxSegment(_, _) => RxMoves(s, spare, env);
    case RxDeliver(c) => DeliverKeeps(s, c);
    case RxLookup(_, _) => RxLooks(s, spare, env);
    case RxState(_, _, _) => RxLooks(s, spare, env);
    case RxListen(_, _) => RxLooks(s, spare, env);
    case RxDerive(_, _, _) => RxDerives(s, spare, env);
    case _ => RxTracks(s, spare, env);
  }

  /** The receive-thread steps that only look. */
  lemma {:induction false} RxLooks(s: Stack, spare: Ref, env: Env)
    requires MuxOk(s) && CanRx(s, spare) && (s.rx.RxLookup? || s.rx.RxState? || s.rx.RxListen?)
    ensures MuxOk(RxStep(s, spare, env))
  {
    if s.rx.RxLookup? { assert s.rx.tp in s.table ==> Known(s, s.table[s.rx.tp], s.rx.tp); }
    RxGoesOn(s, RxStep(s, spare, env).rx);
  }

  function Derived(s: Stack, seg: Segment, ch: Channel, c: Ref): Stack
    requires c in s.objs
  {
    s.(objs := s.objs[c := s.objs[c].(deriveTo := To(ch))], rx := RxTrack(seg, c))
  }

  lemma {:induction false} DeriveTable(s: Stack, seg: Segment, ch: Channel, c: Ref)
    requires TableOk(s) && LiveOk(s) && c in s.objs
    ensures TableOk(Derived(s, seg, ch, c)) && LiveOk(Derived(s, seg, ch, c))
  {
    var s' := Derived(s, seg, ch, c);
    forall tp | tp in s'.table ensures Known(s', s'.table[tp], tp) {
      assert Known(s, s.table[tp], tp);
    }
  }

  lemma {:induction false} DeriveThreads(s: Stack, seg: Segment, ch: Channel, c: Ref)
    requires TickOk(s) && DialsOk(s) && c in s.objs
    ensures TickOk(Derived(s, seg, ch, c)) && DialsOk(Derived(s, seg, ch, c))
  {
    var s' := Derived(s, seg, ch, c);
    forall d | d in s'.dials ensures DialerOk(s', d, s'.dials[d]) {
      assert DialerOk(s, d, s.dials[d]);
    }
  }

  lemma {:induction false} DeriveHanded(s: Stack, seg: Segment, ch: Channel, c: Ref)
    requires HandedOk(s) && c in s.objs && s.objs[c].deriveTo == Nowhere
    ensures HandedOk(Derived(s, seg, ch, c))
  {
    var s' := Derived(s, seg, ch, c);
    forall h | h in s'.desk.handed ensures Delivered(s', h) {
      assert Delivered(s, h);
    }
  }

  lemma {:induction false} RxDerives(s: Stack, spare: Ref, env: Env)
    requires MuxOk(s) && CanRx(s, spare) && s.rx.RxDerive?
    ensures MuxOk(RxStep(s, spare, env))
  {
    DeriveTable(s, s.rx.s, s.rx.ch, s.rx.c);
    DeriveThreads(s, s.rx.s, s.rx.ch, s.rx.c);
    DeriveHanded(s, s.rx.s, s.rx.ch, s.rx.c);
  }

  lemma {:induction false} RxTracks(s: Stack, spare: Ref, env: Env)
    requires MuxOk(s) && CanRx(s, spare) && (s.rx.RxUntrack? || s.rx.RxTrack?)
    ensures MuxOk(RxStep(s, spare, env))
  {
    var s' := RxStep(s, spare, env);
    RxGoesOn(s, s'.rx);
    assert s' == s.(rx := s'.rx).(conns := s'.conns);
  }

  // ----- the tick thread, dialers, users -----

  lemma {:induction false} TickerMoves(s: Stack, next: Ticker)
    requires MuxOk(s) && TickOk(s.(tick := next))
    ensures MuxOk(s.(tick := next))
  {
  }

  lemma {:induction false} TickOne(s: Stack, c: Ref, env: Env)
    requires MuxOk(s) && CanTick(s, c) && s.tick.TkTicking?
    ensures MuxOk(TickStep(s, c, env))
  {
    TickAges(s.objs[c].t, env);
    var s1 := SetConn(s, c, Tick(s.objs[c].t, env));
    MoveKeeps(s, c, Tick(s.objs[c].t, env));
    TickerMoves(s1, TkTicking(s.tick.todo - {c}));
  }

  lemma {:induction false} TickRemoves(s: Stack, c: Ref, env: Env)
    requires MuxOk(s) && CanTick(s, c) && s.tick.TkRemove?
    ensures MuxOk(TickStep(s, c, env))
  {
    RemoveKeeps(s, s.objs[c].tuple, c);
    TickerMoves(s.(table := RemoveIf(s.table, s.objs[c].tuple, c)), TkUntrack(c, s.tick.todo));
  }

  lemma {:induction false} TickUntracks(s: Stack, c: Ref, env: Env)
    requires MuxOk(s) && CanTick(s, c) && s.tick.TkUntrack?
    ensures MuxOk(TickStep(s, c, env))
  {
  }

  lemma {:induction false} TickKeeps(s: Stack, c: Ref, env: Env)
    requires MuxOk(s) && CanTick(s, c)
    ensures MuxOk(TickStep(s, c, env))
  {
    match s.tick
    case TkTicking(_) => TickOne(s, c, env);
    case TkReaping(_) => TickerMoves(s, TickStep(s, c, env).tick);
    case TkRemove(_, _) => TickRemoves(s, c, env);
    case TkUntrack(_, _) => TickUntracks(s, c, env);
    case TkIdle => assert false;
  }

  lemma {:induction false} SnapshotKeeps(s: Stack)
    requires MuxOk(s)
    ensures MuxOk(TickSnapshot(s))
  {
    TickerMoves(s, TickSnapshot(s).tick);
    assert TickSnapshot(s) == s.(tick := TickSnapshot(s).tick);
  }

  lemma {:induction false} DialCreates(s: Stack, d: nat, spare: Ref, env: Env)
    requires MuxOk(s) && CanDial(s, d, spare) && s.dials[d].DlReplace?
    ensures MuxOk(DialStep(s, d, spare, env))
  {
    var pc := s.dials[d];
    CreateKeeps(s, spare, pc.tp, pc.was, ActiveOpen(BlankTcb(0), pc.iss, env));
    CreateDials(s, d, spare, env);
  }

  lemma {:induction false} CreateDials(s: Stack, d: nat, spare: Ref, env: Env)
    requires DialsOk(s) && CanDial(s, d, spare) && s.dials[d].DlReplace?
    ensures DialsOk(DialStep(s, d, spare, env))
  {
    var s' := DialStep(s, d, spare, env);
    assert DialerOk(s, d, s.dials[d]);
    forall e | e in s'.dials ensures DialerOk(s', e, s'.dials[e]) {
      if e != d { assert DialerOk(s, e, s.dials[e]); }
    }
  }

  lemma {:induction false} DialerGoesOn(s: Stack, d: nat, pc: Dialer)
    requires MuxOk(s) && DialerOk(s, d, pc)
    ensures MuxOk(s.(dials := s.dials[d := pc]))
  {
  }

  lemma {:induction false} DialLocks(s: Stack, d: nat)
    requires MuxOk(s) && s.tableLock == Free
    ensures MuxOk(s.(tableLock := ByDial(d)))
  {
    assert forall e :: e in s.dials ==> DialerOk(s, e, s.dials[e]);
  }

  lemma {:induction false} DialInserts(s: Stack, d: nat, spare: Ref, env: Env)
    requires MuxOk(s) && CanDial(s, d, spare) && s.dials[d].DlInsert?
    ensures MuxOk(DialStep(s, d, spare, env))
  {
    var tp := s.dials[d].tp;
    assert tp in s.table ==> Known(s, s.table[tp], tp);
    if Blocks(s, tp) {
      DialerGoesOn(s, d, DlDone(s.table[tp]));
    } else {
      DialLocks(s, d);
      DialerGoesOn(s.(tableLock := ByDial(d)), d, DlReplace(tp, s.dials[d].iss, OccupantOf(s, tp)));
    }
  }

  lemma {:induction false} DialTracks(s: Stack, d: nat, spare: Ref, env: Env)
    requires MuxOk(s) && CanDial(s, d, spare) && s.dials[d].DlTrack?
    ensures MuxOk(DialStep(s, d, spare, env))
  {
  }

  lemma {:induction false} DialKeeps(s: Stack, d: nat, spare: Ref, env: Env)
    requires MuxOk(s) && CanDial(s, d, spare)
    ensures MuxOk(DialStep(s, d, spare, env))
  {
    if s.dials[d].DlReplace? { DialCreates(s, d, spare, env); }
    else if s.dials[d].DlInsert? { DialInserts(s, d, spare, env); }
    else { DialTracks(s, d, spare, env); }
  }

  /** Every action, in whatever interleaving, keeps the multiplexer's invariant. */
  lemma {:induction false} ActKeeps(s: Stack, a: Action)
    requires MuxOk(s) && CanAct(s, a)
    ensures MuxOk(Act(s, a))
  {
    match a
    case RxAct(spare, env) => RxKeeps(s, spare, env);
    case TickAct(c, env) => TickKeeps(s, c, env);
    case TickNext => SnapshotKeeps(s);
    case DialAct(d, spare, env) => DialKeeps(s, d, spare, env);
    case UserCall(c, call, env) =>
      CallAges(s.objs[c].t, call, env);
      MoveKeeps(s, c, Called(s.objs[c].t, call, env));
    case _ => OutsideKeeps(s, a);
  }

  /** Packets, new dialers, listeners and accepts touch no connection and no entry. */
  lemma {:induction false} OutsideKeeps(s: Stack, a: Action)
    requires MuxOk(s) && CanAct(s, a)
    requires a.Packet? || a.DialStart? || a.ListenOn? || a.Unlisten? || a.Accept?
    ensures MuxOk(Act(s, a))
  {
    var s' := Act(s, a);
    if a.Packet? || a.DialStart? {
      assert s' == s.(rx := s'.rx, dials := s'.dials);
    } else {
      ListenersIrrelevant(s, s'.listeners, s'.desk);
      assert s' == s.(listeners := s'.listeners, desk := s'.desk);
    }
  }

  lemma {:induction false} ListenersIrrelevant(s: Stack, listeners: map<Endpoint, Channel>, desk: Desk)
    requires MuxOk(s) && desk.handed == s.desk.handed
    ensures MuxOk(s.(listeners := listeners, desk := desk))
  {
  }

  // ----- the accept channels -----

  /** What passed through one channel, in order. */
  function OnChannel(log: seq<Handover>, ch: Channel): seq<Ref> {
    if log == [] then []
    else
      var last := log[|log| - 1];
      OnChannel(log[..|log| - 1], ch) + if last.ch == ch then [last.c] else []
  }

  function Waiting(k: Desk, ch: Channel): seq<Ref> {
    if ch in k.queues then k.queues[ch].waiting else []
  }

  /** Each channel is first-in first-out and loses, repeats and misroutes nothing: what was
      handed to it is what Accept took from it followed by what still waits in it. */
  ghost predicate Fifo(k: Desk) {
    forall ch :: OnChannel(k.handed, ch) == OnChannel(k.accepted, ch) + Waiting(k, ch)
  }

  /** Channel ch was made for a listener on this endpoint. */
  predicate Serves(k: Desk, ch: Channel, local: Endpoint) {
    ch in k.queues && k.queues[ch].local == local
  }

  predicate DerivedOk(s: Stack, c: Ref) {
    c in s.objs && s.objs[c].deriveTo != Nowhere ==> Serves(s.desk, s.objs[c].deriveTo.ch, s.objs[c].tuple.local)
  }

  /** A connection is derived only for the listener on its own local endpoint. */
  ghost predicate RoutesOk(s: Stack) {
    && (forall key :: key in s.listeners ==> Serves(s.desk, s.listeners[key], key))
    && (forall c :: c in s.objs ==> DerivedOk(s, c))
    && match s.rx
       case RxInsert(tp, _, ch) => Serves(s.desk, ch, tp.local)
       case RxReplace(tp, _, ch, _) => Serves(s.desk, ch, tp.local)
       case RxDerive(_, ch, c) => c in s.objs && Serves(s.desk, ch, s.objs[c].tuple.local)
       case _ => true
  }

  ghost predicate DeskOk(s: Stack) {
    Fifo(s.desk) && RoutesOk(s)
  }

  lemma {:induction false} OnChannelSnoc(log: seq<Handover>, h: Handover, ch: Channel)
    ensures OnChannel(log + [h], ch) == OnChannel(log, ch) + if h.ch == ch then [h.c] else []
  {
    assert (log + [h])[..|log|] == log;
  }

  lemma {:induction false} HandOverKeeps(k: Desk, ch: Channel, c: Ref)
    requires Fifo(k) && ch in k.queues
    ensures Fifo(HandOver(k, ch, c))
  {
    var k' := HandOver(k, ch, c);
    forall d ensures OnChannel(k'.handed, d) == OnChannel(k'.accepted, d) + Waiting(k', d) {
      OnChannelSnoc(k.handed, Handover(ch, c), d);
      assert OnChannel(k.handed, d) == OnChannel(k.accepted, d) + Waiting(k, d);
    }
  }

  lemma {:induction false} TakeNextKeeps(k: Desk, ch: Channel)
    requires Fifo(k) && ch in k.queues && k.queues[ch].waiting != []
    ensures Fifo(TakeNext(k, ch))
  {
    var k' := TakeNext(k, ch);
    var c := k.queues[ch].waiting[0];
    forall d ensures OnChannel(k'.handed, d) == OnChannel(k'.accepted, d) + Waiting(k', d) {
      OnChannelSnoc(k.accepted, Handover(ch, c), d);
      assert OnChannel(k.handed, d) == OnChannel(k.accepted, d) + Waiting(k, d);
      assert d == ch ==> Waiting(k, d) == [c] + Waiting(k', d);
    }
  }

  lemma {:induction false} NewChannelKeeps(k: Desk, ch: Channel, key: Endpoint)
    requires Fifo(k) && ch !in k.queues
    ensures Fifo(k.(queues := k.queues[ch := AcceptQueue(key, [])]))
  {
    var k' := k.(queues := k.queues[ch := AcceptQueue(key, [])]);
    forall d ensures OnChannel(k'.handed, d) == OnChannel(k'.accepted, d) + Waiting(k', d) {
      assert Waiting(k', d) == Waiting(k, d);
    }
  }

  /** Channels stay and keep their endpoint. */
  predicate Outlives(k: Desk, k': Desk) {
    forall ch :: ch in k.queues ==> ch in k'.queues && k'.queues[ch].local == k.queues[ch].local
  }

  /** Old connections keep their tuple and channel. */
  predicate SameRoutes(s: Stack, s': Stack) {
    && (forall c :: c in s.objs ==>
          c in s'.objs && s'.objs[c].tuple == s.objs[c].tuple && s'.objs[c].deriveTo == s.objs[c].deriveTo)
    && (forall c :: c in s'.objs && c !in s.objs ==> s'.objs[c].deriveTo == Nowhere)
  }

  predicate Routeless(rx: Rx) {
    !rx.RxInsert? && !rx.RxReplace? && !rx.RxDerive?
  }

  lemma {:induction false} RoutesFrame(s: Stack, s': Stack)
    requires RoutesOk(s) && SameRoutes(s, s') && Outlives(s.desk, s'.desk)
    requires s'.listeners == s.listeners && (s'.rx == s.rx || Routeless(s'.rx))
    ensures RoutesOk(s')
  {
    forall c | c in s'.objs ensures DerivedOk(s', c) {
      if c in s.objs { assert DerivedOk(s, c); }
    }
  }

  lemma {:induction false} DeriveRoutes(s: Stack, spare: Ref, env: Env)
    requires DeskOk(s) && CanRx(s, spare) && s.rx.RxDerive?
    ensures DeskOk(RxStep(s, spare, env))
  {
    var s' := RxStep(s, spare, env);
    forall c | c in s'.objs ensures DerivedOk(s', c) {
      assert DerivedOk(s, c);
    }
  }

  lemma {:induction false} ReplaceRoutes(s: Stack, spare: Ref, env: Env)
    requires DeskOk(s) && CanRx(s, spare) && s.rx.RxReplace?
    ensures DeskOk(RxStep(s, spare, env))
  {
    var s' := RxStep(s, spare, env);
    forall c | c in s'.objs ensures DerivedOk(s', c) {
      if c in s.objs { assert DerivedOk(s, c); }
    }
  }

  lemma {:induction false} InsertRoutes(s: Stack, spare: Ref, env: Env)
    requires DeskOk(s) && CanRx(s, spare) && (s.rx.RxListen? || s.rx.RxInsert?)
    ensures DeskOk(RxStep(s, spare, env))
  {
    var s' := RxStep(s, spare, env);
    assert s'.objs == s.objs && s'.desk == s.desk && s'.listeners == s.listeners;
    forall c | c in s'.objs ensures DerivedOk(s', c) {
      assert DerivedOk(s, c);
    }
  }

  /** Only the objects' control blocks, the table and the positions of threads change. */
  lemma {:induction false} StillRouted(s: Stack, s': Stack)
    requires DeskOk(s) && s'.objs == s.objs && s'.desk == s.desk && s'.listeners == s.listeners
    requires s'.rx == s.rx || Routeless(s'.rx)
    ensures DeskOk(s')
  {
    forall c | c in s'.objs ensures DerivedOk(s', c) {
      assert DerivedOk(s, c);
    }
  }

  lemma {:induction false} MoveRoutes(s: Stack, c: Ref, t: Tcb)
    requires DeskOk(s) && c in s.objs
    ensures DeskOk(SetConn(s, c, t))
  {
    RoutesFrame(s, SetConn(s, c, t));
  }

  lemma {:induction false} SegmentRoutes(s: Stack, spare: Ref, env: Env)
    requires DeskOk(s) && CanRx(s, spare) && s.rx.RxSegment?
    ensures DeskOk(RxStep(s, spare, env))
  {
    var c := s.rx.c;
    var t := OnSegment(s.objs[c].t, s.rx.s, env);
    MoveRoutes(s, c, t);
    StillRouted(SetConn(s, c, t), RxStep(s, spare, env));
  }

  lemma {:induction false} WalkRoutes(s: Stack, spare: Ref, env: Env)
    requires DeskOk(s) && CanRx(s, spare)
    requires s.rx.RxLookup? || s.rx.RxState? || s.rx.RxReap? || s.rx.RxUntrack? || s.rx.RxTrack?
    ensures DeskOk(RxStep(s, spare, env))
  {
    StillRouted(s, RxStep(s, spare, env));
  }

  lemma {:induction false} RxRoutes(s: Stack, spare: Ref, env: Env)
    requires DeskOk(s) && CanRx(s, spare)
    ensures DeskOk(RxStep(s, spare, env))
  {
    match s.rx
    case RxDeliver(c) => DeliverRoutes(s, c);
    case RxDerive(_, _, _) => DeriveRoutes(s, spare, env);
    case RxReplace(_, _, _, _) => ReplaceRoutes(s, spare, env);
    case RxListen(_, _) => InsertRoutes(s, spare, env);
    case RxInsert(_, _, _) => InsertRoutes(s, spare, env);
    case RxSegment(_, _) => SegmentRoutes(s, spare, env);
    case _ => WalkRoutes(s, spare, env);
  }

  lemma {:induction false} DeliverRoutes(s: Stack, c: Ref)
    requires DeskOk(s) && c in s.objs
    ensures DeskOk(MaybeDeliver(s, c).(rx := RxIdle))
  {
    var s' := MaybeDeliver(s, c).(rx := RxIdle);
    if s'.desk != s.desk { HandOverKeeps(s.desk, s.objs[c].deriveTo.ch, c); }
    RoutesFrame(s, s');
  }

  lemma {:induction false} TickRoutes(s: Stack, c: Ref, env: Env)
    requires DeskOk(s) && CanTick(s, c)
    ensures DeskOk(TickStep(s, c, env))
  {
    if s.tick.TkTicking? {
      var t := Tick(s.objs[c].t, env);
      MoveRoutes(s, c, t);
      StillRouted(SetConn(s, c, t), TickStep(s, c, env));
    } else {
      StillRouted(s, TickStep(s, c, env));
    }
  }

  lemma {:induction false} DialRoutes(s: Stack, d: nat, spare: Ref, env: Env)
    requires DeskOk(s) && CanDial(s, d, spare)
    ensures DeskOk(DialStep(s, d, spare, env))
  {
    RoutesFrame(s, DialStep(s, d, spare, env));
  }

  lemma {:induction false} ListenRoutes(s: Stack, key: Endpoint, ch: Channel)
    requires DeskOk(s) && CanAct(s, ListenOn(key, ch))
    ensures DeskOk(Act(s, ListenOn(key, ch)))
  {
    NewChannelKeeps(s.desk, ch, key);
    var s1 := s.(desk := s.desk.(queues := s.desk.queues[ch := AcceptQueue(key, [])]));
    RoutesFrame(s, s1);
  }

  lemma {:induction false} OutsideRoutes(s: Stack, a: Action)
    requires DeskOk(s) && CanAct(s, a) && (a.Packet? || a.TickNext? || a.DialStart?)
    ensures DeskOk(Act(s, a))
  {
    StillRouted(s, Act(s, a));
  }

  lemma {:induction false} AcceptRoutes(s: Stack, ch: Channel)
    requires DeskOk(s) && CanAct(s, Accept(ch))
    ensures DeskOk(s.(desk := TakeNext(s.desk, ch)))
  {
    TakeNextKeeps(s.desk, ch);
    RoutesFrame(s, s.(desk := TakeNext(s.desk, ch)));
  }

  /** Every action keeps the accept channels in order and every connection on its own. */
  lemma {:induction false} ActRoutes(s: Stack, a: Action)
    requires DeskOk(s) && CanAct(s, a)
    ensures DeskOk(Act(s, a))
  {
    match a
    case RxAct(spare, env) => RxRoutes(s, spare, env);
    case TickAct(c, env) => TickRoutes(s, c, env);
    case DialAct(d, spare, env) => DialRoutes(s, d, spare, env);
    case ListenOn(key, ch) => ListenRoutes(s, key, ch);
    case Unlisten(key) => UnlistenRoutes(s, key);
    case Accept(ch) => AcceptRoutes(s, ch);
    case UserCall(c, call, env) => MoveRoutes(s, c, Called(s.objs[c].t, call, env));
    case _ => OutsideRoutes(s, a);
  }

  lemma {:induction false} UnlistenRoutes(s: Stack, key: Endpoint)
    requires DeskOk(s)
    ensures DeskOk(s.(listeners := s.listeners - {key}))
  {
    var s' := s.(listeners := s.listeners - {key});
    forall c | c in s'.objs ensures DerivedOk(s', c) {
      assert DerivedOk(s, c);
    }
  }

  // ----- nothing is accepted twice -----

  lemma {:induction false} OnChannelMember(log: seq<Handover>, ch: Channel, c: Ref)
    ensures c in OnChannel(log, ch) <==> Handover(ch, c) in log
  {
    if log != [] {
      OnChannelMember(log[..|log| - 1], ch, c);
      assert log == log[..|log| - 1] + [log[|log| - 1]];
    }
  }

  predicate NoRepeat(cs: seq<Ref>) {
    forall i, j :: 0 <= i < j < |cs| ==> cs[i] != cs[j]
  }

  lemma {:induction false} ChannelNoRepeat(log: seq<Handover>, ch: Channel)
    requires OncePerConnection(log)
    ensures NoRepeat(OnChannel(log, ch))
  {
    if log != [] {
      var prev, last := log[..|log| - 1], log[|log| - 1];
      ChannelNoRepeat(prev, ch);
      OnChannelMember(prev, ch, last.c);
    }
  }

  /** If no channel saw a connection twice, no hand-over is in the log twice. */
  lemma {:induction false} LogNoRepeat(log: seq<Handover>, i: nat, j: nat)
    requires forall ch :: NoRepeat(OnChannel(log, ch))
    requires i < j < |log|
    ensures log[i] != log[j]
    decreases |log|
  {
    var prev, last := log[..|log| - 1], log[|log| - 1];
    forall ch ensures NoRepeat(OnChannel(prev, ch)) {
      assert NoRepeat(OnChannel(log, ch));
      PrefixNoRepeat(OnChannel(prev, ch), if last.ch == ch then [last.c] else []);
    }
    if j < |log| - 1 {
      LogNoRepeat(prev, i, j);
    } else if log[i] == last {
      assert log[i] == prev[i];
      OnChannelMember(prev, last.ch, last.c);
      var cs := OnChannel(prev, last.ch);
      assert OnChannel(log, last.ch) == cs + [last.c] && NoRepeat(OnChannel(log, last.ch));
      AddsRepeat(cs, last.c);
    }
  }

  lemma {:induction false} AddsRepeat(cs: seq<Ref>, c: Ref)
    requires c in cs
    ensures !NoRepeat(cs + [c])
  {
    var k :| 0 <= k < |cs| && cs[k] == c;
    assert (cs + [c])[k] == (cs + [c])[|cs|];
  }

  lemma {:induction false} PrefixNoRepeat(a: seq<Ref>, b: seq<Ref>)
    requires NoRepeat(a + b)
    ensures NoRepeat(a)
  {
    forall i, j | 0 <= i < j < |a| ensures a[i] != a[j] {
      assert (a + b)[i] == a[i] && (a + b)[j] == a[j];
    }
  }

  lemma {:induction false} AcceptedWasHanded(s: Stack, h: Handover)
    requires MuxOk(s) && DeskOk(s) && h in s.desk.accepted
    ensures h in s.desk.handed && Delivered(s, h) && Serves(s.desk, h.ch, s.objs[h.c].tuple.local)
  {
    OnChannelMember(s.desk.accepted, h.ch, h.c);
    assert OnChannel(s.desk.handed, h.ch) == OnChannel(s.desk.accepted, h.ch) + Waiting(s.desk, h.ch);
    OnChannelMember(s.desk.handed, h.ch, h.c);
    assert DerivedOk(s, h.c);
  }

  /** Accept returns no connection twice, from whatever channel. */
  lemma {:induction false} AcceptedOnce(s: Stack, i: nat, j: nat)
    requires MuxOk(s) && DeskOk(s) && i < j < |s.desk.accepted|
    ensures s.desk.accepted[i].c != s.desk.accepted[j].c
  {
    var k := s.desk;
    forall ch ensures NoRepeat(OnChannel(k.accepted, ch)) {
      ChannelNoRepeat(k.handed, ch);
      assert OnChannel(k.handed, ch) == OnChannel(k.accepted, ch) + Waiting(k, ch);
      PrefixNoRepeat(OnChannel(k.accepted, ch), Waiting(k, ch));
    }
    LogNoRepeat(k.accepted, i, j);
    AcceptedWasHanded(s, k.accepted[i]);
    AcceptedWasHanded(s, k.accepted[j]);
  }

  // ----- what one action may do to an entry -----

  /** Entry tp of s is gone or leads elsewhere in s'. */
  predicate Loses(s: Stack, s': Stack, tp: FourTuple) {
    tp in s.table && !(tp in s'.table && s'.table[tp] == s.table[tp])
  }

  lemma {:induction false} RxDisplaces(s: Stack, spare: Ref, env: Env, tp: FourTuple)
    requires MuxOk(s) && CanRx(s, spare) && Loses(s, RxStep(s, spare, env), tp)
    ensures s.table[tp] in s.objs && !Live(s.objs[s.table[tp]].t.state)
    ensures tp !in RxStep(s, spare, env).table ==> s.objs[s.table[tp]].t.state == Closed
  {
    assert RxOk(s) && (s.rx.RxReap? || s.rx.RxReplace?);
  }

  lemma {:induction false} TickDisplaces(s: Stack, c: Ref, env: Env, tp: FourTuple)
    requires MuxOk(s) && CanTick(s, c) && Loses(s, TickStep(s, c, env), tp)
    ensures s.table[tp] in s.objs && s.objs[s.table[tp]].t.state == Closed
  {
    assert s.tick.TkRemove?;
  }

  lemma {:induction false} DialDisplaces(s: Stack, d: nat, spare: Ref, env: Env, tp: FourTuple)
    requires MuxOk(s) && CanDial(s, d, spare) && Loses(s, DialStep(s, d, spare, env), tp)
    ensures s.table[tp] in s.objs && !Live(s.objs[s.table[tp]].t.state) && tp in DialStep(s, d, spare, env).table
  {
    assert DialerOk(s, d, s.dials[d]) && s.dials[d].DlReplace?;
  }

  /** No action removes an entry unless its connection is CLOSED, or replaces it unless the
      connection is in TIME-WAIT or CLOSED. */
  lemma {:induction false} LiveNeverDisplaced(s: Stack, a: Action, tp: FourTuple)
    requires MuxOk(s) && CanAct(s, a) && Loses(s, Act(s, a), tp)
    ensures s.table[tp] in s.objs && !Live(s.objs[s.table[tp]].t.state)
    ensures tp !in Act(s, a).table ==> s.objs[s.table[tp]].t.state == Closed
  {
    match a
    case RxAct(spare, env) => RxDisplaces(s, spare, env, tp);
    case TickAct(c, env) => TickDisplaces(s, c, env, tp);
    case DialAct(d, spare, env) => DialDisplaces(s, d, spare, env, tp);
    case _ => assert false;
  }

  /** The test-and-set never has two live connections of one 4-tuple, in the table or not. */
  lemma {:induction false} OneLivePerTuple(s: Stack, c: Ref, d: Ref)
    requires MuxOk(s) && c in s.objs && d in s.objs && s.objs[c].tuple == s.objs[d].tuple
    requires Live(s.objs[c].t.state) && Live(s.objs[d].t.state)
    ensures c == d
  {
    assert InTable(s, c, s.objs[c].tuple) && InTable(s, d, s.objs[d].tuple);
  }

  lemma {:induction false} GapIsAhead(nxt: u32)
    ensures SeqGT(Add(nxt, ISS_GAP), nxt) && Sub(Add(nxt, ISS_GAP), nxt) == ISS_GAP
  {
  }

  /** A SYN that replaces a dead incarnation through a listener: the new connection starts
      ISS_GAP beyond everything the old one sent, whatever the old one did in between. */
  lemma {:induction false} ReplacementIss(s: Stack, spare: Ref, env: Env)
    requires MuxOk(s) && s.rx.RxReplace? && s.rx.was.Somebody? && CanRx(s, spare)
    ensures var s', was := RxStep(s, spare, env), s.rx.was.c;
      && s'.table[s.rx.tp] == spare && s'.objs[spare].tuple == s.rx.tp
      && s.table[s.rx.tp] == was && !Live(s.objs[was].t.state)
      && s'.objs[spare].t.snd.iss == Add(s.objs[was].t.snd.nxt, ISS_GAP)
      && SeqGT(s'.objs[spare].t.snd.iss, s.objs[was].t.snd.nxt)
      && s'.rx == RxDerive(s.rx.s, s.rx.ch, spare)
  {
    GapIsAhead(s.objs[s.rx.was.c].t.snd.nxt);
  }

  // ----- whole runs -----

  predicate ActAt(states: seq<Stack>, actions: seq<Action>, k: nat)
    requires |states| == |actions| + 1 && k < |actions|
  {
    CanAct(states[k], actions[k]) && states[k + 1] == Act(states[k], actions[k])
  }

  /** Any interleaving, from a stack with no connection and no listener. */
  ghost predicate Interleaving(states: seq<Stack>, actions: seq<Action>) {
    && |states| == |actions| + 1
    && states[0] == Stack(map[], map[], map[], {}, {}, Desk(map[], [], []), RxIdle, TkIdle, map[], Free)
    && forall k :: 0 <= k < |actions| ==> ActAt(states, actions, k)
  }

  lemma {:induction false} InterleavingOk(states: seq<Stack>, actions: seq<Action>, n: nat)
    requires Interleaving(states, actions) && n < |states|
    ensures MuxOk(states[n]) && DeskOk(states[n])
  {
    if n > 0 {
      InterleavingOk(states, actions, n - 1);
      assert ActAt(states, actions, n - 1);
      ActKeeps(states[n - 1], actions[n - 1]);
      ActRoutes(states[n - 1], actions[n - 1]);
    }
  }

  /** Multiplexer safety over every interleaving: each entry leads to a connection of
      exactly its 4-tuple, every live connection is reachable through its own entry, and a
      connection is handed over at most once, to its own channel, after ESTABLISHED. */
  lemma {:induction false} MuxSafety(states: seq<Stack>, actions: seq<Action>, n: nat)
    requires Interleaving(states, actions) && n < |states|
    ensures forall tp :: tp in states[n].table ==> Known(states[n], states[n].table[tp], tp)
    ensures forall c :: c in states[n].objs && Live(states[n].objs[c].t.state) ==>
      InTable(states[n], c, states[n].objs[c].tuple)
    ensures OncePerConnection(states[n].desk.handed)
    ensures forall h :: h in states[n].desk.handed ==> Delivered(states[n], h)
  {
    InterleavingOk(states, actions, n);
  }

  /** Accept over every interleaving: no connection is returned twice; each comes from the
      channel of a listener on its own local endpoint, after it was ESTABLISHED; and on
      every channel what was handed over is what was accepted followed by what waits. */
  lemma {:induction false} AcceptSafety(states: seq<Stack>, actions: seq<Action>, n: nat)
    requires Interleaving(states, actions) && n < |states|
    ensures OncePerConnection(states[n].desk.accepted)
    ensures forall h :: h in states[n].desk.accepted ==>
      Delivered(states[n], h) && Serves(states[n].desk, h.ch, states[n].objs[h.c].tuple.local)
    ensures forall ch ::
      OnChannel(states[n].desk.handed, ch) == OnChannel(states[n].desk.accepted, ch) + Waiting(states[n].desk, ch)
  {
    InterleavingOk(states, actions, n);
    var s := states[n];
    forall i, j | 0 <= i < j < |s.desk.accepted| ensures s.desk.accepted[i].c != s.desk.accepted[j].c {
      AcceptedOnce(s, i, j);
    }
    forall h | h in s.desk.accepted ensures Delivered(s, h) && Serves(s.desk, h.ch, s.objs[h.c].tuple.local) {
      AcceptedWasHanded(s, h);
    }
  }
}

/** The way of one segment through the multiplexer, over every interleaving with the tick
    thread, the dialers and the users: a segment for a live connection reaches exactly that
    connection, and an established connection with room in its channel is handed over
    (tcp/transport/listener.go:160-268). */
module MuxPath {
  import opened SeqNum
  import opened Addresses
  import opened Segments
  import opened Tcb
  import opened StateMachine
  import opened SenderSteps
  import opened Mux

  // ----- the receive thread is alone in its own program -----

  predicate OfRx(a: Action) {
    a.Packet? || a.RxAct?
  }

  lemma {:induction false} OthersLeaveRx(s: Stack, a: Action)
    requires CanAct(s, a) && !OfRx(a)
    ensures Act(s, a).rx == s.rx
  {
  }

  ghost predicate RxPauses(actions: seq<Action>, i: nat, j: nat) {
    forall k :: i <= k < j && k < |actions| ==> !OfRx(actions[k])
  }

  lemma {:induction false} RxWaits(states: seq<Stack>, actions: seq<Action>, i: nat, j: nat)
    requires Interleaving(states, actions) && i <= j < |states| && RxPauses(actions, i, j)
    ensures states[j].rx == states[i].rx
    decreases j
  {
    if i < j {
      RxWaits(states, actions, i, j - 1);
      assert ActAt(states, actions, j - 1);
      OthersLeaveRx(states[j - 1], actions[j - 1]);
    }
  }

  // ----- which connection gets a segment -----

  /** The segment being processed, and once it is known, a connection with its 4-tuple. */
  predicate Processing(s: Stack, tp: FourTuple, seg: Segment) {
    match s.rx
    case RxIdle => false
    case RxLookup(tp', seg') => tp' == tp && seg' == seg
    case RxState(tp', seg', c) => tp' == tp && seg' == seg && Known(s, c, tp)
    case RxReap(tp', seg', c) => tp' == tp && seg' == seg
    case RxUntrack(tp', seg', c) => tp' == tp && seg' == seg
    case RxListen(tp', seg') => tp' == tp && seg' == seg
    case RxInsert(tp', seg', _) => tp' == tp && seg' == seg
    case RxReplace(tp', seg', _, _) => tp' == tp && seg' == seg
    case RxDerive(seg', _, c) => seg' == seg && Known(s, c, tp)
    case RxTrack(seg', c) => seg' == seg && Known(s, c, tp)
    case RxSegment(seg', c) => seg' == seg && Known(s, c, tp)
    case RxDeliver(c) => Known(s, c, tp)
  }

  /** Objects stay, with their 4-tuples. */
  predicate ObjectsStay(s: Stack, s': Stack) {
    forall c :: c in s.objs ==> c in s'.objs && s'.objs[c].tuple == s.objs[c].tuple
  }

  lemma {:induction false} RxObjectsStay(s: Stack, spare: Ref, env: Env)
    requires CanRx(s, spare)
    ensures ObjectsStay(s, RxStep(s, spare, env))
  {
  }

  lemma {:induction false} DialObjectsStay(s: Stack, d: nat, spare: Ref, env: Env)
    requires CanDial(s, d, spare)
    ensures ObjectsStay(s, DialStep(s, d, spare, env))
  {
  }

  lemma {:induction false} TickObjectsStay(s: Stack, c: Ref, env: Env)
    requires CanTick(s, c)
    ensures ObjectsStay(s, TickStep(s, c, env))
  {
  }

  lemma {:induction false} ActObjectsStay(s: Stack, a: Action)
    requires CanAct(s, a)
    ensures ObjectsStay(s, Act(s, a))
  {
    match a
    case RxAct(spare, env) => RxObjectsStay(s, spare, env);
    case DialAct(d, spare, env) => DialObjectsStay(s, d, spare, env);
    case TickAct(c, env) => TickObjectsStay(s, c, env);
    case _ =>
  }

  lemma {:induction false} RxBuildsOn(s: Stack, spare: Ref, env: Env, tp: FourTuple, seg: Segment)
    requires CanRx(s, spare) && Processing(s, tp, seg)
    requires s.rx.RxReplace? || s.rx.RxDerive? || s.rx.RxSegment?
    ensures Processing(RxStep(s, spare, env), tp, seg)
  {
  }

  lemma {:induction false} RxFindsOn(s: Stack, spare: Ref, env: Env, tp: FourTuple, seg: Segment)
    requires CanRx(s, spare) && Processing(s, tp, seg) && (tp in s.table ==> Known(s, s.table[tp], tp))
    requires s.rx.RxLookup? || s.rx.RxInsert? || s.rx.RxState?
    ensures var s' := RxStep(s, spare, env);
      s'.objs == s.objs && Processing(s', tp, seg)
  {
  }

  lemma {:induction false} RxWalksOn(s: Stack, spare: Ref, env: Env, tp: FourTuple, seg: Segment)
    requires CanRx(s, spare) && Processing(s, tp, seg)
    requires s.rx.RxReap? || s.rx.RxUntrack? || s.rx.RxListen? || s.rx.RxTrack? || s.rx.RxDeliver?
    ensures var s' := RxStep(s, spare, env);
      s'.objs == s.objs && (s'.rx == RxIdle || Processing(s', tp, seg))
  {
  }

  lemma {:induction false} RxStaysOn(s: Stack, spare: Ref, env: Env, tp: FourTuple, seg: Segment)
    requires CanRx(s, spare) && Processing(s, tp, seg) && (tp in s.table ==> Known(s, s.table[tp], tp))
    ensures var s' := RxStep(s, spare, env);
      s'.rx == RxIdle || Processing(s', tp, seg)
  {
    if s.rx.RxReplace? || s.rx.RxDerive? || s.rx.RxSegment? { RxBuildsOn(s, spare, env, tp, seg); }
    else if s.rx.RxLookup? || s.rx.RxInsert? || s.rx.RxState? { RxFindsOn(s, spare, env, tp, seg); }
    else { RxWalksOn(s, spare, env, tp, seg); }
  }

  lemma {:induction false} StaysOn(s: Stack, a: Action, tp: FourTuple, seg: Segment)
    requires MuxOk(s) && CanAct(s, a) && Processing(s, tp, seg)
    ensures var s' := Act(s, a);
      s'.rx == RxIdle || Processing(s', tp, seg)
  {
    ActObjectsStay(s, a);
    match a
    case RxAct(spare, env) => RxStaysOn(s, spare, env, tp, seg);
    case Packet(_, _) =>
    case _ => OthersLeaveRx(s, a);
  }

  /** A connection takes segment seg, and no other connection moves in that action. */
  predicate Takes(s: Stack, s': Stack, c: Ref, seg: Segment, env: Env) {
    && c in s.objs && s'.objs.Keys == s.objs.Keys && s'.objs[c] == s.objs[c].(t := OnSegment(s.objs[c].t, seg, env))
    && forall d :: d in s.objs && d != c ==> s'.objs[d] == s.objs[d]
  }

  lemma {:induction false} SegmentTaken(s: Stack, spare: Ref, env: Env)
    requires s.rx.RxSegment? && CanRx(s, spare)
    ensures var s', c := RxStep(s, spare, env), s.rx.c;
      Takes(s, s', c, s.rx.s, env) && s'.rx == RxDeliver(c) && s'.table == s.table && s'.desk == s.desk
  {
  }

  lemma {:induction false} PacketCarried(states: seq<Stack>, actions: seq<Action>, i: nat, n: nat, tp: FourTuple,
                                         seg: Segment)
    requires Interleaving(states, actions) && i < n < |states| && actions[i] == Packet(tp, seg)
    requires forall k :: i < k <= n ==> states[k].rx != RxIdle
    ensures Processing(states[n], tp, seg)
    decreases n
  {
    assert ActAt(states, actions, n - 1);
    if i < n - 1 {
      PacketCarried(states, actions, i, n - 1, tp, seg);
      InterleavingOk(states, actions, n - 1);
      StaysOn(states[n - 1], actions[n - 1], tp, seg);
    }
  }

  /** Whatever else goes on, what a packet gives to a connection before the receive thread is
      idle again is that packet's segment, to a connection of that packet's 4-tuple, and no
      other connection moves in that action. */
  lemma {:induction false} PacketReachesOwn(states: seq<Stack>, actions: seq<Action>, i: nat, n: nat, tp: FourTuple,
                                            seg: Segment)
    requires Interleaving(states, actions) && i < n < |actions| && actions[i] == Packet(tp, seg)
    requires forall k :: i < k <= n ==> states[k].rx != RxIdle
    requires states[n].rx.RxSegment? && actions[n].RxAct?
    ensures var c := states[n].rx.c;
      Known(states[n], c, tp) && Takes(states[n], states[n + 1], c, seg, actions[n].env)
  {
    PacketCarried(states, actions, i, n, tp, seg);
    assert ActAt(states, actions, n);
    SegmentTaken(states[n], actions[n].spare, actions[n].env);
  }

  lemma {:induction false} LookupFinds(s: Stack, spare: Ref, env: Env)
    requires s.rx.RxLookup? && CanRx(s, spare) && s.rx.tp in s.table
    ensures RxStep(s, spare, env).rx == RxState(s.rx.tp, s.rx.s, s.table[s.rx.tp])
  {
  }

  lemma {:induction false} LiveGoesOn(s: Stack, spare: Ref, env: Env)
    requires s.rx.RxState? && CanRx(s, spare) && Live(s.objs[s.rx.c].t.state)
    ensures RxStep(s, spare, env).rx == RxSegment(s.rx.s, s.rx.c)
  {
  }

  /** A segment whose 4-tuple leads to a connection that is alive when the receive thread
      looks at its state is taken by exactly that connection. */
  lemma {:induction false} LiveEntryTakes(states: seq<Stack>, actions: seq<Action>, i: nat, j: nat, n: nat)
    requires Interleaving(states, actions) && i < j < n < |actions|
    requires actions[i].RxAct? && actions[j].RxAct? && actions[n].RxAct?
    requires RxPauses(actions, i + 1, j) && RxPauses(actions, j + 1, n)
    requires states[i].rx.RxLookup? && states[i].rx.tp in states[i].table
    requires var c := states[i].table[states[i].rx.tp];
      c in states[j].objs && Live(states[j].objs[c].t.state)
    ensures var c := states[i].table[states[i].rx.tp];
      && Takes(states[n], states[n + 1], c, states[i].rx.s, actions[n].env) && states[n + 1].rx == RxDeliver(c)
  {
    assert ActAt(states, actions, i) && ActAt(states, actions, j) && ActAt(states, actions, n);
    LookupFinds(states[i], actions[i].spare, actions[i].env);
    RxWaits(states, actions, i + 1, j);
    LiveGoesOn(states[j], actions[j].spare, actions[j].env);
    RxWaits(states, actions, j + 1, n);
    SegmentTaken(states[n], actions[n].spare, actions[n].env);
  }

  /** What a connection's state makes of a segment for it: CLOSED is reaped, a SYN in
      TIME-WAIT goes on to the listener, everything else is the connection's own. */
  lemma {:induction false} StateRoutes(s: Stack, spare: Ref, env: Env)
    requires s.rx.RxState? && CanRx(s, spare)
    ensures var s', st := RxStep(s, spare, env), s.objs[s.rx.c].t.state;
      && s' == s.(rx := s'.rx)
      && (s'.rx.RxReap? <==> st == Closed)
      && (s'.rx == RxListen(s.rx.tp, s.rx.s) <==> st == TimeWait && s.rx.s.flags.syn)
      && (s'.rx == RxSegment(s.rx.s, s.rx.c) <==> st != Closed && !(st == TimeWait && s.rx.s.flags.syn))
  {
  }

  /** A listener derives a connection exactly for a bare SYN from a unicast address. */
  lemma {:induction false} ListenerDerivesIff(s: Stack, spare: Ref, env: Env)
    requires s.rx.RxListen? && CanRx(s, spare)
    ensures var s', f, ip := RxStep(s, spare, env), s.rx.s.flags, s.rx.tp.remote.ip;
      && s' == s.(rx := s'.rx)
      && (s'.rx.RxInsert? <==>
            && s.rx.tp.local in s.listeners && f.syn && !f.ack && !f.rst
            && ip[0] < 224 && ip != [0, 0, 0, 0])
      && (s'.rx.RxInsert? ==> s'.rx == RxInsert(s.rx.tp, s.rx.s, s.listeners[s.rx.tp.local]))
      && (!s'.rx.RxInsert? ==> s'.rx == RxIdle)
  {
  }

  // ----- handing over -----

  /** A derived connection that has been ESTABLISHED, is not handed over yet, and finds room. */
  predicate Deliverable(s: Stack, c: Ref) {
    && c in s.objs && s.objs[c].deriveTo.To? && s.objs[c].t.reachedEstablished && c !in s.delivered
    && s.objs[c].deriveTo.ch in s.desk.queues
    && |s.desk.queues[s.objs[c].deriveTo.ch].waiting| < ACCEPT_BACKLOG
  }

  /** After a segment its connection is handed over exactly if it is due and there is room:
      it then waits last in its own channel, and no other channel changes. */
  lemma {:induction false} DeliversIff(s: Stack, spare: Ref, env: Env)
    requires s.rx.RxDeliver? && CanRx(s, spare)
    ensures var s', c := RxStep(s, spare, env), s.rx.c;
      && s'.objs == s.objs && s'.rx == RxIdle
      && (Deliverable(s, c) <==> c in s'.delivered && c !in s.delivered)
      && (if Deliverable(s, c) then
            var ch := s.objs[c].deriveTo.ch;
            && Waiting(s'.desk, ch) == Waiting(s.desk, ch) + [c] && s'.desk.handed == s.desk.handed + [Handover(ch, c)]
            && forall other :: other != ch ==> Waiting(s'.desk, other) == Waiting(s.desk, other)
          else s'.desk == s.desk && s'.delivered == s.delivered)
  {
  }

  // ----- the tick thread -----

  /** A connection is ticked, and no other connection moves in that action. */
  predicate Ticks(s: Stack, s': Stack, c: Ref, env: Env) {
    && c in s.objs && s'.objs.Keys == s.objs.Keys && s'.objs[c] == s.objs[c].(t := Tick(s.objs[c].t, env))
    && forall d :: d in s.objs && d != c ==> s'.objs[d] == s.objs[d]
  }

  /** Connection c is still to be ticked in the round under way. */
  predicate ToTick(s: Stack, c: Ref) {
    s.tick.TkTicking? && c in s.tick.todo
  }

  lemma {:induction false} RoundTicks(s: Stack, a: Action, c: Ref)
    requires CanAct(s, a) && ToTick(s, c)
    ensures ToTick(Act(s, a), c) || (a.TickAct? && a.c == c && Ticks(s, Act(s, a), c, a.env))
  {
    match a
    case TickAct(d, env) => TickOrWait(s, d, env, c);
    case RxAct(spare, env) => RxLeavesTicker(s, spare, env);
    case DialAct(d, spare, env) => DialLeavesTicker(s, d, spare, env);
    case _ =>
  }

  lemma {:induction false} TickOrWait(s: Stack, d: Ref, env: Env, c: Ref)
    requires CanTick(s, d) && ToTick(s, c)
    ensures if d == c then Ticks(s, TickStep(s, d, env), c, env) else ToTick(TickStep(s, d, env), c)
  {
  }

  lemma {:induction false} RxLeavesTicker(s: Stack, spare: Ref, env: Env)
    requires CanRx(s, spare)
    ensures RxStep(s, spare, env).tick == s.tick
  {
  }

  lemma {:induction false} DialLeavesTicker(s: Stack, d: nat, spare: Ref, env: Env)
    requires CanDial(s, d, spare)
    ensures DialStep(s, d, spare, env).tick == s.tick
  {
  }

  /** Every connection tracked when a round of the tick thread begins is ticked before the
      round goes on to reaping, whatever happens in between. */
  lemma {:induction false} RoundTicksAll(states: seq<Stack>, actions: seq<Action>, i: nat, n: nat, c: Ref)
    returns (k: nat)
    requires Interleaving(states, actions) && i < n < |states|
    requires states[i].tick == TkIdle && actions[i] == TickNext && c in states[i].conns
    requires states[n].tick.TkReaping?
    ensures i < k < n && actions[k].TickAct? && actions[k].c == c
    ensures Ticks(states[k], states[k + 1], c, actions[k].env)
  {
    assert ActAt(states, actions, i);
    k := i + 1;
    while ToTick(states[k + 1], c)
      invariant i < k < n && ToTick(states[k], c)
      decreases n - k
    {
      k := k + 1;
    }
    assert ActAt(states, actions, k);
    RoundTicks(states[k], actions[k], c);
  }

  /** Then exactly the CLOSED ones are taken out: of the table, where another connection may
      meanwhile have their entry, and of the tracked. */
  lemma {:induction false} Reaps(s: Stack, c: Ref, env: Env)
    requires CanTick(s, c) && !s.tick.TkTicking?
    ensures var s' := TickStep(s, c, env);
      && s'.objs == s.objs
      && (s.tick.TkReaping? ==> (s'.tick.TkRemove? <==> s.objs[c].t.state == Closed) && s'.table == s.table)
      && (s.tick.TkRemove? ==> forall tp :: tp in s'.table <==>
            tp in s.table && !(tp == s.objs[c].tuple && s.table[tp] == c))
      && (s.tick.TkUntrack? ==> s'.conns == s.conns - {c} && s'.table == s.table)
  {
  }

  // ----- dialling -----

  /** Dial finds an occupant that is not in TIME-WAIT and returns it as it is, or creates a
      connection of its 4-tuple in SYN-SENT with the caller's ISS and its SYN written. */
  lemma {:induction false} DialOutcome(s: Stack, d: nat, spare: Ref, env: Env)
    requires TableOk(s) && CanDial(s, d, spare)
    ensures var s', pc := DialStep(s, d, spare, env), s.dials[d];
      && (pc.DlInsert? ==> s'.objs == s.objs && s'.table == s.table)
      && (pc.DlInsert? && pc.tp in s.table && s.objs[s.table[pc.tp]].t.state != TimeWait ==>
            s'.dials[d] == DlDone(s.table[pc.tp]) && Known(s, s.table[pc.tp], pc.tp))
      && (pc.DlReplace? ==>
            && InTable(s', spare, pc.tp) && Known(s', spare, pc.tp) && s'.dials[d] == DlTrack(spare)
            && var t := s'.objs[spare].t;
            && t.state == SynSent && t.snd.iss == pc.iss && |t.wire| == 1
            && t.wire[0].flags == F_SYN && t.wire[0].seqNum == pc.iss)
      && (pc.DlTrack? ==> pc.c in s'.conns && s'.dials[d] == DlDone(pc.c))
  {
  }
}

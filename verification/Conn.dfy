/** One connection as the program has it: an object whose methods update its control block
    in place, under the connection's lock (tcp/transport/statemachine.go, data.go,
    flowcontrol.go).  Every method is proved against its function in StateMachine, about
    which the other modules prove what the connection guarantees. */
module Conn {
  import opened SeqNum
  import opened Addresses
  import opened Reassembly
  import opened Sack
  import opened Options
  import opened Segments
  import opened Congestion
  import opened ChallengeAck
  import opened Tcb
  import opened StateMachine

  /** One round of the flush loop. */
  lemma {:induction false} FlushContinues(t: Tcb, off: nat, d: nat, usable: nat, idle: bool, env: Env, goal: Tcb)
    requires FlushFrom(t, idle, env) == goal && t.snd.wnd != 0
    requires off == InFlight(t.snd) < |t.snd.buf| && d == |t.snd.buf| - off && usable == SendUsable(t.snd)
    requires CanSend(d, usable, EffMss(t.snd), t.snd.maxWnd, idle, t.snd.nagleDisabled)
    ensures var t' := StateMachine.EmitSegment(t, off, d, usable, env);
      && FlushFrom(t', idle, env) == goal
      && 0 <= |t'.snd.buf| - InFlight(t'.snd) < |t.snd.buf| - InFlight(t.snd)
  {
    FlushProgress(t, idle, env);
    EmitsNext(t, off, d, usable, env);
  }

  lemma {:induction false} EmitsNext(t: Tcb, off: nat, d: nat, usable: nat, env: Env)
    requires off == InFlight(t.snd) < |t.snd.buf| && d == |t.snd.buf| - off && usable == SendUsable(t.snd)
    ensures EmitNext(t, env) == StateMachine.EmitSegment(t, off, d, usable, env)
  {
  }

  lemma {:induction false} FlushProgress(t: Tcb, idle: bool, env: Env)
    requires MaySend(t.snd, idle)
    ensures var t' := EmitNext(t, env);
      && FlushFrom(t', idle, env) == FlushFrom(t, idle, env)
      && 0 <= |t'.snd.buf| - InFlight(t'.snd) < |t.snd.buf| - InFlight(t.snd)
  {
    EmitProgress(t, idle, env);
  }

  lemma {:induction false} FlushStops(t: Tcb, idle: bool, env: Env, goal: Tcb)
    requires FlushFrom(t, idle, env) == goal && !MaySend(t.snd, idle)
    ensures StopSending(t, env) == goal
  {
  }

  /** One round of the insertion and removal loops. */
  lemma {:induction false} InsertPasses(ooo: seq<Fragment>, i: nat, f: Fragment)
    requires i < |ooo| && SeqLT(ooo[i].start, f.start)
    ensures ooo[..i] + Reassembly.InsertOoo(ooo[i..], f) == ooo[..i + 1] + Reassembly.InsertOoo(ooo[i + 1..], f)
  {
    assert ooo[i..][1..] == ooo[i + 1..] && ooo[i..][0] == ooo[i];
    assert ooo[..i] + [ooo[i]] == ooo[..i + 1];
    var rest := Reassembly.InsertOoo(ooo[i + 1..], f);
    assert ooo[..i] + ([ooo[i]] + rest) == ooo[..i + 1] + rest;
  }

  lemma {:induction false} InsertStops(ooo: seq<Fragment>, i: nat, f: Fragment)
    requires i <= |ooo| && (i < |ooo| ==> !SeqLT(ooo[i].start, f.start))
    ensures ooo[..i] + Reassembly.InsertOoo(ooo[i..], f)
         == if i < |ooo| && ooo[i].start == f.start && |ooo[i].data| >= |f.data| then ooo else ooo[..i] + [f] + ooo[i..]
  {
    assert ooo[..i] + ooo[i..] == ooo;
    assert ooo[..i] + ([f] + ooo[i..]) == ooo[..i] + [f] + ooo[i..];
  }

  lemma {:induction false} RemovePasses(ooo: seq<Fragment>, i: nat, nxt: u32, kept: seq<Fragment>)
    requires i < |ooo|
    ensures kept + RemoveConsumed(ooo[i..], nxt)
         == (if SeqLEQ(FragEnd(ooo[i]), nxt) then kept else kept + [ooo[i]]) + RemoveConsumed(ooo[i + 1..], nxt)
  {
    assert ooo[i..][1..] == ooo[i + 1..] && ooo[i..][0] == ooo[i];
    var rest := RemoveConsumed(ooo[i + 1..], nxt);
    assert kept + ([ooo[i]] + rest) == (kept + [ooo[i]]) + rest;
  }

  class Connection {
    const tuple: FourTuple
    var tcb: Tcb

    constructor (tuple: FourTuple, iss: u32, buffTotal: u32, noDelay: bool, timeWait: Time, epoch: Time)
      ensures this.tuple == tuple && tcb == NewTcb(iss, buffTotal, noDelay, timeWait, epoch)
    {
      this.tuple := tuple;
      tcb := NewTcb(iss, buffTotal, noDelay, timeWait, epoch);
    }

    // ----- writing segments -----

    /** The window to advertise, raw on a SYN, otherwise shifted, saturated at 16 bits. */
    method AdvertisedWindow(flags: Flags) returns (w: u32)
      ensures w == WindowField(tcb, flags)
    {
      w := tcb.rcv.wnd;
      if !flags.syn {
        w := ShiftRight(w, tcb.neg.rcvShift);
      }
      if w > 65535 {
        w := 65535;
      }
    }

    method ChooseOptions(flags: Flags, given: Maybe, now: Time) returns (opts: TcpOptions)
      ensures opts == OptionsFor(tcb, flags, given, now)
    {
      opts := NO_OPTIONS;
      if given.Some? {
        opts := given.o;
      } else if tcb.neg.tsOk && !flags.syn && !flags.rst {
        opts := opts.(hasTimestamp := true, tsVal := TsNow(now));
        if flags.ack {
          opts := opts.(tsEcr := tcb.neg.tsRecent);
        }
      }
    }

    method WriteSegOpts(flags: Flags, seqNum: u32, ackNum: u32, payload: Payload, given: Maybe, now: Time)
      modifies this
      ensures tcb == WriteSeg(old(tcb), flags, seqNum, ackNum, payload, given, now)
    {
      var opts := ChooseOptions(flags, given, now);
      var w := AdvertisedWindow(flags);
      if flags.ack {
        tcb := tcb.(lastAckSent := ackNum);
      }
      tcb := tcb.(wire := tcb.wire + [Segment(flags, seqNum, ackNum, w, Options.Options(opts), payload)]);
    }

    method SendData(flags: Flags, seqNum: u32, ackNum: u32, payload: Payload, env: Env)
      modifies this
      ensures tcb == StateMachine.SendData(old(tcb), flags, seqNum, ackNum, payload, env)
    {
      WriteSegOpts(flags, seqNum, ackNum, payload, None, env.now);
      var seg := RetxSeg(seqNum, flags, payload, env.now, 0, false);
      if EntryLen(seg) == 0 {
        return;
      }
      if tcb.queue == [] {
        tcb := tcb.(rto := env.rto);
      }
      tcb := tcb.(queue := tcb.queue + [seg]);
    }

    method SendSyn(flags: Flags, seqNum: u32, ackNum: u32, env: Env)
      modifies this
      ensures tcb == StateMachine.SendSyn(old(tcb), flags, seqNum, ackNum, env)
    {
      var o := SynOptions(DEFAULT_MSS, MY_WINDOW_SCALE, TsNow(env.now), if ackNum != 0 then tcb.neg.tsRecent else 0);
      WriteSegOpts(flags, seqNum, ackNum, [], Some(o), env.now);
      if tcb.queue == [] {
        tcb := tcb.(rto := env.rto);
      }
      tcb := tcb.(queue := tcb.queue + [RetxSeg(seqNum, flags, [], env.now, 0, false)]);
    }

    method SendAck(env: Env)
      modifies this
      ensures tcb == StateMachine.SendAck(old(tcb), env)
    {
      tcb := tcb.(delAck := tcb.delAck.(armed := false, count := 0));
      WriteSegOpts(F_ACK, tcb.snd.nxt, tcb.rcv.nxt, [], AckOptions(tcb, env.now), env.now);
    }

    method AllowChallengeAck(now: Time) returns (ok: bool)
      modifies this
      ensures ok == Allows(old(tcb).throttle, now, LIMIT, WINDOW)
      ensures tcb == old(tcb).(throttle := Use(old(tcb).throttle, now, LIMIT, WINDOW))
    {
      if now - tcb.throttle.start > WINDOW {
        tcb := tcb.(throttle := Throttle(now, 0));
      }
      if tcb.throttle.count >= LIMIT {
        return false;
      }
      tcb := tcb.(throttle := tcb.throttle.(count := tcb.throttle.count + 1));
      return true;
    }

    method SendChallengeAck(env: Env)
      modifies this
      ensures tcb == StateMachine.SendChallengeAck(old(tcb), env)
    {
      var ok := AllowChallengeAck(env.now);
      if ok {
        SendData(F_ACK, tcb.snd.nxt, tcb.rcv.nxt, [], env);
      }
    }

    method SendRst(seqNum: u32, env: Env)
      modifies this
      ensures tcb == StateMachine.SendRst(old(tcb), seqNum, env)
    {
      SendData(F_RST, seqNum, 0, [], env);
    }

    // ----- flow-control timers -----

    method DisarmOverride()
      modifies this
      ensures tcb == StateMachine.DisarmOverride(old(tcb))
    {
      tcb := tcb.(override := tcb.override.(armed := false));
    }

    method ArmOverride(env: Env)
      modifies this
      ensures tcb == StateMachine.ArmOverride(old(tcb), env)
    {
      if tcb.override.armed {
        return;
      }
      tcb := tcb.(override := Override(true, env.now + OVERRIDE_TIMEOUT));
    }

    method DisarmPersist()
      modifies this
      ensures tcb == StateMachine.DisarmPersist(old(tcb))
    {
      tcb := tcb.(persist := tcb.persist.(armed := false, backoff := 0));
    }

    method ArmPersist(env: Env)
      modifies this
      ensures tcb == StateMachine.ArmPersist(old(tcb), env)
    {
      DisarmOverride();
      if tcb.persist.armed {
        return;
      }
      tcb := tcb.(persist := tcb.persist.(armed := true, deadline := env.now + PersistInterval(tcb.persist.backoff)));
    }

    // ----- sending data -----

    method EmitSegment(off: nat, d: nat, usable: nat, env: Env)
      requires off + d <= |tcb.snd.buf|
      modifies this
      ensures tcb == StateMachine.EmitSegment(old(tcb), off, d, usable, env)
    {
      var n := d;
      if n > usable {
        n := usable;
      }
      if n > DEFAULT_MSS {
        n := DEFAULT_MSS;
      }
      SendData(F_PSH_ACK, tcb.snd.nxt, tcb.rcv.nxt, tcb.snd.buf[off..off + n], env);
      tcb := tcb.(snd := tcb.snd.(nxt := Add(tcb.snd.nxt, n)));
      DisarmOverride();
    }

    method FlushSend(env: Env)
      modifies this
      ensures tcb == StateMachine.FlushSend(old(tcb), env)
    {
      var idle := tcb.snd.nxt == tcb.snd.una;
      ghost var goal := FlushFrom(tcb, idle, env);
      while true
        invariant FlushFrom(tcb, idle, env) == goal
        decreases |tcb.snd.buf| - InFlight(tcb.snd)
      {
        var off := Sub(tcb.snd.nxt, tcb.snd.una);
        if off >= |tcb.snd.buf| {
          FlushStops(tcb, idle, env, goal);
          DisarmOverride();
          DisarmPersist();
          return;
        }
        var d := |tcb.snd.buf| - off;
        if tcb.snd.wnd == 0 {
          FlushStops(tcb, idle, env, goal);
          ArmPersist(env);
          return;
        }
        var usable := SendUsable(tcb.snd);
        if !CanSend(d, usable, EffMss(tcb.snd), tcb.snd.maxWnd, idle, tcb.snd.nagleDisabled) {
          FlushStops(tcb, idle, env, goal);
          ArmOverride(env);
          return;
        }
        FlushContinues(tcb, off, d, usable, idle, env, goal);
        EmitSegment(off, d, usable, env);
      }
    }

    method Send(data: seq<u8>, env: Env) returns (r: SendResult)
      requires |tcb.snd.buf| + |data| <= SEND_LIMIT
      modifies this
      ensures r == SendOutcome(old(tcb).state, |data|)
      ensures tcb == StateMachine.Send(old(tcb), data, env)
    {
      match tcb.state {
        case Established =>
        case CloseWait =>
        case Listen => return NotEstablished;
        case SynSent => return NotEstablished;
        case SynReceived => return NotEstablished;
        case _ => return ConnClosed;
      }
      tcb := tcb.(snd := tcb.snd.(buf := tcb.snd.buf + data));
      FlushSend(env);
      return Sent(|data|);
    }

    method ProbePersist(env: Env)
      modifies this
      ensures tcb == StateMachine.ProbePersist(old(tcb), env)
    {
      var off := Sub(tcb.snd.nxt, tcb.snd.una);
      if off >= |tcb.snd.buf| || tcb.snd.wnd != 0 {
        return;
      }
      SendData(F_PSH_ACK, tcb.snd.nxt, tcb.rcv.nxt, [tcb.snd.buf[off]], env);
      tcb := tcb.(snd := tcb.snd.(nxt := Add(tcb.snd.nxt, 1)));
      tcb := tcb.(persist := tcb.persist.(backoff := tcb.persist.backoff + 1));
      tcb := tcb.(persist := tcb.persist.(deadline := env.now + PersistInterval(tcb.persist.backoff)));
    }

    method FireOverride(env: Env)
      modifies this
      ensures tcb == StateMachine.FireOverride(old(tcb), env)
    {
      var off := Sub(tcb.snd.nxt, tcb.snd.una);
      if off >= |tcb.snd.buf| {
        DisarmOverride();
        return;
      }
      var usable := SendUsable(tcb.snd);
      if usable == 0 {
        DisarmOverride();
        return;
      }
      EmitSegment(off, |tcb.snd.buf| - off, usable, env);
    }

    // ----- the tick -----

    method CheckRetransmit(env: Env)
      modifies this
      ensures tcb == StateMachine.CheckRetransmit(old(tcb), env)
    {
      if tcb.queue == [] {
        return;
      }
      var front := tcb.queue[0];
      if env.now < front.sentAt + tcb.rto {
        return;
      }
      if front.retries >= MAX_RETRANSMITS {
        tcb := tcb.(state := Closed, queue := [], rto := 0);
        return;
      }
      tcb := tcb.(snd := tcb.snd.(cong := OnRtoTimeout(tcb.snd.cong, Sub(tcb.snd.nxt, tcb.snd.una))));
      WriteSegOpts(front.flags, front.seqNum, tcb.rcv.nxt, front.payload, None, env.now);
      front := front.(retries := front.retries + 1, retransmitted := true, sentAt := env.now);
      tcb := tcb.(queue := tcb.queue[0 := front], rto := BackoffRto(tcb.rto));
      assert tcb.queue == [front] + old(tcb).queue[1..];
    }

    method CheckFlowTimers(env: Env)
      modifies this
      ensures tcb == CheckDelAck(CheckOverride(CheckPersist(old(tcb), env), env), env)
    {
      if tcb.persist.armed && env.now >= tcb.persist.deadline {
        ProbePersist(env);
      }
      if tcb.override.armed && env.now >= tcb.override.deadline {
        FireOverride(env);
      }
      if tcb.delAck.armed && env.now >= tcb.delAck.deadline {
        SendAck(env);
      }
    }

    method Tick(env: Env)
      modifies this
      ensures tcb == StateMachine.Tick(old(tcb), env)
    {
      if tcb.state == TimeWait && env.now >= tcb.timeWaitDeadline {
        tcb := tcb.(state := Closed);
      }
      CheckRetransmit(env);
      CheckFlowTimers(env);
    }

    // ----- opening and closing -----

    method ActiveOpen(iss: u32, env: Env)
      modifies this
      ensures tcb == StateMachine.ActiveOpen(old(tcb), iss, env)
    {
      tcb := tcb.(snd := tcb.snd.(iss := iss, una := iss, nxt := Add(iss, 1)));
      tcb := tcb.(rcv := tcb.rcv.(wnd := BuffCap(tcb.rcv)), state := SynSent);
      SendSyn(F_SYN, iss, 0, env);
    }

    method PassiveOpen()
      modifies this
      ensures tcb == StateMachine.PassiveOpen(old(tcb))
    {
      tcb := tcb.(rcv := tcb.rcv.(wnd := BuffCap(tcb.rcv)), state := Listen);
    }

    method Close(env: Env)
      modifies this
      ensures tcb == StateMachine.Close(old(tcb), env)
    {
      match tcb.state {
        case Listen =>
          tcb := tcb.(state := Closed);
        case SynSent =>
          tcb := tcb.(state := Closed, queue := [], rto := 0);
        case Established => SendFin(FinWait1, env);
        case SynReceived => SendFin(FinWait1, env);
        case CloseWait => SendFin(LastAck, env);
        case _ =>
      }
    }

    method SendFin(next: State, env: Env)
      modifies this
      ensures tcb == StateMachine.SendFin(old(tcb), next, env)
    {
      SendData(F_FIN_ACK, tcb.snd.nxt, tcb.rcv.nxt, [], env);
      tcb := tcb.(snd := tcb.snd.(nxt := Add(tcb.snd.nxt, 1)), state := next);
    }

    // ----- acknowledgements -----

    method AckRetxQueue(ack: u32, env: Env)
      modifies this
      ensures tcb == AckQueue(old(tcb), ack, env)
    {
      var removed := false;
      while tcb.queue != []
        invariant PopAcked(tcb.queue, ack) == PopAcked(old(tcb).queue, ack)
        invariant tcb == old(tcb).(queue := tcb.queue) && |tcb.queue| <= |old(tcb).queue|
        invariant if removed then |tcb.queue| < |old(tcb).queue| else tcb == old(tcb)
        decreases |tcb.queue|
      {
        var s := tcb.queue[0];
        if !SeqLEQ(Add(s.seqNum, EntryLen(s)), ack) {
          break;
        }
        tcb := tcb.(queue := tcb.queue[1..]);
        removed := true;
      }
      assert PopAcked(old(tcb).queue, ack) == tcb.queue;
      if !removed {
        return;
      }
      if tcb.queue == [] {
        tcb := tcb.(rto := 0);
        return;
      }
      var front := tcb.queue[0].(sentAt := env.now);
      assert tcb.queue[0 := front] == [front] + tcb.queue[1..];
      tcb := tcb.(rto := env.rto, queue := tcb.queue[0 := front]);
    }

    method ReleaseAckedSend(oldUna: u32)
      modifies this
      ensures tcb == old(tcb).(snd := old(tcb).snd.(
        buf := ReleaseAcked(old(tcb).snd.buf, Sub(old(tcb).snd.una, oldUna))))
    {
      var acked := Sub(tcb.snd.una, oldUna);
      if acked == 0 {
        return;
      }
      if acked > |tcb.snd.buf| {
        acked := |tcb.snd.buf|;
      }
      tcb := tcb.(snd := tcb.snd.(buf := tcb.snd.buf[acked..]));
    }

    method FastRetransmit(env: Env)
      modifies this
      ensures tcb == StateMachine.FastRetransmit(old(tcb), env)
    {
      if tcb.queue == [] {
        return;
      }
      var front := tcb.queue[0];
      WriteSegOpts(front.flags, front.seqNum, tcb.rcv.nxt, front.payload, None, env.now);
      front := front.(retransmitted := true, sentAt := env.now);
      tcb := tcb.(queue := tcb.queue[0 := front]);
      assert tcb.queue == [front] + old(tcb).queue[1..];
    }

    method OnDuplicateAck(env: Env)
      modifies this
      ensures tcb == StateMachine.OnDuplicateAck(old(tcb), env)
    {
      var flightSize := Sub(tcb.snd.nxt, tcb.snd.una);
      if flightSize == 0 {
        return;
      }
      var wasFR := tcb.snd.cong.state == FastRecovery;
      tcb := tcb.(snd := tcb.snd.(cong := OnDupAck(tcb.snd.cong, flightSize)));
      if !wasFR && tcb.snd.cong.state == FastRecovery {
        FastRetransmit(env);
      }
    }

    method UpdateSendWindow(s: Segment)
      modifies this
      ensures tcb == StateMachine.UpdateSendWindow(old(tcb), s)
    {
      var w := ScaleWindow(s.window, tcb.neg.sndShift);
      if SeqLT(tcb.snd.wl1, s.seqNum) || (tcb.snd.wl1 == s.seqNum && SeqLEQ(tcb.snd.wl2, s.ackNum)) {
        tcb := tcb.(snd := tcb.snd.(wnd := w, wl1 := s.seqNum, wl2 := s.ackNum));
        if w > 0 {
          DisarmPersist();
        }
      }
      if w > tcb.snd.maxWnd {
        tcb := tcb.(snd := tcb.snd.(maxWnd := w));
      }
    }

    method RestartTimeWait(env: Env)
      modifies this
      ensures tcb == old(tcb).(timeWaitDeadline := env.now + old(tcb).timeWaitDuration)
    {
      tcb := tcb.(timeWaitDeadline := env.now + tcb.timeWaitDuration);
    }

    method EnterTimeWait(env: Env)
      modifies this
      ensures tcb == StateMachine.EnterTimeWait(old(tcb), env)
    {
      tcb := tcb.(state := TimeWait);
      RestartTimeWait(env);
    }

    method AdvanceStateOnAck(env: Env)
      modifies this
      ensures tcb == AdvanceOnAck(old(tcb), env)
    {
      match tcb.state {
        case SynReceived =>
          tcb := tcb.(state := Established, reachedEstablished := true);
        case FinWait1 =>
          if FinAcked(tcb) {
            tcb := tcb.(state := FinWait2);
          }
        case Closing =>
          if FinAcked(tcb) {
            EnterTimeWait(env);
          }
        case LastAck =>
          if FinAcked(tcb) {
            tcb := tcb.(state := Closed);
          }
        case _ =>
      }
    }

    method TakeAck(s: Segment, env: Env)
      modifies this
      ensures tcb == NoteAck(old(tcb), s, env)
    {
      if AcceptableAck(tcb.snd.una, s.ackNum, tcb.snd.nxt) {
        var oldUna := tcb.snd.una;
        tcb := tcb.(snd := tcb.snd.(una := s.ackNum));
        AckRetxQueue(s.ackNum, env);
        ReleaseAckedSend(oldUna);
        tcb := tcb.(snd := tcb.snd.(cong := OnNewAck(tcb.snd.cong, Sub(s.ackNum, oldUna))));
      } else if IsDupAck(tcb, s) {
        OnDuplicateAck(env);
      }
    }

    method HandleAck(s: Segment, env: Env) returns (ok: bool)
      modifies this
      ensures ok == AckAccepted(old(tcb), s)
      ensures tcb == if ok then StateMachine.HandleAck(old(tcb), s, env) else RefuseAck(old(tcb), s, env)
    {
      var lo := AckFloor(tcb);
      if tcb.state == SynReceived && !AcceptableAck(tcb.snd.una, s.ackNum, tcb.snd.nxt) {
        if SeqLT(s.ackNum, lo) || SeqGT(s.ackNum, tcb.snd.nxt) {
          SendRst(s.ackNum, env);
        } else {
          SendChallengeAck(env);
        }
        return false;
      }
      if SeqLT(s.ackNum, lo) || SeqGT(s.ackNum, tcb.snd.nxt) {
        SendChallengeAck(env);
        return false;
      }
      TakeAck(s, env);
      UpdateSendWindow(s);
      AdvanceStateOnAck(env);
      FlushSend(env);
      return true;
    }

    // ----- receiving data -----

    method InsertOoo(f: Fragment)
      modifies this
      ensures tcb == old(tcb).(rcv := old(tcb).rcv.(
        ooo := Reassembly.InsertOoo(old(tcb).rcv.ooo, f), lastOoo := f.start))
    {
      tcb := tcb.(rcv := tcb.rcv.(lastOoo := f.start));
      var ooo := tcb.rcv.ooo;
      var i := 0;
      while i < |ooo| && SeqLT(ooo[i].start, f.start)
        invariant i <= |ooo| && tcb == old(tcb).(rcv := old(tcb).rcv.(lastOoo := f.start))
        invariant Reassembly.InsertOoo(ooo, f) == ooo[..i] + Reassembly.InsertOoo(ooo[i..], f)
      {
        InsertPasses(ooo, i, f);
        i := i + 1;
      }
      InsertStops(ooo, i, f);
      if i < |ooo| && ooo[i].start == f.start && |ooo[i].data| >= |f.data| {
        return;
      }
      tcb := tcb.(rcv := tcb.rcv.(ooo := ooo[..i] + [f] + ooo[i..]));
    }

    method RemoveFullyConsumedOoo()
      modifies this
      ensures tcb == old(tcb).(rcv := old(tcb).rcv.(ooo := RemoveConsumed(old(tcb).rcv.ooo, old(tcb).rcv.nxt)))
    {
      var ooo, nxt := tcb.rcv.ooo, tcb.rcv.nxt;
      var kept := [];
      var i := 0;
      while i < |ooo|
        invariant i <= |ooo| && tcb == old(tcb)
        invariant RemoveConsumed(ooo, nxt) == kept + RemoveConsumed(ooo[i..], nxt)
      {
        RemovePasses(ooo, i, nxt, kept);
        if !SeqLEQ(FragEnd(ooo[i]), nxt) {
          kept := kept + [ooo[i]];
        }
        i := i + 1;
      }
      assert ooo[i..] == [] && kept + [] == kept;
      tcb := tcb.(rcv := tcb.rcv.(ooo := kept));
    }

    /** The held fragment to take next, or -1: the inner loop of drainOoo. */
    method FindCovering() returns (idx: int)
      ensures idx == FindCover(tcb.rcv.ooo, tcb.rcv.nxt)
    {
      idx := -1;
      var i := 0;
      while i < |tcb.rcv.ooo|
        invariant i <= |tcb.rcv.ooo|
        invariant var k := FindCover(tcb.rcv.ooo[i..], tcb.rcv.nxt);
          FindCover(tcb.rcv.ooo, tcb.rcv.nxt) == if k < 0 then -1 else k + i
      {
        var s := tcb.rcv.ooo[i];
        assert tcb.rcv.ooo[i..][1..] == tcb.rcv.ooo[i + 1..];
        if !SeqLEQ(FragEnd(s), tcb.rcv.nxt) {
          if SeqLEQ(s.start, tcb.rcv.nxt) {
            idx := i;
            break;
          }
        }
        i := i + 1;
      }
    }

    method DrainOoo()
      modifies this
      ensures tcb == old(tcb).(rcv := Reassembly.DrainOoo(old(tcb).rcv))
    {
      while true
        invariant Reassembly.DrainOoo(tcb.rcv) == Reassembly.DrainOoo(old(tcb).rcv)
        invariant tcb == old(tcb).(rcv := tcb.rcv)
        decreases |tcb.rcv.ooo|
      {
        var idx := FindCovering();
        if idx == -1 {
          break;
        }
        var s := tcb.rcv.ooo[idx];
        CoverSkip(s, tcb.rcv.nxt);
        var newData := s.data[Sub(tcb.rcv.nxt, s.start)..];
        RemoveDropsOne(tcb.rcv.ooo, idx, Add(tcb.rcv.nxt, |newData|));
        ghost var absorbed := Absorb(tcb.rcv, idx);
        tcb := tcb.(rcv := tcb.rcv.(buf := tcb.rcv.buf + newData, nxt := Add(tcb.rcv.nxt, |newData|)));
        RemoveFullyConsumedOoo();
        assert tcb.rcv == absorbed;
      }
      RemoveFullyConsumedOoo();
    }

    method ConsumeRcvWindow(n: u32)
      modifies this
      ensures tcb == old(tcb).(rcv := old(tcb).rcv.(wnd := ConsumeWindow(old(tcb).rcv.wnd, n)))
    {
      if tcb.rcv.wnd > n {
        tcb := tcb.(rcv := tcb.rcv.(wnd := tcb.rcv.wnd - n));
      } else {
        tcb := tcb.(rcv := tcb.rcv.(wnd := 0));
      }
    }

    method TrimToWindow(start: u32, payload: Payload) returns (f: Fragment)
      ensures f == Reassembly.TrimToWindow(tcb.rcv, start, payload)
    {
      var at, data := start, payload;
      var end := Add(start, |payload|);
      if SeqLT(at, tcb.rcv.nxt) {
        var skip := Sub(tcb.rcv.nxt, at);
        if skip >= |data| {
          return Fragment(tcb.rcv.nxt, []);
        }
        data := data[skip..];
        at := tcb.rcv.nxt;
      }
      var winEnd := Add(tcb.rcv.nxt, tcb.rcv.wnd);
      if SeqGT(end, winEnd) {
        var over := Sub(end, winEnd);
        if over >= |data| {
          return Fragment(at, []);
        }
        data := data[..|data| - over];
      }
      return Fragment(at, data);
    }

    method OnDelayableSegment(env: Env)
      modifies this
      ensures tcb == OnDelayable(old(tcb), env)
    {
      tcb := tcb.(delAck := tcb.delAck.(count := tcb.delAck.count + 1));
      if tcb.delAck.count >= 2 {
        SendAck(env);
        return;
      }
      if !tcb.delAck.armed {
        tcb := tcb.(delAck := tcb.delAck.(armed := true, deadline := env.now + DEL_ACK_TIMEOUT));
      }
    }

    method AcceptText(s: Segment, env: Env)
      modifies this
      ensures tcb == StateMachine.AcceptText(old(tcb), s, env)
    {
      if s.payload == [] {
        return;
      }
      var f := TrimToWindow(s.seqNum, s.payload);
      if f.data == [] {
        SendAck(env);
        return;
      }
      var before := tcb.rcv.nxt;
      var inOrder := f.start == tcb.rcv.nxt;
      if inOrder {
        tcb := tcb.(rcv := tcb.rcv.(buf := tcb.rcv.buf + f.data, nxt := Add(tcb.rcv.nxt, |f.data|)));
        DrainOoo();
      } else {
        InsertOoo(f);
      }
      ConsumeRcvWindow(Sub(tcb.rcv.nxt, before));
      assert tcb == old(tcb).(rcv := Accept(old(tcb).rcv, s.seqNum, s.payload));
      if inOrder && tcb.rcv.ooo == [] && |f.data| >= EffMss(tcb.snd) {
        OnDelayableSegment(env);
      } else {
        SendAck(env);
      }
    }

    method Recv(max: nat, env: Env) returns (r: RecvResult)
      modifies this
      ensures r == RecvOutcome(old(tcb).rcv, max)
      ensures tcb == StateMachine.Recv(old(tcb), max, env)
    {
      if tcb.rcv.buf == [] {
        if FinReached(tcb.rcv) {
          return Eof;
        }
        return Nothing;
      }
      var n := Min(max, |tcb.rcv.buf|);
      var bytes := tcb.rcv.buf[..n];
      tcb := tcb.(rcv := tcb.rcv.(buf := tcb.rcv.buf[n..]));
      var wnd := tcb.rcv.wnd;
      tcb := tcb.(rcv := tcb.rcv.(wnd := AdvertiseWindow(BuffCap(tcb.rcv), |tcb.rcv.buf|, wnd, EffMss(tcb.snd))));
      if tcb.rcv.wnd > wnd && Synchronized(tcb.state) {
        SendAck(env);
      }
      return Data(bytes);
    }

    method HandleFin(env: Env)
      modifies this
      ensures tcb == StateMachine.HandleFin(old(tcb), env)
    {
      tcb := tcb.(rcv := tcb.rcv.(peerFin := true, peerFinSeq := tcb.rcv.nxt));
      tcb := tcb.(rcv := tcb.rcv.(nxt := Add(tcb.rcv.nxt, 1)));
      SendAck(env);
      match tcb.state {
        case Established =>
          tcb := tcb.(state := CloseWait);
        case SynReceived =>
          tcb := tcb.(state := CloseWait);
        case FinWait1 =>
          if FinAcked(tcb) {
            EnterTimeWait(env);
          } else {
            tcb := tcb.(state := Closing);
          }
        case FinWait2 => EnterTimeWait(env);
        case TimeWait => RestartTimeWait(env);
        case _ =>
      }
    }

    // ----- arriving segments -----

    method OnSegmentClosed(s: Segment, env: Env)
      modifies this
      ensures tcb == OnClosed(old(tcb), s, env)
    {
      if s.flags.rst {
        return;
      }
      if s.flags.ack {
        SendRst(s.ackNum, env);
      } else {
        SendRst(0, env);
        SendData(F_RST_ACK, 0, Add(s.seqNum, SegLen(s)), [], env);
      }
    }

    method NegotiateOptions(s: Segment)
      modifies this
      ensures tcb == Negotiate(old(tcb), s)
    {
      if s.opts.Malformed? {
        return;
      }
      var o := OptionsOf(s);
      if o.hasWScale {
        tcb := tcb.(neg := tcb.neg.(sndShift := ClampWScale(o.windowScale), rcvShift := MY_WINDOW_SCALE));
      }
      if o.hasTimestamp {
        tcb := tcb.(neg := tcb.neg.(tsOk := true, tsRecent := o.tsVal));
      }
      if o.sackPermitted {
        tcb := tcb.(neg := tcb.neg.(sackOk := true));
      }
      tcb := tcb.(snd := tcb.snd.(mss := if o.hasMss then o.mss else DEFAULT_SEND_MSS));
    }

    method InitSendWindow(s: Segment)
      modifies this
      ensures tcb == StateMachine.InitSendWindow(old(tcb), s)
    {
      tcb := tcb.(snd := tcb.snd.(wnd := s.window, wl1 := s.seqNum, wl2 := s.ackNum));
      if s.window > tcb.snd.maxWnd {
        tcb := tcb.(snd := tcb.snd.(maxWnd := s.window));
      }
    }

    method OnSegmentListen(s: Segment, env: Env)
      modifies this
      ensures tcb == OnListen(old(tcb), s, env)
    {
      if s.flags.rst {
        return;
      }
      if s.flags.ack {
        SendRst(s.ackNum, env);
        return;
      }
      if s.flags.syn {
        tcb := tcb.(rcv := tcb.rcv.(irs := s.seqNum, nxt := Add(s.seqNum, 1)));
        tcb := tcb.(snd := tcb.snd.(una := tcb.snd.iss, nxt := Add(tcb.snd.iss, 1)));
        tcb := tcb.(origin := Passive, state := SynReceived);
        NegotiateOptions(s);
        InitSendWindow(s);
        SendSyn(F_SYN_ACK, tcb.snd.iss, tcb.rcv.nxt, env);
      }
    }

    method OnSegmentSynSent(s: Segment, env: Env)
      modifies this
      ensures tcb == OnSynSent(old(tcb), s, env)
    {
      if s.flags.ack && (SeqLEQ(s.ackNum, tcb.snd.iss) || SeqGT(s.ackNum, tcb.snd.nxt)) {
        if !s.flags.rst {
          SendRst(s.ackNum, env);
        }
        return;
      }
      if s.flags.rst {
        if s.flags.ack {
          tcb := tcb.(state := Closed);
        }
        return;
      }
      if !s.flags.syn {
        return;
      }
      tcb := tcb.(rcv := tcb.rcv.(irs := s.seqNum, nxt := Add(s.seqNum, 1)));
      NegotiateOptions(s);
      if s.flags.ack {
        tcb := tcb.(snd := tcb.snd.(una := s.ackNum));
        AckRetxQueue(s.ackNum, env);
        InitSendWindow(s);
        tcb := tcb.(state := Established, reachedEstablished := true);
        SendAck(env);
      } else {
        tcb := tcb.(origin := Active, state := SynReceived);
        SendSyn(F_SYN_ACK, tcb.snd.iss, tcb.rcv.nxt, env);
      }
    }

    method ResetConnection()
      modifies this
      ensures tcb == StateMachine.ResetConnection(old(tcb))
    {
      if tcb.state == SynReceived && tcb.origin == Passive {
        tcb := tcb.(state := Listen);
        return;
      }
      tcb := tcb.(state := Closed);
    }

    method HandleRst(s: Segment, env: Env)
      modifies this
      ensures tcb == StateMachine.HandleRst(old(tcb), s, env)
    {
      if !InWindow(tcb.rcv.nxt, tcb.rcv.wnd, s.seqNum) {
        return;
      }
      if s.seqNum != tcb.rcv.nxt {
        SendChallengeAck(env);
        return;
      }
      ResetConnection();
    }

    method OnSegmentSynchronized(s: Segment, env: Env)
      modifies this
      ensures tcb == OnSynchronized(old(tcb), s, env)
    {
      if tcb.state == TimeWait && s.flags.fin && !s.flags.rst {
        SendAck(env);
        RestartTimeWait(env);
        return;
      }
      if PawsStale(tcb, s) {
        SendAck(env);
        return;
      }
      if !Acceptable(tcb.rcv, s) && !s.flags.rst {
        SendAck(env);
        return;
      }
      if s.flags.rst {
        HandleRst(s, env);
        return;
      }
      if s.flags.syn {
        SendChallengeAck(env);
        return;
      }
      tcb := UpdateTsRecent(tcb, s);
      if !s.flags.ack {
        return;
      }
      var ok := HandleAck(s, env);
      if !ok {
        return;
      }
      AcceptText(s, env);
      if s.flags.fin && Add(s.seqNum, SegLen(s) - 1) == tcb.rcv.nxt {
        HandleFin(env);
      }
    }

    method OnSegment(s: Segment, env: Env)
      modifies this
      ensures tcb == StateMachine.OnSegment(old(tcb), s, env)
    {
      match tcb.state {
        case Closed => OnSegmentClosed(s, env);
        case Listen => OnSegmentListen(s, env);
        case SynSent => OnSegmentSynSent(s, env);
        case _ => OnSegmentSynchronized(s, env);
      }
    }
  }
}

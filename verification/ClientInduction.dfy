/** Every step, and so every run, keeps the invariant: the case analysis over program counters. */
module ClientInduction {
  import opened Basics
  import opened RequestTable
  import opened ClientProtocol
  import opened ClientInvariant
  import opened ClientRequests
  import opened ClientLifecycle

  // ----- The invariant is inductive

  lemma SendRejects(s: State, t: nat, c: Choice)
    requires Inv(s) && t < |s.threads| && s.threads[t].SendReject? && StepSend(s, t, c).Some?
    ensures Inv(StepSend(s, t, c).value)
  {
    hide InvRequests, InvLifecycle;
    assert ThreadOk(FactsOf(s), t, s.threads[t]);
    AnswerKeeps(s, t, s.threads[t].r, s.threads[t].why, Finished);
  }

  lemma SendAdds(s: State, t: nat, c: Choice)
    requires Inv(s) && t < |s.threads| && s.threads[t].SendAdd? && StepSend(s, t, c).Some?
    ensures Inv(StepSend(s, t, c).value)
  {
    hide InvRequests, InvLifecycle;
    var r := s.threads[t].r;
    if s.conn.shutdown > 0 { MoveKeeps(s, t, SendReject(r, ErrShutdown)); } else { RegisterKeeps(s, t, r); }
  }

  lemma SendKeeps(s: State, t: nat, c: Choice)
    requires Inv(s) && t < |s.threads| && StepSend(s, t, c).Some?
    ensures Inv(StepSend(s, t, c).value)
  {
    hide InvRequests, InvLifecycle;
    match s.threads[t]
    case SendReject(_, _) => SendRejects(s, t, c);
    case SendAdd(_) => SendAdds(s, t, c);
    case _ => SendMoves(s, t, c);
  }

  lemma ReadLookups(s: State, t: nat, c: Choice)
    requires Inv(s) && t < |s.threads| && s.threads[t].ReadLookup? && StepRead(s, t, c).Some?
    ensures Inv(StepRead(s, t, c).value)
  {
    hide InvRequests, InvLifecycle;
    TakeOutKeeps(s, t, s.threads[t].id);
    if Remove(s.q.table, s.threads[t].id).1 == None { MoveKeeps(s, t, ReadCheck); }
  }

  lemma ReadDelivers(s: State, t: nat, c: Choice)
    requires Inv(s) && t < |s.threads| && s.threads[t].ReadDeliver? && StepRead(s, t, c).Some?
    ensures Inv(StepRead(s, t, c).value)
  {
    hide InvRequests, InvLifecycle;
    assert ThreadOk(FactsOf(s), t, s.threads[t]);
    AnswerKeeps(s, t, s.threads[t].r, Reply(s.threads[t].id), ReadCheck);
  }

  lemma ReadKeeps(s: State, t: nat, c: Choice)
    requires Inv(s) && t < |s.threads| && StepRead(s, t, c).Some?
    ensures Inv(StepRead(s, t, c).value)
  {
    hide InvRequests, InvLifecycle;
    match s.threads[t]
    case ReadLookup(_) => ReadLookups(s, t, c);
    case ReadDeliver(_, _) => ReadDelivers(s, t, c);
    case ReadDone => DoneKeeps(s, t);
    case _ => ReadMoves(s, t, c);
  }

  lemma DiscLoops(s: State, t: nat)
    requires Inv(s) && t < |s.threads| && StepDisc(s, t).Some? && s.threads[t].DiscLoop?
    ensures Inv(StepDisc(s, t).value)
  {
    hide InvRequests, InvLifecycle;
    var who, i := s.threads[t].who, s.threads[t].i;
    if i < |s.q.table.list| {
      FailKeeps(s, t, i, ErrDisconnect, DiscLoop(who, i + 1));
    } else {
      DiscMoves(s, t);
    }
  }

  lemma DiscCloses(s: State, t: nat)
    requires Inv(s) && t < |s.threads| && StepDisc(s, t).Some?
    requires s.threads[t].DiscClear? || s.threads[t].DiscShutCheck? || s.threads[t].DiscShutClose?
    ensures Inv(StepDisc(s, t).value)
  {
    hide InvRequests, InvLifecycle;
    var who := s.threads[t].who;
    if s.threads[t].DiscClear? {
      RemoveAllKeeps(s, t, DiscShutCheck(who));
    } else if s.threads[t].DiscShutCheck? {
      DiscMoves(s, t);
    } else {
      CloseShutdownKeeps(s, t, DiscUnlock(who));
    }
  }

  lemma DiscKeeps(s: State, t: nat)
    requires Inv(s) && t < |s.threads| && StepDisc(s, t).Some?
    ensures Inv(StepDisc(s, t).value)
  {
    hide InvRequests, InvLifecycle;
    match s.threads[t]
    case DiscMtx(who) =>
      if s.conn.disconnected { DiscReturns(s, t); } else { DisconnectKeeps(s, t, DiscLock(who)); }
    case DiscLock(_) => DiscLocks(s, t);
    case DiscLoop(_, _) => DiscLoops(s, t);
    case DiscUnlock(_) => DiscUnlocks(s, t);
    case _ => DiscCloses(s, t);
  }

  lemma ShutLoops(s: State, t: nat)
    requires Inv(s) && t < |s.threads| && s.threads[t].ShutLoop? && StepShut(s, t).Some?
    ensures Inv(StepShut(s, t).value)
  {
    hide InvRequests, InvLifecycle;
    var i := s.threads[t].i;
    if i < |s.q.table.list| { FailKeeps(s, t, i, ErrShutdown, ShutLoop(i + 1)); } else { ShutMoves(s, t); }
  }

  lemma ShutDisconnects(s: State, t: nat)
    requires Inv(s) && t < |s.threads| && s.threads[t].ShutMtx? && StepShut(s, t).Some?
    ensures Inv(StepShut(s, t).value)
  {
    hide InvRequests, InvHandler, InvLife, InvWg;
    if s.conn.disconnected {
      assert DoDisconnect(s.conn) == s.conn;
      ShutMoves(s, t);
    } else {
      DisconnectKeeps(s, t, ShutUnlock);
    }
  }

  lemma ShutKeeps(s: State, t: nat)
    requires Inv(s) && t < |s.threads| && StepShut(s, t).Some?
    ensures Inv(StepShut(s, t).value)
  {
    hide InvRequests, InvLifecycle;
    match s.threads[t]
    case ShutClose => CloseShutdownKeeps(s, t, ShutLoop(0));
    case ShutLoop(_) => ShutLoops(s, t);
    case ShutClear => RemoveAllKeeps(s, t, ShutMtx);
    case ShutMtx => ShutDisconnects(s, t);
    case ShutCheck => ShutMoves(s, t);
    case _ => ShutLocks(s, t);
  }

  lemma HandlerEstablished(s: State, t: nat)
    requires Inv(s) && t < |s.threads| && IsHandler(s.threads[t])
    ensures s.conn.established > 0
  {
    hide InvRequests, InvShutdown, InvHandler, InvLife, InvWg;
    assert ThreadOk(FactsOf(s), t, s.threads[t]);
  }

  lemma ResendSpawns(s: State, t: nat)
    requires Inv(s) && t < |s.threads| && s.threads[t] == HandResend
    ensures Inv(Spawn(Goto(s, t, HandWait), ResendSnap))
  {
    hide InvRequests, InvLifecycle;
    MoveKeeps(s, t, HandWait);
    var u := Goto(s, t, HandWait);
    assert u.threads != [];
    HandlerEstablished(s, t);
    SpawnKeeps(u, ResendSnap);
  }

  lemma HandKeeps(s: State, t: nat, c: Choice)
    requires Inv(s) && t < |s.threads| && StepHand(s, t, c).Some?
    ensures Inv(StepHand(s, t, c).value)
  {
    hide InvRequests, InvLifecycle;
    match s.threads[t]
    case HandDial => if c == Tau { DialKeeps(s, t, HandReset); } else { HandDials(s, t, c); }
    case HandReset => ResetKeeps(s, t);
    case HandStart => StartKeeps(s, t, HandResend);
    case HandResend => ResendSpawns(s, t);
    case HandDone => DoneKeeps(s, t);
    case _ => HandMoves(s, t, c);
  }

  lemma ResendKeeps(s: State, t: nat, c: Choice)
    requires Inv(s) && t < |s.threads| && StepResend(s, t, c).Some?
    ensures Inv(StepResend(s, t, c).value)
  {
    hide InvRequests, InvLifecycle;
    match s.threads[t]
    case ResendSnap => DropKeeps(s, t);
    case ResendCheck(_) => ResendChecks(s, t, c);
    case _ => ResendMoves(s, t, c);
  }

  lemma ConnectKeeps(s: State, t: nat, c: Choice)
    requires Inv(s) && t < |s.threads| && StepConnect(s, t, c).Some?
    ensures Inv(StepConnect(s, t, c).value)
  {
    hide InvRequests, InvHandler, InvLife, InvWg;
    match s.threads[t]
    case NewEst => EstablishKeeps(s, t, NewStart);
    case NewStart => StartKeeps(s, t, NewHandler);
    case NewHandler => StartHandlerKeeps(s, t, Finished);
    case ConnLock(_) => ConnectLocks(s, t, c);
    case ConnDial(_, _) =>
      if StepConnect(s, t, c).value.threads[t].ConnEst? { DialKeeps(s, t, ConnEst); } else { ConnectRetries(s, t, c); }
    case ConnEst => EstablishKeeps(s, t, ConnStart);
    case ConnStart => StartKeeps(s, t, ConnHandler);
    case ConnHandler => StartHandlerKeeps(s, t, ConnUnlock);
    case ConnUnlock => ConnectUnlocks(s, t, c);
  }

  lemma WriteKeeps(s: State, t: nat, c: Choice)
    requires Inv(s) && t < |s.threads| && StepWrite(s, t, c).Some?
    ensures Inv(StepWrite(s, t, c).value)
  {
    hide InvRequests, InvLifecycle;
    if s.threads[t].WriteDone? {
      if s.queued > 0 { QueueAside(s, s.queued - 1); } else { DoneKeeps(s, t); }
    } else {
      WriteMoves(s, t, c);
    }
  }

  lemma StepKeeps(s: State, a: Action)
    requires Inv(s) && Step(s, a).Some?
    ensures Inv(Step(s, a).value)
  {
    hide InvRequests, InvLifecycle;
    match a
    case Call(name, marshals) =>
      CallKeeps(s, name, if marshals then SendCheck(|s.q.methods|) else SendReject(|s.q.methods|, ErrMarshal));
    case Receive(r) => ReceiveKeeps(s, r);
    case CallDisconnect => SpawnKeeps(s, DiscMtx(ByUser));
    case CallShutdown => SpawnKeeps(s, ShutLock);
    case CallConnect(tries) => SpawnKeeps(s, ConnLock(tries));
    case Run(t, c) =>
      match KindOf(s.threads[t])
      case KSend => SendKeeps(s, t, c);
      case KRead => ReadKeeps(s, t, c);
      case KWrite => WriteKeeps(s, t, c);
      case KDisc => DiscKeeps(s, t);
      case KShut => ShutKeeps(s, t);
      case KHand => HandKeeps(s, t, c);
      case KResend => ResendKeeps(s, t, c);
      case KConnect => ConnectKeeps(s, t, c);
  }

  lemma {:induction false} ExecKeeps(s: State, run: seq<Action>)
    requires Inv(s) && Exec(s, run).Some?
    ensures Inv(Exec(s, run).value)
    decreases |run|
  {
    hide InvRequests, InvLifecycle;
    if run != [] {
      ExecKeeps(s, run[..|run|-1]);
      StepKeeps(Exec(s, run[..|run|-1]).value, run[|run|-1]);
    }
  }

  lemma ReachableInv(s: State)
    requires Reachable(s)
    ensures Inv(s)
  {
    hide InvRequests, InvLifecycle;
    var run :| Exec(Init(s.cfg), run) == Some(s);
    InitInv(s.cfg);
    ExecKeeps(Init(s.cfg), run);
  }
}

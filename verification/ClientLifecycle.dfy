/** The steps that change the connection or start goroutines keep the invariant. */
module ClientLifecycle {
  import opened Basics
  import opened ClientProtocol
  import opened ClientInvariant

  /** Thread `t` moves to `next` and changes the connection in a way nobody can object to. */
  lemma ActKeeps(s: State, u: State, t: nat, next: Pc)
    requires Inv(s) && t < |s.threads| && u.threads == s.threads[t := next] && u.q == s.q && u.conn.wg == s.conn.wg
    requires SendOf(next) == SendOf(s.threads[t]) && DeliveryOf(next) == DeliveryOf(s.threads[t])
    requires Counts(next) == Counts(s.threads[t]) && Cursor(u) == Cursor(s)
    requires Harmless(FactsOf(s), FactsOf(u), t) && ThreadOk(FactsOf(u), t, next)
    requires InvShutdown(u) && InvConn(u.conn, u.cfg.connectOnNew) && InvHandler(u) && InvLife(u)
    ensures Inv(u)
  {
    hide InvThreads, InvTable, InvPending, InvOwners, InvLog, InvShutdown, InvConn, InvHandler, InvLife;
    hide Cursor, SendOf, DeliveryOf, Counts, Harmless, ThreadOk;
    ThreadsStep(s, u, t);
    OwnersMove(s.q.where, s.threads, t, next);
    TotalUpdate(s.threads, t, next);
  }

  // ----- doDisconnect, doShutdown, wg.Done

  lemma DisconnectLife(s: State, u: State, t: nat, next: Pc)
    requires InvThreads(s) && InvLifecycle(s) && t < |s.threads| && s.mtx == None && !s.conn.disconnected
    requires (s.threads[t].DiscMtx? && next == DiscLock(s.threads[t].who))
        || (s.threads[t] == ShutMtx && next == ShutUnlock)
    requires u == Goto(s, t, next).(conn := DoDisconnect(s.conn))
    ensures InvShutdown(u) && InvConn(u.conn, u.cfg.connectOnNew) && InvHandler(u) && InvLife(u)
  {
    assert ThreadOk(FactsOf(s), t, s.threads[t]);
  }

  lemma DisconnectKeeps(s: State, t: nat, next: Pc)
    requires Inv(s) && t < |s.threads| && s.mtx == None && !s.conn.disconnected
    requires (s.threads[t].DiscMtx? && next == DiscLock(s.threads[t].who))
        || (s.threads[t] == ShutMtx && next == ShutUnlock)
    ensures Inv(Goto(s, t, next).(conn := DoDisconnect(s.conn)))
  {
    hide InvTable, InvPending, InvOwners, InvLog, InvShutdown, InvHandler, InvLife, InvWg;
    var u := Goto(s, t, next).(conn := DoDisconnect(s.conn));
    assert ThreadOk(FactsOf(s), t, s.threads[t]);
    DisconnectLife(s, u, t, next);
    ActKeeps(s, u, t, next);
  }

  lemma CloseShutdownLife(s: State, t: nat, next: Pc)
    requires InvThreads(s) && InvLifecycle(s) && t < |s.threads|
    requires (s.threads[t].DiscShutClose? && next == DiscUnlock(s.threads[t].who))
        || (s.threads[t] == ShutClose && next == ShutLoop(0))
    ensures var u := CloseShutdown(s, t, next);
            InvShutdown(u) && InvConn(u.conn, u.cfg.connectOnNew) && InvHandler(u) && InvLife(u)
  {
    assert ThreadOk(FactsOf(s), t, s.threads[t]);
  }

  lemma CloseShutdownKeeps(s: State, t: nat, next: Pc)
    requires Inv(s) && t < |s.threads|
    requires (s.threads[t].DiscShutClose? && next == DiscUnlock(s.threads[t].who))
        || (s.threads[t] == ShutClose && next == ShutLoop(0))
    ensures Inv(CloseShutdown(s, t, next))
  {
    hide InvTable, InvPending, InvOwners, InvLog, InvShutdown, InvConn, InvHandler, InvLife, InvWg;
    var u := CloseShutdown(s, t, next);
    assert ThreadOk(FactsOf(s), t, s.threads[t]);
    CloseShutdownLife(s, t, next);
    ActKeeps(s, u, t, next);
  }

  lemma DoneCalm(s: State, t: nat)
    requires InvThreads(s) && t < |s.threads|
    requires s.threads[t] == ReadDone || s.threads[t] == WriteDone || s.threads[t] == HandDone
    ensures Calm(s, Done(s, t), t, Finished)
  {
    assert ThreadOk(FactsOf(s), t, s.threads[t]);
  }

  lemma DoneKeeps(s: State, t: nat)
    requires Inv(s) && t < |s.threads|
    requires s.threads[t] == ReadDone || s.threads[t] == WriteDone || s.threads[t] == HandDone
    ensures Inv(Done(s, t))
  {
    assert ThreadOk(FactsOf(s), t, s.threads[t]);
    QuietKeeps(s, Done(s, t), t, Finished);
    DoneCalm(s, t);
    CalmKeeps(s, Done(s, t), t, Finished);
  }

  // ----- Reconnecting

  lemma ResetLife(s: State, u: State, t: nat)
    requires InvThreads(s) && InvLifecycle(s) && t < |s.threads| && s.threads[t] == HandReset && s.mtx == None
    requires u == Goto(s, t, HandStart).(conn := Reset(s.conn))
    ensures InvShutdown(u) && InvConn(u.conn, u.cfg.connectOnNew) && InvHandler(u) && InvLife(u)
  {
    assert ThreadOk(FactsOf(s), t, s.threads[t]);
  }

  lemma ResetKeeps(s: State, t: nat)
    requires Inv(s) && t < |s.threads| && s.threads[t] == HandReset && s.mtx == None
    ensures Inv(Goto(s, t, HandStart).(conn := Reset(s.conn)))
  {
    hide InvTable, InvPending, InvOwners, InvLog, InvShutdown, InvConn, InvHandler, InvLife, InvWg;
    var u := Goto(s, t, HandStart).(conn := Reset(s.conn));
    assert ThreadOk(FactsOf(s), t, s.threads[t]);
    ResetLife(s, u, t);
    ActKeeps(s, u, t, HandStart);
  }

  // ----- Starting goroutines

  /** A thread that has started with nothing in hand. */
  predicate Plain(pc: Pc) {
    pc == ReadCheck || pc == WriteCapture || pc == HandWait || pc == ResendSnap || pc == DiscMtx(ByUser)
        || pc == ShutLock || pc.ConnLock?
  }

  lemma OwnersSpawn(where: seq<Where>, threads: seq<Pc>, pc: Pc)
    requires InvOwners(where, threads) && Plain(pc)
    ensures InvOwners(where, threads + [pc])
  {
  }

  lemma SpawnThreads(s: State, pc: Pc)
    requires InvThreads(s) && Plain(pc) && Counts(pc) == 0 && (s.cfg.connectOnNew || s.threads != [] || !IsHandler(pc))
    requires pc == ResendSnap ==> s.conn.established > 0
    ensures InvThreads(Spawn(s, pc))
  {
    ThreadsStep(s, Spawn(s, pc), |s.threads|);
  }

  lemma PlainNeverLaunches(pc: Pc)
    requires Plain(pc)
    ensures !BeforeStartAt(pc) && !BeforeHandlerAt(pc) && !BeforeStartAt(Finished) && !BeforeHandlerAt(Finished)
  {
  }

  lemma SpawnLife(s: State, pc: Pc)
    requires InvThreads(s) && InvLifecycle(s) && Plain(pc)
    ensures InvShutdown(Spawn(s, pc)) && InvHandler(Spawn(s, pc)) && InvLife(Spawn(s, pc))
  {
    hide InvConn, InvWg, IsHandler, LiveReader, ThreadOk, BeforeStartAt, BeforeHandlerAt;
    PlainNeverLaunches(pc);
    var u := Spawn(s, pc);
    assert BeforeStart(u) == BeforeStart(s) && BeforeHandler(u) == BeforeHandler(s);
  }

  lemma SpawnKeeps(s: State, pc: Pc)
    requires Inv(s) && Plain(pc) && Counts(pc) == 0 && (s.cfg.connectOnNew || s.threads != [] || !IsHandler(pc))
    requires pc == ResendSnap ==> s.conn.established > 0
    ensures Inv(Spawn(s, pc))
  {
    hide InvTable, InvPending, InvLog, InvThreads, InvConn;
    var u := Spawn(s, pc);
    SpawnThreads(s, pc);
    OwnersSpawn(s.q.where, s.threads, pc);
    assert Cursor(u) == Cursor(s);
    TotalAppend(s.threads, pc);
    SpawnLife(s, pc);
  }

  /** The callers of `start`, before and after it. */
  predicate Starts(pc: Pc, next: Pc) {
    || (pc == HandStart && next == HandResend)
    || (pc == NewStart && next == NewHandler)
    || (pc == ConnStart && next == ConnHandler)
  }

  lemma StartHarmless(f: Facts, t: nat, pc: Pc, next: Pc, n: nat)
    requires ThreadOk(f, t, pc) && Starts(pc, next) && t < n
    requires (f.requestLock.Some? ==> f.requestLock.value < n) && (f.mtx.Some? ==> f.mtx.value < n)
    ensures Harmless(f, f, t) && ThreadOk(f, t, next) && ThreadOk(f, n, ReadCheck) && ThreadOk(f, n + 1, WriteCapture)
  {
    hide Launches;
  }

  lemma StartThreads(s: State, t: nat, next: Pc)
    requires InvThreads(s) && t < |s.threads| && Starts(s.threads[t], next)
    ensures InvThreads(Start(Goto(s, t, next)))
  {
    hide Harmless, ThreadOk, Starts, InvThreads;
    var n, u := |s.threads|, Start(Goto(s, t, next));
    ThreadAt(s, t);
    StartHarmless(FactsOf(s), t, s.threads[t], next, n);
    assert FactsOf(u) == FactsOf(s);
    assert u.threads[t] == next && u.threads[n] == ReadCheck && u.threads[n + 1] == WriteCapture;
    ThreadsStep(s, u, t);
  }

  lemma StartOwners(where: seq<Where>, threads: seq<Pc>, t: nat, next: Pc)
    requires InvOwners(where, threads) && t < |threads| && Starts(threads[t], next)
    ensures InvOwners(where, threads[t := next] + [ReadCheck, WriteCapture])
  {
    OwnersMove(where, threads, t, next);
    OwnersSpawn(where, threads[t := next], ReadCheck);
    OwnersSpawn(where, threads[t := next] + [ReadCheck], WriteCapture);
    assert threads[t := next] + [ReadCheck, WriteCapture] == threads[t := next] + [ReadCheck] + [WriteCapture];
  }

  lemma StartCounts(pc: Pc, next: Pc)
    requires Starts(pc, next)
    ensures Counts(next) == Counts(pc) && Counts(ReadCheck) == Counts(WriteCapture) == 1
  {
  }

  lemma StartTotal(threads: seq<Pc>, t: nat, next: Pc)
    requires t < |threads| && Starts(threads[t], next)
    ensures Total(threads[t := next] + [ReadCheck, WriteCapture]) == Total(threads) + 2
  {
    hide Counts, Total, Starts;
    StartCounts(threads[t], next);
    TotalUpdate(threads, t, next);
    TotalAppend(threads[t := next], ReadCheck);
    TotalAppend(threads[t := next] + [ReadCheck], WriteCapture);
    assert threads[t := next] + [ReadCheck, WriteCapture] == threads[t := next] + [ReadCheck] + [WriteCapture];
  }

  lemma StartConn(s: State, t: nat, next: Pc)
    requires InvThreads(s) && InvShutdown(s) && InvConn(s.conn, s.cfg.connectOnNew) && InvHandler(s)
    requires t < |s.threads| && Starts(s.threads[t], next)
    ensures var u := Start(Goto(s, t, next)); InvShutdown(u) && InvConn(u.conn, u.cfg.connectOnNew) && InvHandler(u)
  {
    assert ThreadOk(FactsOf(s), t, s.threads[t]);
  }

  lemma StartLife(s: State, t: nat, next: Pc)
    requires InvThreads(s) && InvLife(s) && t < |s.threads| && Starts(s.threads[t], next)
    ensures InvLife(Start(Goto(s, t, next)))
  {
    var u := Start(Goto(s, t, next));
    assert ThreadOk(FactsOf(s), t, s.threads[t]);
    assert HasReader(u);
    assert s.threads[t] == HandStart || BeforeHandler(u);
  }

  lemma StartKeeps(s: State, t: nat, next: Pc)
    requires Inv(s) && t < |s.threads| && Starts(s.threads[t], next)
    ensures Inv(Start(Goto(s, t, next)))
  {
    hide InvThreads, InvTable, InvPending, InvOwners, InvLog, InvShutdown, InvConn, InvHandler, InvLife;
    var u := Start(Goto(s, t, next));
    StartThreads(s, t, next);
    StartOwners(s.q.where, s.threads, t, next);
    assert Cursor(u) == Cursor(s) by { ThreadAt(s, t); }
    StartTotal(s.threads, t, next);
    StartConn(s, t, next);
    StartLife(s, t, next);
  }

  predicate StartsHandler(pc: Pc, next: Pc) {
    || (pc == NewHandler && next == Finished)
    || (pc == ConnHandler && next == ConnUnlock)
  }

  lemma HandlerHarmless(f: Facts, t: nat, pc: Pc, next: Pc, n: nat)
    requires ThreadOk(f, t, pc) && StartsHandler(pc, next) && t < n
    requires (f.requestLock.Some? ==> f.requestLock.value < n) && (f.mtx.Some? ==> f.mtx.value < n)
    ensures Harmless(f, f, t) && ThreadOk(f, t, next)
    ensures var g := f.(handler := Some(n)); Harmless(f, g, t) && ThreadOk(g, t, next) && ThreadOk(g, n, HandWait)
  {
  }

  lemma HandlerStarted(s: State, t: nat, next: Pc)
    requires t < |s.threads|
    ensures var n, u := |s.threads|, StartHandler(Goto(s, t, next));
      if s.cfg.autoReconnect
      then u.threads == s.threads[t := next] + [HandWait] && FactsOf(u) == FactsOf(s).(handler := Some(n))
      else u.threads == s.threads[t := next] && FactsOf(u) == FactsOf(s)
    ensures FactsOf(s).requestLock == s.requestLock && FactsOf(s).mtx == s.mtx
  {
  }

  lemma StartHandlerThreads(s: State, t: nat, next: Pc)
    requires InvThreads(s) && t < |s.threads| && StartsHandler(s.threads[t], next)
    ensures InvThreads(StartHandler(Goto(s, t, next)))
  {
    hide Harmless, ThreadOk, StartsHandler, InvThreads, FactsOf, StartHandler;
    var n, f, u := |s.threads|, FactsOf(s), StartHandler(Goto(s, t, next));
    ThreadAt(s, t);
    HandlerStarted(s, t, next);
    HandlerHarmless(f, t, s.threads[t], next, n);
    assert u.threads[t] == next;
    ThreadsStep(s, u, t);
  }

  lemma StartHandlerTotal(s: State, t: nat, next: Pc)
    requires InvWg(s) && t < |s.threads| && StartsHandler(s.threads[t], next)
    ensures InvWg(StartHandler(Goto(s, t, next)))
  {
    TotalUpdate(s.threads, t, next);
    TotalAppend(s.threads[t := next], HandWait);
  }

  lemma StartHandlerConn(s: State, t: nat, next: Pc)
    requires InvThreads(s) && InvShutdown(s) && InvConn(s.conn, s.cfg.connectOnNew) && InvHandler(s)
    requires t < |s.threads| && StartsHandler(s.threads[t], next)
    ensures var u := StartHandler(Goto(s, t, next));
      InvShutdown(u) && InvConn(u.conn, u.cfg.connectOnNew) && InvHandler(u)
  {
    assert ThreadOk(FactsOf(s), t, s.threads[t]);
  }

  lemma StartHandlerLife(s: State, t: nat, next: Pc)
    requires InvThreads(s) && InvConn(s.conn, s.cfg.connectOnNew) && InvLife(s) && t < |s.threads|
    requires StartsHandler(s.threads[t], next)
    ensures InvLife(StartHandler(Goto(s, t, next)))
  {
    var u := StartHandler(Goto(s, t, next));
    assert ThreadOk(FactsOf(s), t, s.threads[t]);
    assert s.conn.established > 0 && !BeforeStart(s) by {
      assert ThreadOk(FactsOf(s), 0, s.threads[0]);
      if s.mtx.Some? { assert ThreadOk(FactsOf(s), s.mtx.value, s.threads[s.mtx.value]); }
    }
    assert HasReader(s) ==> HasReader(u);
    assert !Restarting(s);
  }

  lemma StartHandlerKeeps(s: State, t: nat, next: Pc)
    requires Inv(s) && t < |s.threads| && StartsHandler(s.threads[t], next)
    ensures Inv(StartHandler(Goto(s, t, next)))
  {
    hide InvThreads, InvTable, InvPending, InvOwners, InvLog, InvShutdown, InvConn, InvHandler, InvLife;
    var u := StartHandler(Goto(s, t, next));
    StartHandlerThreads(s, t, next);
    OwnersMove(s.q.where, s.threads, t, next);
    OwnersSpawn(s.q.where, s.threads[t := next], HandWait);
    assert Cursor(u) == Cursor(s) by { ThreadAt(s, t); }
    StartHandlerTotal(s, t, next);
    StartHandlerConn(s, t, next);
    StartHandlerLife(s, t, next);
  }

  // ----- Establishing

  lemma EstablishLife(s: State, t: nat, next: Pc)
    requires InvThreads(s) && InvLifecycle(s) && t < |s.threads|
    requires (s.threads[t] == NewEst && next == NewStart) || (s.threads[t] == ConnEst && next == ConnStart)
    ensures var u := Establish(s, t, next);
            InvShutdown(u) && InvConn(u.conn, u.cfg.connectOnNew) && InvHandler(u) && InvLife(u)
  {
    assert ThreadOk(FactsOf(s), t, s.threads[t]);
  }

  lemma EstablishKeeps(s: State, t: nat, next: Pc)
    requires Inv(s) && t < |s.threads|
    requires (s.threads[t] == NewEst && next == NewStart) || (s.threads[t] == ConnEst && next == ConnStart)
    ensures Inv(Establish(s, t, next))
  {
    hide InvTable, InvPending, InvOwners, InvLog, InvShutdown, InvHandler, InvLife, InvWg;
    var u := Establish(s, t, next);
    assert ThreadOk(FactsOf(s), t, s.threads[t]);
    EstablishLife(s, t, next);
    ActKeeps(s, u, t, next);
  }

  /** The dialers, before and after success. */
  predicate Dials(pc: Pc, next: Pc) {
    (pc.ConnDial? && next == ConnEst) || (pc == HandDial && next == HandReset)
  }

  lemma DialLife(s: State, u: State, t: nat, next: Pc)
    requires InvThreads(s) && InvLifecycle(s) && t < |s.threads| && Dials(s.threads[t], next)
    requires u == Goto(s, t, next).(conn := Dial(s.conn))
    ensures InvShutdown(u) && InvConn(u.conn, u.cfg.connectOnNew) && InvHandler(u) && InvLife(u)
  {
    assert ThreadOk(FactsOf(s), t, s.threads[t]);
  }

  lemma DialKeeps(s: State, t: nat, next: Pc)
    requires Inv(s) && t < |s.threads| && Dials(s.threads[t], next)
    ensures Inv(Goto(s, t, next).(conn := Dial(s.conn)))
  {
    hide InvTable, InvPending, InvOwners, InvLog, InvShutdown, InvHandler, InvLife, InvWg;
    var u := Goto(s, t, next).(conn := Dial(s.conn));
    assert ThreadOk(FactsOf(s), t, s.threads[t]);
    DialLife(s, u, t, next);
    ActKeeps(s, u, t, next);
  }

  // ----- Callers

  lemma CallRequests(q: Requests, threads: seq<Pc>, name: string, pc: Pc, cursor: nat)
    requires InvTable(q) && InvPending(q, cursor) && InvOwners(q.where, threads) && InvLog(q)
    requires pc == SendCheck(|q.methods|) || (pc.SendReject? && pc.r == |q.methods|)
    ensures var u := NewRequest(q, name, |threads|);
            InvTable(u) && InvPending(u, cursor) && InvOwners(u.where, threads + [pc]) && InvLog(u)
  {
  }

  lemma CallLife(s: State, u: State, pc: Pc)
    requires InvThreads(s) && InvLifecycle(s) && (pc.SendCheck? || pc.SendReject?) && u == Spawn(s, pc).(q := u.q)
    requires u.q.table == s.q.table
    ensures InvShutdown(u) && InvHandler(u) && InvLife(u)
  {
    assert BeforeStart(u) == BeforeStart(s) && BeforeHandler(u) == BeforeHandler(s);
  }

  lemma CallKeeps(s: State, name: string, pc: Pc)
    requires Inv(s) && (pc == SendCheck(|s.q.methods|) || (pc.SendReject? && pc.r == |s.q.methods| && !pc.why.Reply?))
    ensures Inv(Spawn(s, pc).(q := NewRequest(s.q, name, |s.threads|)))
  {
    var u := Spawn(s, pc).(q := NewRequest(s.q, name, |s.threads|));
    ThreadsStep(s, u, |s.threads|);
    CallRequests(s.q, s.threads, name, pc, Cursor(s));
    assert Cursor(u) == Cursor(s);
    TotalAppend(s.threads, pc);
    CallLife(s, u, pc);
  }

  lemma ReceiveKeeps(s: State, r: nat)
    requires Inv(s)
    ensures Inv(s.(q := s.q.(full := s.q.full - {r})))
  {
  }
}

/**
 * When Shutdown fails to stop the goroutines: a socket is left open only if Disconnect
 * ran before the first dial had succeeded, and then it can be left with a reader on it.
 */
module ClientHang {
  import opened Basics
  import opened RequestTable
  import opened ClientProtocol
  import opened ClientInvariant
  import opened ClientInduction
  import opened ClientTheorems
  import opened ClientSockets
  import opened ClientWindDown

  /** A caller's Disconnect takes effect while there is no socket to close. */
  predicate DisconnectsEarly(s: State, a: Action) {
    && a.Run? && a.t < |s.threads| && s.threads[a.t] == DiscMtx(ByUser)
    && s.conn.sockets == 0 && !s.conn.disconnected
  }

  ghost predicate EarlyDisconnect(s: State, run: seq<Action>) {
    exists k :: 0 <= k < |run| && Exec(s, run[..k]).Some? && DisconnectsEarly(Exec(s, run[..k]).value, run[k])
  }

  lemma NotEarly(s: State, run: seq<Action>)
    requires run != [] && Exec(s, run).Some? && !EarlyDisconnect(s, run)
    ensures !EarlyDisconnect(s, run[..|run|-1])
    ensures !DisconnectsEarly(Exec(s, run[..|run|-1]).value, run[|run|-1])
  {
    hide Step, DisconnectsEarly;
    forall k | 0 <= k < |run| - 1 ensures run[..|run|-1][..k] == run[..k] && run[..|run|-1][k] == run[k] {}
  }

  // ----- Every socket is released

  /** Every socket is closed, or doDisconnect will close it. */
  ghost predicate Released(s: State) {
    && (s.conn.sockets == 0 ==> !s.conn.disconnected)
    && forall k: nat :: !LeftOpen(s, k)
  }

  /** The goroutine uses a socket, or leads to one that does. */
  predicate Transmits(pc: Pc) {
    match pc
    case ReadLoad => true case ReadWait(_) => true case WriteLoad => true case WriteMsg(_) => true
    case SendCapture => true case SendWait(_) => true
    case ResendSnap => true case ResendCheck(_) => true case ResendCapture(_) => true case ResendWait(_, _) => true
    case HandDial => true case HandReset => true case HandStart => true case HandResend => true
    case _ => false
  }

  /** The client was shut down before it was used. */
  ghost predicate Unused(s: State) {
    && s.conn.shutdown > 0 && s.queued == 0
    && forall t: nat :: t < |s.threads| ==> !Transmits(s.threads[t])
  }

  ghost predicate Tidy(s: State) {
    (s.queued > 0 ==> s.conn.established > 0) && (Released(s) || Unused(s))
  }

  lemma ReleasedSame(s: State, u: State)
    requires Released(s) && SameSockets(s, u)
    requires s.conn.sockets == 0 && u.conn.disconnected ==> s.conn.disconnected
    ensures Released(u)
  {
  }

  /** The handler dials while the flag is set, so the socket it replaces is closed. */
  lemma DialReleased(s: State, t: nat, c: Choice)
    requires Released(s) && t < |s.threads| && s.threads[t] == HandDial && s.conn.closes != []
    requires s.conn.handler == Some(t) && s.conn.disconnected && StepHand(s, t, c).Some?
    ensures Released(StepHand(s, t, c).value)
  {
    var u := StepHand(s, t, c).value;
    forall k: nat ensures !LeftOpen(u, k) { assert !LeftOpen(s, k); }
  }

  lemma HandReleased(s: State, t: nat, c: Choice)
    requires Inv(s) && Released(s) && t < |s.threads| && KindOf(s.threads[t]) == KHand && StepHand(s, t, c).Some?
    ensures Released(StepHand(s, t, c).value)
  {
    hide InvRequests, InvShutdown, InvHandler, InvLife, InvWg;
    ThreadAt(s, t);
    if s.threads[t] == HandDial {
      hide Inv, ThreadOk;
      DialReleased(s, t, c);
    } else {
      hide Released, ThreadOk, SameSockets;
      HandSockets(s, t, c);
      ReleasedSame(s, StepHand(s, t, c).value);
    }
  }

  lemma FirstDialReleased(s: State, t: nat, c: Choice)
    requires Released(s) && t < |s.threads| && s.threads[t].ConnDial? && s.conn.closes != []
    requires s.conn.sockets == 0 && s.conn.handler == None && StepConnect(s, t, c).Some?
    ensures Released(StepConnect(s, t, c).value)
  {
  }

  lemma ConnectReleased(s: State, t: nat, c: Choice)
    requires Inv(s) && Released(s) && t < |s.threads| && KindOf(s.threads[t]) == KConnect && StepConnect(s, t, c).Some?
    ensures Released(StepConnect(s, t, c).value)
  {
    hide InvRequests, InvShutdown, InvHandler, InvLife, InvWg;
    if Own(s, Run(t, c)) {
      hide Released, SameSockets;
      ConnectSockets(s, t, c);
      ReleasedSame(s, StepConnect(s, t, c).value);
    } else {
      ThreadAt(s, t);
      hide Inv, ThreadOk;
      FirstDialReleased(s, t, c);
    }
  }

  lemma CloseReleased(s: State, t: nat, c: Choice)
    requires Inv(s) && Released(s) && t < |s.threads| && StepThread(s, t, c).Some?
    requires KindOf(s.threads[t]) in {KDisc, KShut} && !DisconnectsEarly(s, Run(t, c))
    requires s.threads[t] == ShutMtx ==> s.conn.sockets > 0
    ensures Released(StepThread(s, t, c).value)
  {
    hide InvRequests, InvShutdown, InvHandler, InvLife, InvWg, Released, SameSockets;
    ThreadAt(s, t);
    if KindOf(s.threads[t]) == KDisc { DiscSockets(s, t); } else { ShutSockets(s, t); }
    ReleasedSame(s, StepThread(s, t, c).value);
  }

  lemma OtherReleased(s: State, t: nat, c: Choice)
    requires Released(s) && s.conn.closes != [] && t < |s.threads| && StepThread(s, t, c).Some?
    requires KindOf(s.threads[t]) in {KSend, KRead, KWrite, KResend}
    ensures Released(StepThread(s, t, c).value)
  {
    hide Released, SameSockets, Remove, Keep, Kept, DropIgnored;
    OtherSockets(s, t, c);
    ReleasedSame(s, StepThread(s, t, c).value);
  }

  lemma HandlerThere(s: State)
    requires Inv(s)
    ensures s.conn.handler.Some? ==> s.conn.handler.value < |s.threads|
  {
    hide InvThreads, InvRequests, InvShutdown, InvConn, InvLife, InvWg;
  }

  lemma ReleasedStep(s: State, a: Action)
    requires Inv(s) && Released(s) && Step(s, a).Some? && !DisconnectsEarly(s, a)
    requires a.Run? && a.t < |s.threads| && s.threads[a.t] == ShutMtx ==> s.conn.sockets > 0
    ensures Released(Step(s, a).value)
  {
    if a.Run? {
      hide Inv, Released, StepSend, StepRead, StepWrite, StepDisc, StepShut, StepHand, StepResend, StepConnect;
      match KindOf(s.threads[a.t])
      case KDisc => CloseReleased(s, a.t, a.c);
      case KShut => CloseReleased(s, a.t, a.c);
      case KHand => HandReleased(s, a.t, a.c);
      case KConnect => ConnectReleased(s, a.t, a.c);
      case KSend => OtherReleased(s, a.t, a.c);
      case KRead => OtherReleased(s, a.t, a.c);
      case KWrite => OtherReleased(s, a.t, a.c);
      case KResend => OtherReleased(s, a.t, a.c);
    } else {
      hide Released, SameSockets;
      HandlerThere(s);
      SocketsAside(s, Step(s, a).value);
      ReleasedSame(s, Step(s, a).value);
    }
  }

  // ----- A client that was never used

  lemma RequestUnused(s: State, t: nat, c: Choice)
    requires Unused(s) && s.conn.closes != [] && t < |s.threads| && StepThread(s, t, c).Some?
    requires KindOf(s.threads[t]) in {KSend, KRead, KWrite, KResend}
    ensures Unused(StepThread(s, t, c).value)
  {
    hide Remove, Keep, Kept, DropIgnored;
  }

  lemma CloseUnused(s: State, t: nat, c: Choice)
    requires Unused(s) && s.conn.closes != [] && t < |s.threads| && StepThread(s, t, c).Some?
    requires KindOf(s.threads[t]) in {KDisc, KShut}
    ensures Unused(StepThread(s, t, c).value)
  {
  }

  lemma HandUnused(s: State, t: nat, c: Choice)
    requires Unused(s) && s.conn.closes != [] && t < |s.threads| && StepHand(s, t, c).Some?
    requires KindOf(s.threads[t]) == KHand
    ensures Unused(StepHand(s, t, c).value)
  {
    assert !Transmits(s.threads[t]);
  }

  lemma ConnectUnused(s: State, t: nat, c: Choice)
    requires Unused(s) && s.conn.closes != [] && t < |s.threads| && StepConnect(s, t, c).Some?
    requires KindOf(s.threads[t]) == KConnect
    ensures Unused(StepConnect(s, t, c).value)
  {
  }

  lemma UnusedStep(s: State, a: Action)
    requires Unused(s) && Step(s, a).Some?
    ensures Unused(Step(s, a).value)
  {
    if a.Run? {
      hide Unused, StepSend, StepRead, StepWrite, StepDisc, StepShut, StepHand, StepResend, StepConnect;
      if KindOf(s.threads[a.t]) in {KSend, KRead, KWrite, KResend} {
        RequestUnused(s, a.t, a.c);
      } else if KindOf(s.threads[a.t]) == KHand {
        HandUnused(s, a.t, a.c);
      } else if KindOf(s.threads[a.t]) == KConnect {
        ConnectUnused(s, a.t, a.c);
      } else {
        CloseUnused(s, a.t, a.c);
      }
    }
  }

  lemma NothingSent(s: State, t: nat)
    requires Inv(s) && t < |s.threads| && s.conn.sockets == 0
    ensures !Transmits(s.threads[t])
  {
    hide InvRequests, InvShutdown, InvHandler, InvLife, InvWg;
    ThreadAt(s, t);
  }

  /** Shutdown without a socket: nothing has been sent or read. */
  lemma ShutUnused(s: State, t: nat, c: Choice)
    requires Inv(s) && t < |s.threads| && s.threads[t] == ShutMtx && s.conn.sockets == 0 && StepShut(s, t).Some?
    requires s.queued > 0 ==> s.conn.established > 0
    ensures Unused(StepShut(s, t).value)
  {
    hide InvRequests, InvShutdown, InvHandler, InvLife, InvWg;
    ThreadAt(s, t);
    hide HoldsRequestLock, HoldsMtx, InvThreads, IsHandler;
    forall i: nat | i < |s.threads| ensures !Transmits(s.threads[i]) { NothingSent(s, i); }
  }

  // ----- Every run

  lemma PushEstablished(s: State, t: nat)
    requires Inv(s) && t < |s.threads| && (s.threads[t].SendWait? || s.threads[t].ResendWait?)
    ensures s.conn.established > 0
  {
    hide InvRequests, InvLifecycle;
    ThreadAt(s, t);
  }

  lemma QueuedStep(s: State, a: Action)
    requires Inv(s) && Step(s, a).Some? && (s.queued > 0 ==> s.conn.established > 0)
    ensures var u := Step(s, a).value; u.queued > 0 ==> u.conn.established > 0
  {
    hide Inv, Remove, Keep, Kept, DropIgnored;
    if a.Run? {
      var pc := s.threads[a.t];
      if pc.SendWait? || pc.ResendWait? { PushEstablished(s, a.t); }
    }
  }

  lemma ShutMtxStep(s: State, t: nat, c: Choice)
    requires t < |s.threads| && s.threads[t] == ShutMtx && Step(s, Run(t, c)).Some?
    ensures s.conn.closes != [] && StepShut(s, t).Some? && Step(s, Run(t, c)) == StepShut(s, t)
  {
  }

  lemma TidyStep(s: State, a: Action)
    requires Inv(s) && Tidy(s) && Step(s, a).Some? && !DisconnectsEarly(s, a)
    ensures Tidy(Step(s, a).value)
  {
    hide Inv, Released, Unused, Step;
    QueuedStep(s, a);
    if Unused(s) {
      UnusedStep(s, a);
    } else if a.Run? && a.t < |s.threads| && s.threads[a.t] == ShutMtx && s.conn.sockets == 0 {
      ShutMtxStep(s, a.t, a.c);
      ShutUnused(s, a.t, a.c);
    } else {
      ReleasedStep(s, a);
    }
  }

  lemma {:induction false} ExecTidy(cfg: Config, run: seq<Action>)
    requires Exec(Init(cfg), run).Some? && !EarlyDisconnect(Init(cfg), run)
    ensures Inv(Exec(Init(cfg), run).value) && Tidy(Exec(Init(cfg), run).value)
    decreases |run|
  {
    hide Inv, Step;
    InitInv(cfg);
    ExecKeeps(Init(cfg), run);
    if run != [] {
      hide Tidy, EarlyDisconnect;
      NotEarly(Init(cfg), run);
      ExecTidy(cfg, run[..|run|-1]);
      TidyStep(Exec(Init(cfg), run[..|run|-1]).value, run[|run|-1]);
    }
  }

  lemma TidyNobodyWaits(s: State, t: nat)
    requires Tidy(s) && WaitsOutside(s, t)
    ensures s.threads[t] == HandDial
  {
    hide LeftOpen;
  }

  lemma ConnectedSocket(s: State)
    requires Inv(s) && s.cfg.connectOnNew
    ensures s.conn.sockets > 0
  {
    hide InvThreads, InvRequests, InvShutdown, InvHandler, InvLife, InvWg;
  }

  /** A client that New connects has a socket from the start. */
  lemma {:induction false} NeverEarly(cfg: Config, run: seq<Action>)
    requires cfg.connectOnNew
    ensures !EarlyDisconnect(Init(cfg), run)
  {
    hide Inv, Step;
    if EarlyDisconnect(Init(cfg), run) {
      var k :| 0 <= k < |run| && Exec(Init(cfg), run[..k]).Some?
        && DisconnectsEarly(Exec(Init(cfg), run[..k]).value, run[k]);
      InitInv(cfg);
      ExecKeeps(Init(cfg), run[..k]);
      ConfigStays(Init(cfg), run[..k]);
      ConnectedSocket(Exec(Init(cfg), run[..k]).value);
    }
  }

  /**
   * A goroutine waits on a socket that nobody will close only if, earlier in the run, a caller's Disconnect took
   * effect before the first dial had succeeded; never if New made the connection.
   */
  lemma LeftOpenOnlyByEarlyDisconnect(s: State, run: seq<Action>, t: nat)
    requires Exec(Init(s.cfg), run) == Some(s) && WaitsOutside(s, t) && s.threads[t] != HandDial
    ensures EarlyDisconnect(Init(s.cfg), run) && !s.cfg.connectOnNew
  {
    hide Inv, Step, Tidy, WaitsOutside, EarlyDisconnect;
    if !EarlyDisconnect(Init(s.cfg), run) {
      ExecTidy(s.cfg, run);
      TidyNobodyWaits(s, t);
    }
    if s.cfg.connectOnNew { NeverEarly(s.cfg, run); }
  }

  // ----- The dial

  /** The last socket is closed while the handler dials. */
  lemma DialingClosed(s: State, t: nat, k: nat)
    requires Inv(s) && t < |s.threads| && s.threads[t] == HandDial && !LeftOpen(s, k) && k < s.conn.sockets
    ensures k in s.conn.closedSockets && s.conn.handler == Some(t)
  {
    hide InvRequests, InvLifecycle;
    ThreadAt(s, t);
  }

  lemma DialEnds(s: State, t: nat, c: Choice, i: nat)
    requires Inv(s) && t < |s.threads| && s.threads[t] == HandDial && (c == Tau || c == Fail)
    requires WaitsOutside(s, i) ==> i == t
    ensures Step(s, Run(t, c)).Some? && !WaitsOutside(Step(s, Run(t, c)).value, i)
  {
    hide InvRequests, InvShutdown, InvHandler, InvLife, InvWg;
    ThreadAt(s, t);
    if i < |s.threads| && i != t {
      ThreadAt(s, i);
      hide InvThreads, HoldsRequestLock, HoldsMtx;
      var k := Awaits(s.conn.sockets, s.threads[i]);
      if k.Some? { DialingClosed(s, t, k.value); }
    }
  }

  /** If the goroutines wait only for a dial, its return, either way, lets all of them end on their own. */
  lemma DialDecides(s: State, t: nat, c: Choice) returns (run: seq<Action>)
    requires Reachable(s) && s.conn.shutdown > 0
    requires t < |s.threads| && s.threads[t] == HandDial && (c == Tau || c == Fail)
    requires forall i: nat :: WaitsOutside(s, i) ==> i == t
    ensures Step(s, Run(t, c)).Some?
    ensures var u := Step(s, Run(t, c)).value; OwnRun(u, run) && Stopped(Exec(u, run).value)
  {
    hide Reachable, Inv, Step, WaitsOutside, Stopped;
    ReachableInv(s);
    DialEnds(s, t, c, t);
    var u := Step(s, Run(t, c)).value;
    forall i: nat ensures !WaitsOutside(u, i) { DialEnds(s, t, c, i); }
    ShutdownStays(s, Run(t, c));
    StepConfig(s, Run(t, c));
    u := Advance(s.cfg, s, Run(t, c));
    run := WindsDownFrom(u);
  }

  predicate Dialing(s: State) {
    HandDial in s.threads
  }

  /** Thread `t` does not dial in `u`, nor do those it started. */
  ghost predicate DialsNot(s: State, t: nat, u: State) {
    forall i: nat :: i < |u.threads| && (i == t || i >= |s.threads|) ==> u.threads[i] != HandDial
  }

  lemma RequestDialsNot(s: State, t: nat, c: Choice)
    requires s.conn.closes != [] && t < |s.threads| && StepThread(s, t, c).Some?
    requires KindOf(s.threads[t]) in {KSend, KRead, KWrite, KResend}
    ensures DialsNot(s, t, StepThread(s, t, c).value)
  {
    hide Remove, Keep, Kept, DropIgnored;
  }

  lemma CloseDialsNot(s: State, t: nat, c: Choice)
    requires s.conn.closes != [] && t < |s.threads| && StepThread(s, t, c).Some?
    requires KindOf(s.threads[t]) in {KDisc, KShut}
    ensures DialsNot(s, t, StepThread(s, t, c).value)
  {
  }

  lemma HandDialsNot(s: State, t: nat, c: Choice)
    requires s.conn.closes != [] && s.conn.shutdown > 0 && t < |s.threads| && StepHand(s, t, c).Some?
    requires KindOf(s.threads[t]) == KHand
    ensures DialsNot(s, t, StepHand(s, t, c).value)
  {
  }

  lemma ConnectDialsNot(s: State, t: nat, c: Choice)
    requires s.conn.closes != [] && t < |s.threads| && StepConnect(s, t, c).Some?
    requires KindOf(s.threads[t]) == KConnect
    ensures DialsNot(s, t, StepConnect(s, t, c).value)
  {
  }

  lemma NotDialing(s: State, t: nat, u: State)
    requires !Dialing(s) && MovesOne(s, t, u) && DialsNot(s, t, u)
    ensures !Dialing(u)
  {
  }

  lemma NoRedial(s: State, a: Action)
    requires Step(s, a).Some? && s.conn.shutdown > 0 && !Dialing(s)
    ensures !Dialing(Step(s, a).value)
  {
    if a.Run? {
      hide DialsNot, StepSend, StepRead, StepWrite, StepDisc, StepShut, StepHand, StepResend, StepConnect, MovesOne;
      match KindOf(s.threads[a.t])
      case KHand => HandDialsNot(s, a.t, a.c);
      case KConnect => ConnectDialsNot(s, a.t, a.c);
      case KDisc => CloseDialsNot(s, a.t, a.c);
      case KShut => CloseDialsNot(s, a.t, a.c);
      case KSend => RequestDialsNot(s, a.t, a.c);
      case KRead => RequestDialsNot(s, a.t, a.c);
      case KWrite => RequestDialsNot(s, a.t, a.c);
      case KResend => RequestDialsNot(s, a.t, a.c);
      MovesOnly(s, a);
      NotDialing(s, a.t, Step(s, a).value);
    }
  }

  lemma {:induction false} NoRedials(s: State, more: seq<Action>)
    requires Exec(s, more).Some? && s.conn.shutdown > 0 && !Dialing(s)
    ensures !Dialing(Exec(s, more).value) && Exec(s, more).value.conn.shutdown > 0
    decreases |more|
  {
    hide Step, Dialing;
    if more != [] {
      NoRedials(s, more[..|more|-1]);
      NoRedial(Exec(s, more[..|more|-1]).value, more[|more|-1]);
      ShutdownStays(Exec(s, more[..|more|-1]).value, more[|more|-1]);
    }
  }

  lemma WaiterThere(s: State, t: nat)
    requires WaitsOutside(s, t)
    ensures t < |s.threads|
  {
  }

  /**
   * Short of such a Disconnect, Shutdown does stop all goroutines: once `shutdown` is closed and no dial is under way,
   * whatever calls, messages and schedule follow, nobody waits for the outside, so when the client comes to rest they
   * have all ended.
   */
  lemma ShutdownStopsGoroutines(s: State, before: seq<Action>, more: seq<Action>)
    requires Exec(Init(s.cfg), before) == Some(s) && s.conn.shutdown > 0 && !Dialing(s)
    requires Exec(s, more).Some? && !EarlyDisconnect(Init(s.cfg), before + more)
    ensures var u := Exec(s, more).value; !SomeoneWaitsOutside(u) && (AtRest(u) ==> Stopped(u))
  {
    hide Inv, Step, WaitsOutside, EarlyDisconnect, Stopped, Tidy, AtRest;
    var u := Exec(s, more).value;
    Concatenate(Init(s.cfg), before, more);
    ConfigStays(s, more);
    assert Reachable(u);
    hide Reachable;
    NoRedials(s, more);
    ExecTidy(s.cfg, before + more);
    forall i: nat ensures !WaitsOutside(u, i) {
      if WaitsOutside(u, i) {
        TidyNobodyWaits(u, i);
        WaiterThere(u, i);
      }
    }
    if AtRest(u) { AtRestMeans(u); }
  }

  // ----- The failing run

  /** A caller's Disconnect before there is a connection. */
  lemma Early(cfg: Config) returns (s: State)
    requires cfg.autoReconnect && !cfg.connectOnNew
    ensures Reachable(s) && s.cfg == cfg && s.mtx == None && s.requestLock == None && s.queued == 0
    ensures s.threads == [Finished] && s.q == Init(cfg).q && s.conn == Conn(0, 0, [1], true, 0, {}, 0, 0, None)
  {
    InitReachable(cfg);
    hide Reachable;
    s := Advance(cfg, Init(cfg), CallDisconnect);
    s := Advance(cfg, s, Run(0, Tau));
    s := Advance(cfg, s, Run(0, Tau));
  }

  /** Then Connect: the connection is announced, and the flag is set. */
  lemma EarlyThenConnect(cfg: Config) returns (s: State)
    requires cfg.autoReconnect && !cfg.connectOnNew
    ensures Reachable(s) && s.cfg == cfg && s.mtx == Some(1) && s.requestLock == None && s.queued == 0
    ensures s.threads == [Finished, ConnStart] && s.q == Init(cfg).q
    ensures s.conn == Conn(1, 0, [1], true, 1, {}, 0, 0, None)
  {
    hide Reachable;
    s := Early(cfg);
    s := Advance(cfg, s, CallConnect(1));
    s := Advance(cfg, s, Run(1, Tau));
    s := Advance(cfg, s, Run(1, Tau));
    s := Advance(cfg, s, Run(1, Tau));
  }

  /** The reader waits on the first socket, and the handler sees the closed channel. */
  lemma ReaderOnFirstSocket(cfg: Config) returns (s: State)
    requires cfg.autoReconnect && !cfg.connectOnNew
    ensures Reachable(s) && s.cfg == cfg && s.mtx == None && s.requestLock == None && s.queued == 0
    ensures s.threads == [Finished, Finished, ReadWait(0), WriteCapture, HandCheck] && s.q == Init(cfg).q
    ensures s.conn == Conn(1, 0, [1], true, 1, {}, 3, 2, Some(4))
  {
    hide Reachable;
    s := EarlyThenConnect(cfg);
    s := Advance(cfg, s, Run(1, Tau));
    s := Advance(cfg, s, Run(1, Tau));
    s := Advance(cfg, s, Run(1, Tau));
    s := Advance(cfg, s, Run(2, Tau));
    s := Advance(cfg, s, Run(2, Tau));
    s := Advance(cfg, s, Run(4, Tau));
  }

  /** The handler redials and starts another reader and another writer. */
  lemma SecondConnection(cfg: Config) returns (s: State)
    requires cfg.autoReconnect && !cfg.connectOnNew
    ensures Reachable(s) && s.cfg == cfg && s.mtx == None && s.requestLock == None && s.queued == 0
    ensures |s.threads| == 8 && s.threads[2] == ReadWait(0) && s.threads[4] == HandWait && s.q == Init(cfg).q
    ensures s.conn == Conn(1, 0, [1, 0], false, 2, {}, 5, 5, Some(4))
  {
    hide Reachable;
    s := ReaderOnFirstSocket(cfg);
    s := Advance(cfg, s, Run(4, Tau));
    s := Advance(cfg, s, Run(4, Tau));
    s := Advance(cfg, s, Run(4, Tau));
    s := Advance(cfg, s, Run(4, Tau));
    s := Advance(cfg, s, Run(4, Tau));
  }

  /** Shutdown runs to its end. */
  lemma ShutdownReturns(cfg: Config) returns (s: State)
    requires cfg.autoReconnect && !cfg.connectOnNew
    ensures Reachable(s) && s.cfg == cfg && |s.threads| == 9 && s.threads[2] == ReadWait(0) && s.threads[4] == HandWait
    ensures s.threads[8] == Finished && s.conn == Conn(1, 1, [1, 1], true, 2, {1}, 5, 5, Some(4))
  {
    hide Reachable;
    s := SecondConnection(cfg);
    s := Advance(cfg, s, CallShutdown);
    s := Advance(cfg, s, Run(8, Tau));
    s := Advance(cfg, s, Run(8, Tau));
    s := Advance(cfg, s, Run(8, Tau));
    s := Advance(cfg, s, Run(8, Tau));
    s := Advance(cfg, s, Run(8, Tau));
    s := Advance(cfg, s, Run(8, Tau));
    s := Advance(cfg, s, Run(8, Tau));
  }

  /**
   * The failing case: Disconnect, Connect, the handler reconnects, Shutdown has returned, and the first reader waits
   * on the first socket for ever, so that WaitForShutdown does not return until the peer acts.
   */
  lemma ShutdownHangs(cfg: Config) returns (s: State)
    requires cfg.autoReconnect && !cfg.connectOnNew
    ensures Reachable(s) && s.cfg == cfg && s.conn.shutdown == 1 && |s.threads| == 9 && s.threads[8] == Finished
    ensures forall run :: OwnRun(s, run) ==> Exec(s, run).value.conn.wg > 0
  {
    hide Reachable, Exec;
    s := ShutdownReturns(cfg);
    assert WaitsOutside(s, 2);
    forall run | OwnRun(s, run) ensures Exec(s, run).Some? && Exec(s, run).value.conn.wg > 0 {
      WaitersStay(s, run, 2);
    }
  }
}

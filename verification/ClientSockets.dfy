/**
 * What the client does on its own, when neither the peer nor the network does anything
 * more: a blocked read or write then ends only because the client closed the socket it
 * waits on, and a dial never ends.  Who waits for the outside then waits for ever.
 */
module ClientSockets {
  import opened Basics
  import opened RequestTable
  import opened ClientProtocol
  import opened ClientInvariant
  import opened ClientInduction
  import opened ClientTheorems

  // ----- What the client does on its own

  /** A move that needs nothing from the peer, the network or a caller. */
  predicate Own(s: State, a: Action) {
    && a.Run? && a.t < |s.threads|
    && match s.threads[a.t]
       case ReadWait(k) => a.c == Fail && k in s.conn.closedSockets
       case WriteMsg(k) => a.c == Fail && k in s.conn.closedSockets
       case HandDial => false
       case ConnDial(tries, i) => !(tries == 0 || i < tries)
       case _ => true
  }

  /** A run of such moves. */
  ghost predicate OwnRun(s: State, run: seq<Action>)
    decreases |run|
  {
    && Exec(s, run).Some?
    && (run != [] ==> OwnRun(s, run[..|run|-1]) && Own(Exec(s, run[..|run|-1]).value, run[|run|-1]))
  }

  lemma OwnExtend(s: State, run: seq<Action>, a: Action)
    requires OwnRun(s, run) && Own(Exec(s, run).value, a) && Step(Exec(s, run).value, a).Some?
    ensures OwnRun(s, run + [a]) && Exec(s, run + [a]) == Step(Exec(s, run).value, a)
  {
    assert (run + [a])[..|run|] == run;
    Extend(s, run, a);
  }

  /** The reconnect handler has dialed and is about to take the new connection up. */
  predicate AtReset(s: State) {
    s.conn.handler.Some? && s.conn.handler.value < |s.threads| && s.threads[s.conn.handler.value] == HandReset
  }

  /** A socket that is open and that doDisconnect will not close: it is not the current one, or the flag is set. */
  predicate LeftOpen(s: State, k: nat) {
    k < s.conn.sockets && k !in s.conn.closedSockets && (k == s.conn.sockets - 1 ==> s.conn.disconnected && !AtReset(s))
  }

  /** The socket a goroutine is blocked on or about to be. */
  function Awaits(sockets: nat, pc: Pc): Option<nat> {
    match pc
    case ReadWait(k) => Some(k)
    case WriteMsg(k) => Some(k)
    case ReadLoad => if sockets > 0 then Some(sockets - 1) else None
    case WriteLoad => if sockets > 0 then Some(sockets - 1) else None
    case _ => None
  }

  /** A goroutine waits for the peer or the network, and the client does nothing to release it. */
  predicate WaitsOutside(s: State, t: nat) {
    && t < |s.threads|
    && var k := Awaits(s.conn.sockets, s.threads[t]);
       s.threads[t] == HandDial || (k.Some? && LeftOpen(s, k.value))
  }

  ghost predicate SomeoneWaitsOutside(s: State) {
    exists t: nat :: WaitsOutside(s, t)
  }

  // ----- Own moves neither leave a socket open nor close one that was left

  /** What own moves keep of the connection. */
  ghost predicate SameSockets(s: State, u: State) {
    && u.conn.sockets == s.conn.sockets
    && forall k: nat :: LeftOpen(u, k) <==> LeftOpen(s, k)
  }

  /** Nothing about the sockets changed. */
  lemma SocketsAside(s: State, u: State)
    requires u.conn.sockets == s.conn.sockets && u.conn.closedSockets == s.conn.closedSockets
    requires u.conn.disconnected == s.conn.disconnected && AtReset(u) == AtReset(s)
    ensures SameSockets(s, u)
  {
  }

  lemma DisconnectSockets(s: State, u: State)
    requires s.conn.closes != [] && u.conn == DoDisconnect(s.conn) && AtReset(u) == AtReset(s)
    requires AtReset(s) ==> s.conn.disconnected
    ensures SameSockets(s, u)
  {
  }

  lemma ResetPc(s: State)
    requires Inv(s) && AtReset(s)
    ensures s.conn.disconnected
  {
    hide InvRequests, InvLifecycle;
    assert ThreadOk(FactsOf(s), s.conn.handler.value, s.threads[s.conn.handler.value]);
  }

  lemma DiscSockets(s: State, t: nat)
    requires Inv(s) && t < |s.threads| && KindOf(s.threads[t]) == KDisc && StepDisc(s, t).Some?
    ensures SameSockets(s, StepDisc(s, t).value)
  {
    hide InvThreads, InvRequests, InvShutdown, InvHandler, InvLife, InvWg, SameSockets;
    var u := StepDisc(s, t).value;
    if AtReset(s) { ResetPc(s); }
    if s.threads[t].DiscMtx? && !s.conn.disconnected { DisconnectSockets(s, u); } else { SocketsAside(s, u); }
  }

  lemma ShutSockets(s: State, t: nat)
    requires Inv(s) && t < |s.threads| && KindOf(s.threads[t]) == KShut && StepShut(s, t).Some?
    ensures SameSockets(s, StepShut(s, t).value)
  {
    hide InvThreads, InvRequests, InvShutdown, InvHandler, InvLife, InvWg, SameSockets;
    var u := StepShut(s, t).value;
    if AtReset(s) { ResetPc(s); }
    if s.threads[t].ShutMtx? { DisconnectSockets(s, u); } else { SocketsAside(s, u); }
  }

  lemma ResetSockets(s: State, u: State)
    requires AtReset(s) && u.conn == Reset(s.conn)
    ensures SameSockets(s, u)
  {
  }

  lemma HandSockets(s: State, t: nat, c: Choice)
    requires Inv(s) && t < |s.threads| && KindOf(s.threads[t]) == KHand && StepHand(s, t, c).Some?
    requires s.threads[t] != HandDial
    ensures SameSockets(s, StepHand(s, t, c).value)
  {
    hide InvRequests, InvShutdown, InvHandler, InvLife, InvWg, SameSockets;
    var u := StepHand(s, t, c).value;
    ThreadAt(s, t);
    assert s.conn.handler == Some(t);
    if s.threads[t] == HandReset {
      ResetSockets(s, u);
    } else {
      SocketsAside(s, u);
    }
  }

  lemma ConnectSockets(s: State, t: nat, c: Choice)
    requires Inv(s) && t < |s.threads| && KindOf(s.threads[t]) == KConnect && StepConnect(s, t, c).Some?
    requires Own(s, Run(t, c))
    ensures SameSockets(s, StepConnect(s, t, c).value)
  {
    hide InvRequests, InvShutdown, InvHandler, InvLife, InvWg, SameSockets;
    var u := StepConnect(s, t, c).value;
    ThreadAt(s, t);
    SocketsAside(s, u);
  }

  lemma OtherSockets(s: State, t: nat, c: Choice)
    requires s.conn.closes != [] && t < |s.threads| && StepThread(s, t, c).Some?
    requires KindOf(s.threads[t]) in {KSend, KRead, KWrite, KResend}
    ensures SameSockets(s, StepThread(s, t, c).value)
  {
    hide SameSockets, Remove, Keep, Kept, DropIgnored;
    SocketsAside(s, StepThread(s, t, c).value);
  }

  lemma OwnSockets(s: State, a: Action)
    requires Inv(s) && Own(s, a) && Step(s, a).Some?
    ensures SameSockets(s, Step(s, a).value)
  {
    hide Inv, SameSockets, StepSend, StepRead, StepWrite, StepDisc, StepShut, StepHand, StepResend, StepConnect;
    match KindOf(s.threads[a.t])
    case KDisc => DiscSockets(s, a.t);
    case KShut => ShutSockets(s, a.t);
    case KHand => HandSockets(s, a.t, a.c);
    case KConnect => ConnectSockets(s, a.t, a.c);
    case KSend => OtherSockets(s, a.t, a.c);
    case KRead => OtherSockets(s, a.t, a.c);
    case KWrite => OtherSockets(s, a.t, a.c);
    case KResend => OtherSockets(s, a.t, a.c);
  }

  /** A step moves one goroutine, and may start others. */
  ghost predicate MovesOne(s: State, t: nat, u: State) {
    |u.threads| >= |s.threads| && forall i: nat :: i < |s.threads| && i != t ==> u.threads[i] == s.threads[i]
  }

  lemma RequestMoves(s: State, t: nat, c: Choice)
    requires s.conn.closes != [] && t < |s.threads| && StepThread(s, t, c).Some?
    requires KindOf(s.threads[t]) in {KSend, KRead, KWrite, KResend}
    ensures MovesOne(s, t, StepThread(s, t, c).value)
  {
    hide Remove, Keep, Kept, DropIgnored;
  }

  lemma ConnectionMoves(s: State, t: nat, c: Choice)
    requires s.conn.closes != [] && t < |s.threads| && StepThread(s, t, c).Some?
    requires KindOf(s.threads[t]) in {KDisc, KShut, KHand, KConnect}
    ensures MovesOne(s, t, StepThread(s, t, c).value)
  {
  }

  lemma MovesOnly(s: State, a: Action)
    requires a.Run? && Step(s, a).Some?
    ensures a.t < |s.threads| && MovesOne(s, a.t, Step(s, a).value)
  {
    hide MovesOne, StepSend, StepRead, StepWrite, StepDisc, StepShut, StepHand, StepResend, StepConnect;
    if KindOf(s.threads[a.t]) in {KSend, KRead, KWrite, KResend} {
      RequestMoves(s, a.t, a.c);
    } else {
      ConnectionMoves(s, a.t, a.c);
    }
  }

  /** A goroutine that is loading its socket waits on it next. */
  lemma LoadsThenWaits(s: State, a: Action)
    requires Own(s, a) && Step(s, a).Some? && WaitsOutside(s, a.t)
    ensures Step(s, a).value.conn == s.conn
    ensures Awaits(s.conn.sockets, Step(s, a).value.threads[a.t]) == Awaits(s.conn.sockets, s.threads[a.t])
    ensures Awaits(s.conn.sockets, s.threads[a.t]).Some?
  {
    hide Remove;
  }

  /** Whoever waits for the outside goes on doing so, and is counted by the WaitGroup. */
  lemma WaiterStays(s: State, a: Action, t: nat)
    requires Inv(s) && Own(s, a) && Step(s, a).Some? && WaitsOutside(s, t)
    ensures WaitsOutside(Step(s, a).value, t)
  {
    hide Inv, Step, LeftOpen;
    OwnSockets(s, a);
    MovesOnly(s, a);
    if t == a.t { LoadsThenWaits(s, a); }
  }

  lemma WaiterCounts(s: State, t: nat)
    requires Inv(s) && WaitsOutside(s, t)
    ensures s.conn.wg > 0
  {
    hide InvThreads, InvRequests, InvShutdown, InvConn, InvHandler, InvLife, LeftOpen;
    if Total(s.threads) == 0 { TotalZero(s.threads, t); }
  }

  /** So the WaitGroup does not reach zero. */
  lemma {:induction false} WaitersStay(s: State, run: seq<Action>, t: nat)
    requires Reachable(s) && WaitsOutside(s, t) && OwnRun(s, run)
    ensures WaitsOutside(Exec(s, run).value, t) && Exec(s, run).value.conn.wg > 0
    decreases |run|
  {
    hide Reachable, Inv, Step, WaitsOutside, Own;
    ReachableInv(s);
    ExecKeeps(s, run);
    if run != [] {
      var init := run[..|run|-1];
      WaitersStay(s, init, t);
      ExecKeeps(s, init);
      WaiterStays(Exec(s, init).value, run[|run|-1], t);
    }
    WaiterCounts(Exec(s, run).value, t);
  }
}

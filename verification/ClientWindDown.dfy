/**
 * What becomes of the goroutines and the requests once `shutdown` is closed, if the client
 * is left to itself: the goroutines end unless some wait for the outside, and all futures
 * are answered in any case.
 */
module ClientWindDown {
  import opened Basics
  import opened RequestTable
  import opened ClientProtocol
  import opened ClientInvariant
  import opened ClientInduction
  import opened ClientTheorems
  import opened ClientSockets

  // ----- Somebody disconnects

  /** A goroutine that is going to run doDisconnect, once `shutdown` is closed. */
  predicate WillDisconnect(pc: Pc) {
    pc.ShutLoop? || pc == ShutClear || pc == ShutMtx || pc == HandStart || pc == ReadCheck || pc.DiscMtx?
  }

  /** Disconnect is failing the pending requests, and about to close `shutdown`. */
  predicate DiscFails(pc: Pc) {
    pc.DiscLoop? || pc.DiscClear? || pc.DiscShutCheck? || pc.DiscShutClose?
  }

  /** After the shutdown the connection is disconnected or about to be. */
  ghost predicate Disconnects(s: State) {
    s.conn.shutdown > 0 && !s.conn.disconnected ==> exists t: nat :: t < |s.threads| && WillDisconnect(s.threads[t])
  }

  /** Without automatic reconnects a connection once disconnected stays so. */
  ghost predicate NoReturn(s: State) {
    && (s.conn.handler.Some? ==> s.cfg.autoReconnect)
    && (forall t: nat :: t < |s.threads| ==>
          && (s.threads[t].DiscLock? ==> s.cfg.autoReconnect || s.conn.disconnected)
          && (DiscFails(s.threads[t]) ==> !s.cfg.autoReconnect && s.conn.disconnected))
  }

  ghost predicate Ends(s: State) {
    NoReturn(s) && Disconnects(s)
  }

  /** Nobody changed the flag, the handler or `shutdown`, and whoever will disconnect still will. */
  lemma EndsAside(s: State, u: State, t: nat)
    requires Ends(s) && t < |s.threads| <= |u.threads| && u.cfg == s.cfg
    requires u.conn.shutdown == s.conn.shutdown && u.conn.disconnected == s.conn.disconnected
    requires u.conn.handler.Some? ==> s.conn.handler.Some? || s.cfg.autoReconnect
    requires forall i: nat :: i < |s.threads| && i != t ==> u.threads[i] == s.threads[i]
    requires forall i: nat :: |s.threads| <= i < |u.threads| ==> !u.threads[i].DiscLock? && !DiscFails(u.threads[i])
    requires WillDisconnect(s.threads[t]) && s.conn.shutdown > 0 && !s.conn.disconnected ==>
      exists i: nat :: i < |u.threads| && WillDisconnect(u.threads[i])
    requires u.threads[t].DiscLock? ==> s.threads[t].DiscLock?
    requires DiscFails(u.threads[t]) ==> DiscFails(s.threads[t]) || (s.threads[t].DiscLock? && !s.cfg.autoReconnect)
    ensures Ends(u)
  {
  }

  lemma RequestEnds(s: State, t: nat, c: Choice)
    requires Ends(s) && s.conn.closes != [] && t < |s.threads| && StepThread(s, t, c).Some?
    requires KindOf(s.threads[t]) in {KSend, KResend}
    ensures Ends(StepThread(s, t, c).value)
  {
    hide Ends, Keep, Kept, DropIgnored;
    EndsAside(s, StepThread(s, t, c).value, t);
  }

  lemma SocketEnds(s: State, t: nat, c: Choice)
    requires Ends(s) && s.conn.closes != [] && t < |s.threads| && StepThread(s, t, c).Some?
    requires KindOf(s.threads[t]) in {KRead, KWrite}
    ensures Ends(StepThread(s, t, c).value)
  {
    hide Ends, Remove;
    var u := StepThread(s, t, c).value;
    if s.threads[t] == ReadCheck && s.conn.shutdown > 0 { assert WillDisconnect(u.threads[t]); }
    EndsAside(s, u, t);
  }

  lemma ConnectEnds(s: State, t: nat, c: Choice)
    requires Ends(s) && s.conn.closes != [] && t < |s.threads| && StepConnect(s, t, c).Some?
    requires KindOf(s.threads[t]) == KConnect
    ensures Ends(StepConnect(s, t, c).value)
  {
    hide Ends;
    EndsAside(s, StepConnect(s, t, c).value, t);
  }

  /** The handler takes up a new connection: it starts the reader that will see the shutdown. */
  lemma ResetEnds(s: State, t: nat)
    requires Ends(s) && t < |s.threads| && s.conn.handler == Some(t)
    ensures Ends(Goto(s, t, HandStart).(conn := Reset(s.conn)))
  {
    assert WillDisconnect(Goto(s, t, HandStart).threads[t]);
  }

  lemma HandEnds(s: State, t: nat, c: Choice)
    requires Inv(s) && Ends(s) && t < |s.threads| && StepHand(s, t, c).Some? && KindOf(s.threads[t]) == KHand
    ensures Ends(StepHand(s, t, c).value)
  {
    hide InvRequests, InvShutdown, InvHandler, InvLife, InvWg, Ends;
    var u := StepHand(s, t, c).value;
    ThreadAt(s, t);
    if s.threads[t] == HandReset {
      ResetEnds(s, t);
    } else {
      if s.threads[t] == HandStart { assert WillDisconnect(u.threads[|s.threads|]); }
      EndsAside(s, u, t);
    }
  }

  lemma DiscEnds(s: State, t: nat)
    requires Ends(s) && s.conn.closes != [] && t < |s.threads| && StepDisc(s, t).Some?
    requires KindOf(s.threads[t]) == KDisc
    ensures Ends(StepDisc(s, t).value)
  {
    var u := StepDisc(s, t).value;
    if s.threads[t].DiscMtx? || s.threads[t].DiscShutClose? {
      assert u.conn.disconnected;
    } else {
      hide Ends;
      EndsAside(s, u, t);
    }
  }

  lemma ShutEnds(s: State, t: nat)
    requires Ends(s) && s.conn.closes != [] && t < |s.threads| && StepShut(s, t).Some?
    requires KindOf(s.threads[t]) == KShut
    ensures Ends(StepShut(s, t).value)
  {
    var u := StepShut(s, t).value;
    if s.threads[t].ShutClose? {
      assert WillDisconnect(u.threads[t]);
    } else if s.threads[t].ShutMtx? {
      assert u.conn.disconnected;
    } else {
      hide Ends;
      if s.threads[t].ShutLoop? || s.threads[t].ShutClear? { assert WillDisconnect(u.threads[t]); }
      EndsAside(s, u, t);
    }
  }

  lemma CallEnds(s: State, u: State)
    requires Ends(s) && u.conn == s.conn && u.cfg == s.cfg && |u.threads| >= |s.threads|
    requires forall i: nat :: i < |s.threads| ==> u.threads[i] == s.threads[i]
    requires forall i: nat :: |s.threads| <= i < |u.threads| ==> !u.threads[i].DiscLock? && !DiscFails(u.threads[i])
    ensures Ends(u)
  {
  }

  lemma EndsStep(s: State, a: Action)
    requires Inv(s) && Ends(s) && Step(s, a).Some?
    ensures Ends(Step(s, a).value)
  {
    if a.Run? {
      hide Inv, Ends, StepSend, StepRead, StepWrite, StepDisc, StepShut, StepHand, StepResend, StepConnect;
      match KindOf(s.threads[a.t])
      case KDisc => DiscEnds(s, a.t);
      case KShut => ShutEnds(s, a.t);
      case KHand => HandEnds(s, a.t, a.c);
      case KConnect => ConnectEnds(s, a.t, a.c);
      case KSend => RequestEnds(s, a.t, a.c);
      case KRead => SocketEnds(s, a.t, a.c);
      case KWrite => SocketEnds(s, a.t, a.c);
      case KResend => RequestEnds(s, a.t, a.c);
    } else {
      hide Inv;
      CallEnds(s, Step(s, a).value);
    }
  }

  lemma {:induction false} ExecEnds(cfg: Config, run: seq<Action>)
    requires Exec(Init(cfg), run).Some?
    ensures Inv(Exec(Init(cfg), run).value) && Ends(Exec(Init(cfg), run).value)
    decreases |run|
  {
    hide Inv, Step;
    InitInv(cfg);
    ExecKeeps(Init(cfg), run);
    if run != [] {
      hide Ends;
      ExecEnds(cfg, run[..|run|-1]);
      EndsStep(Exec(Init(cfg), run[..|run|-1]).value, run[|run|-1]);
    }
  }

  /** Once `shutdown` is closed the connection is disconnected, or a goroutine is about to run doDisconnect. */
  lemma SomeoneDisconnects(s: State)
    requires Reachable(s) && s.conn.shutdown > 0
    ensures s.conn.disconnected || exists t: nat :: t < |s.threads| && WillDisconnect(s.threads[t])
  {
    hide Inv;
    var run :| Exec(Init(s.cfg), run) == Some(s);
    ExecEnds(s.cfg, run);
  }

  // ----- The measure

  /** An upper bound on the own moves of a goroutine, with those it starts, but for loops over requests and messages. */
  function Rank(pc: Pc): nat {
    match pc
    case SendCheck(_) => 3 case SendAdd(_) => 2 case SendReject(_, _) => 1 case SendCapture => 2 case SendWait(_) => 1
    case ReadLookup(_) => 11 case ReadDeliver(_, _) => 10 case ReadCheck => 9 case ReadDone => 1
    case ReadLoad => 10 case ReadWait(_) => 9
    case WriteCapture => 12 case WriteWait(_) => 11 case WriteLoad => 10 case WriteMsg(_) => 9 case WriteDone => 1
    case DiscMtx(_) => 8 case DiscLock(_) => 7 case DiscLoop(_, _) => 6 case DiscClear(_) => 5
    case DiscShutCheck(_) => 4 case DiscShutClose(_) => 3 case DiscUnlock(_) => 2
    case ShutLock => 3 case ShutCheck => 2 case ShutClose => 5 case ShutLoop(_) => 4 case ShutClear => 3
    case ShutMtx => 2 case ShutUnlock => 1
    case HandDial => 3 case HandReset => 29 case HandStart => 28 case HandResend => 6 case HandCheck => 2
    case HandWait => 3 case HandDone => 1
    case ResendSnap => 2 case ResendCheck(reqs) => 3 * |reqs| + 1 case ResendCapture(reqs) => 3 * |reqs|
    case ResendWait(reqs, _) => if reqs == [] then 0 else 3 * |reqs| - 1
    case NewEst => 27 case NewStart => 26 case NewHandler => 4
    case ConnLock(_) => 3 case ConnDial(_, _) => 2 case ConnEst => 28 case ConnStart => 27 case ConnHandler => 5
    case ConnUnlock => 1
    case Finished => 0
  }

  /** The branch that leads out: the blocked read or write fails, and the channel that is closed is seen to be. */
  function ExitChoice(pc: Pc): Choice {
    match pc
    case ReadWait(_) => Fail
    case WriteMsg(_) => Fail
    case WriteWait(_) => Alt
    case HandWait => Alt
    case _ => Tau
  }

  function ExitOf(s: State, t: nat): Action
    requires t < |s.threads|
  {
    Run(t, ExitChoice(s.threads[t]))
  }

  /** The goroutine can take a step towards its end, on its own. */
  predicate CanLeave(s: State, t: nat) {
    t < |s.threads| && Own(s, ExitOf(s, t)) && Step(s, ExitOf(s, t)).Some?
  }

  function RankSum(threads: seq<Pc>): nat {
    if threads == [] then 0 else RankSum(threads[..|threads|-1]) + Rank(threads[|threads|-1])
  }

  /** How many requests a thread failing them all has left, and how many messages are to be drained. */
  function Left(s: State): nat {
    s.queued + if Cursor(s) <= |s.q.table.list| then |s.q.table.list| - Cursor(s) else 0
  }

  ghost predicate Nearer(s: State, u: State) {
    RankSum(u.threads) < RankSum(s.threads) || (RankSum(u.threads) == RankSum(s.threads) && Left(u) < Left(s))
  }

  lemma {:induction false} RankUpdate(threads: seq<Pc>, t: nat, pc: Pc)
    requires t < |threads|
    ensures RankSum(threads[t := pc]) == RankSum(threads) - Rank(threads[t]) + Rank(pc)
  {
    hide Rank;
    var n := |threads| - 1;
    if t == n {
      assert threads[t := pc][..n] == threads[..n];
    } else {
      RankUpdate(threads[..n], t, pc);
      assert threads[t := pc][..n] == threads[..n][t := pc];
    }
  }

  lemma RankAppend(threads: seq<Pc>, pc: Pc)
    ensures RankSum(threads + [pc]) == RankSum(threads) + Rank(pc)
  {
    assert (threads + [pc])[..|threads|] == threads;
  }

  /** The threads after thread `t` moved to `next` and started those of `more`. */
  lemma RankMoves(threads: seq<Pc>, t: nat, next: Pc, more: seq<Pc>)
    requires t < |threads| && |more| <= 2
    ensures RankSum(threads[t := next] + more)
         == RankSum(threads) - Rank(threads[t]) + Rank(next)
            + (if |more| > 0 then Rank(more[0]) else 0) + (if |more| > 1 then Rank(more[1]) else 0)
  {
    hide Rank;
    var us := threads[t := next];
    RankUpdate(threads, t, next);
    if |more| == 0 {
      assert us + more == us;
    } else {
      RankAppend(us, more[0]);
      assert us + [more[0]] == us + more[..1];
      if |more| == 2 {
        RankAppend(us + [more[0]], more[1]);
        assert us + [more[0]] + [more[1]] == us + more;
      } else {
        assert us + [more[0]] == us + more;
      }
    }
  }

  // ----- One step

  lemma SendNearer(s: State, t: nat, c: Choice)
    requires s.conn.shutdown > 0 && s.conn.closes != [] && t < |s.threads| && KindOf(s.threads[t]) == KSend
    requires StepSend(s, t, c).Some?
    ensures Nearer(s, StepSend(s, t, c).value)
  {
    hide RankSum;
    RankUpdate(s.threads, t, StepSend(s, t, c).value.threads[t]);
  }

  lemma ReadNearer(s: State, t: nat, c: Choice)
    requires s.conn.shutdown > 0 && s.conn.closes != [] && t < |s.threads| && KindOf(s.threads[t]) == KRead
    requires Own(s, Run(t, c)) && StepRead(s, t, c).Some?
    ensures Nearer(s, StepRead(s, t, c).value)
  {
    hide RankSum, Remove;
    RankUpdate(s.threads, t, StepRead(s, t, c).value.threads[t]);
  }

  lemma WriteNearer(s: State, t: nat, c: Choice)
    requires s.conn.closes != [] && t < |s.threads| && KindOf(s.threads[t]) == KWrite
    requires Own(s, Run(t, c)) && StepWrite(s, t, c).Some?
    ensures Nearer(s, StepWrite(s, t, c).value)
  {
    hide RankSum;
    RankUpdate(s.threads, t, StepWrite(s, t, c).value.threads[t]);
  }

  lemma DiscNearer(s: State, t: nat)
    requires Inv(s) && s.conn.shutdown > 0 && s.conn.closes != [] && t < |s.threads| && KindOf(s.threads[t]) == KDisc
    requires StepDisc(s, t).Some?
    ensures Nearer(s, StepDisc(s, t).value)
  {
    hide RankSum, InvTable, InvOwners, InvLog, InvConn, InvHandler, InvLife, InvWg;
    RankUpdate(s.threads, t, StepDisc(s, t).value.threads[t]);
    ThreadAt(s, t);
  }

  lemma ShutNearer(s: State, t: nat)
    requires Inv(s) && s.conn.shutdown > 0 && s.conn.closes != [] && t < |s.threads| && KindOf(s.threads[t]) == KShut
    requires StepShut(s, t).Some?
    ensures Nearer(s, StepShut(s, t).value)
  {
    hide RankSum, InvTable, InvOwners, InvLog, InvLifecycle;
    RankUpdate(s.threads, t, StepShut(s, t).value.threads[t]);
    ThreadAt(s, t);
  }

  lemma StartRank(s: State, t: nat, next: Pc)
    requires t < |s.threads|
    ensures RankSum(Start(Goto(s, t, next)).threads) == RankSum(s.threads) - Rank(s.threads[t]) + Rank(next) + 21
  {
    hide RankSum;
    RankMoves(s.threads, t, next, [ReadCheck, WriteCapture]);
  }

  lemma RestartNearer(s: State, t: nat, c: Choice)
    requires s.conn.closes != [] && t < |s.threads| && (s.threads[t] == HandStart || s.threads[t] == HandResend)
    ensures StepHand(s, t, c).Some? && Nearer(s, StepHand(s, t, c).value)
  {
    hide RankSum, Start;
    if s.threads[t] == HandStart {
      StartRank(s, t, HandResend);
    } else {
      RankMoves(s.threads, t, HandWait, [ResendSnap]);
    }
  }

  lemma HandNearer(s: State, t: nat, c: Choice)
    requires s.conn.shutdown > 0 && s.conn.closes != [] && t < |s.threads| && KindOf(s.threads[t]) == KHand
    requires s.threads[t] != HandDial && StepHand(s, t, c).Some?
    ensures Nearer(s, StepHand(s, t, c).value)
  {
    hide RankSum, Start;
    if s.threads[t] == HandStart || s.threads[t] == HandResend {
      hide StepHand;
      RestartNearer(s, t, c);
    } else {
      RankUpdate(s.threads, t, StepHand(s, t, c).value.threads[t]);
    }
  }

  /** After the shutdown, and with the lock free, there is nothing to resend. */
  lemma NothingListed(s: State)
    requires Inv(s) && s.conn.shutdown > 0 && s.requestLock == None
    ensures s.q.table.list == []
  {
    hide InvThreads, InvRequests, InvConn, InvHandler, InvLife, InvWg;
  }

  lemma NothingKept(methods: seq<string>)
    ensures Kept([], methods) == []
  {
  }

  lemma SomethingToResend(s: State, t: nat)
    requires Inv(s) && t < |s.threads| && s.threads[t].ResendCapture?
    ensures s.threads[t].reqs != []
  {
    hide InvRequests, InvLifecycle;
    ThreadAt(s, t);
  }

  lemma ResendNearer(s: State, t: nat, c: Choice)
    requires Inv(s) && s.conn.shutdown > 0 && s.conn.closes != [] && t < |s.threads|
    requires KindOf(s.threads[t]) == KResend && StepResend(s, t, c).Some?
    ensures Nearer(s, StepResend(s, t, c).value)
  {
    hide Inv, RankSum, Kept, DropIgnored;
    if s.threads[t].ResendCapture? { SomethingToResend(s, t); }
    if s.threads[t] == ResendSnap {
      NothingListed(s);
      NothingKept(s.q.methods);
    }
    RankUpdate(s.threads, t, StepResend(s, t, c).value.threads[t]);
  }

  lemma StartHandlerRank(s: State, t: nat, next: Pc)
    requires t < |s.threads|
    ensures RankSum(StartHandler(Goto(s, t, next)).threads) <= RankSum(s.threads) - Rank(s.threads[t]) + Rank(next) + 3
  {
    hide RankSum;
    RankMoves(s.threads, t, next, [HandWait]);
    RankUpdate(s.threads, t, next);
  }

  lemma LaunchNearer(s: State, t: nat, c: Choice)
    requires s.conn.closes != [] && t < |s.threads| && StepConnect(s, t, c).Some?
    requires s.threads[t] in {NewStart, ConnStart, NewHandler, ConnHandler}
    ensures Nearer(s, StepConnect(s, t, c).value)
  {
    hide RankSum, Start, StartHandler;
    match s.threads[t]
    case NewStart => StartRank(s, t, NewHandler);
    case ConnStart => StartRank(s, t, ConnHandler);
    case NewHandler => StartHandlerRank(s, t, Finished);
    case ConnHandler => StartHandlerRank(s, t, ConnUnlock);
  }

  lemma ConnectNearer(s: State, t: nat, c: Choice)
    requires s.conn.closes != [] && t < |s.threads| && KindOf(s.threads[t]) == KConnect
    requires StepConnect(s, t, c).Some? && Own(s, Run(t, c))
    ensures Nearer(s, StepConnect(s, t, c).value)
  {
    hide RankSum, Start, StartHandler;
    if s.threads[t] in {NewStart, ConnStart, NewHandler, ConnHandler} {
      LaunchNearer(s, t, c);
    } else {
      RankUpdate(s.threads, t, StepConnect(s, t, c).value.threads[t]);
    }
  }

  /** After the shutdown every own move brings the end nearer. */
  lemma OwnNearer(s: State, a: Action)
    requires Inv(s) && s.conn.shutdown > 0 && Own(s, a) && Step(s, a).Some?
    ensures Nearer(s, Step(s, a).value)
  {
    hide InvRequests, InvThreads, InvLifecycle, Nearer, StepSend, StepRead, StepWrite, StepDisc, StepShut, StepHand,
        StepResend, StepConnect;
    match KindOf(s.threads[a.t])
    case KSend => SendNearer(s, a.t, a.c);
    case KRead => ReadNearer(s, a.t, a.c);
    case KWrite => WriteNearer(s, a.t, a.c);
    case KDisc => DiscNearer(s, a.t);
    case KShut => ShutNearer(s, a.t);
    case KHand => HandNearer(s, a.t, a.c);
    case KResend => ResendNearer(s, a.t, a.c);
    case KConnect => ConnectNearer(s, a.t, a.c);
  }

  /** Thread `t` and those it starts wait for nothing in `u` that `t` did not wait for before. */
  ghost predicate NoNewWaiter(s: State, t: nat, u: State)
    requires t < |s.threads|
  {
    forall i: nat :: i < |u.threads| && (i == t || i >= |s.threads|) && u.conn.sockets == s.conn.sockets ==>
      && u.threads[i] != HandDial
      && (Awaits(u.conn.sockets, u.threads[i]).Some? ==>
            i == t && Awaits(u.conn.sockets, u.threads[i]) == Awaits(s.conn.sockets, s.threads[i]))
  }

  lemma RequestNoWaiter(s: State, t: nat)
    requires s.conn.shutdown > 0 && s.conn.closes != [] && t < |s.threads|
    requires StepThread(s, t, ExitChoice(s.threads[t])).Some?
    requires KindOf(s.threads[t]) in {KSend, KRead, KWrite, KResend}
    ensures NoNewWaiter(s, t, StepThread(s, t, ExitChoice(s.threads[t])).value)
  {
    hide Remove, Keep, Kept, DropIgnored;
  }

  lemma MovedNoWaiter(s: State, t: nat, next: Pc, u: State)
    requires t < |s.threads| && u.threads == s.threads[t := next]
    requires next != HandDial && Awaits(u.conn.sockets, next) == None
    ensures NoNewWaiter(s, t, u)
  {
  }

  lemma StartNoWaiter(s: State, t: nat, next: Pc)
    requires t < |s.threads| && next != HandDial && forall n: nat :: Awaits(n, next) == None
    ensures NoNewWaiter(s, t, Start(Goto(s, t, next))) && NoNewWaiter(s, t, StartHandler(Goto(s, t, next)))
  {
  }

  lemma CloseNoWaiter(s: State, t: nat)
    requires s.conn.shutdown > 0 && s.conn.closes != [] && t < |s.threads|
    requires StepThread(s, t, ExitChoice(s.threads[t])).Some?
    requires KindOf(s.threads[t]) in {KDisc, KShut}
    ensures NoNewWaiter(s, t, StepThread(s, t, ExitChoice(s.threads[t])).value)
  {
    hide NoNewWaiter;
    var u := StepThread(s, t, ExitChoice(s.threads[t])).value;
    MovedNoWaiter(s, t, u.threads[t], u);
  }

  lemma HandNoWaiter(s: State, t: nat)
    requires s.conn.shutdown > 0 && s.conn.closes != [] && t < |s.threads|
    requires StepHand(s, t, ExitChoice(s.threads[t])).Some?
    requires KindOf(s.threads[t]) == KHand
    ensures NoNewWaiter(s, t, StepHand(s, t, ExitChoice(s.threads[t])).value)
  {
  }

  lemma LaunchNoWaiter(s: State, t: nat)
    requires s.conn.closes != [] && t < |s.threads| && StepConnect(s, t, Tau).Some?
    requires s.threads[t] in {NewStart, ConnStart, NewHandler, ConnHandler}
    ensures NoNewWaiter(s, t, StepConnect(s, t, Tau).value)
  {
    hide NoNewWaiter, Start, StartHandler;
    match s.threads[t]
    case NewStart => StartNoWaiter(s, t, NewHandler);
    case ConnStart => StartNoWaiter(s, t, ConnHandler);
    case NewHandler => StartNoWaiter(s, t, Finished);
    case ConnHandler => StartNoWaiter(s, t, ConnUnlock);
  }

  lemma ConnectNoWaiter(s: State, t: nat)
    requires s.conn.closes != [] && t < |s.threads| && StepConnect(s, t, Tau).Some?
    requires KindOf(s.threads[t]) == KConnect
    ensures NoNewWaiter(s, t, StepConnect(s, t, Tau).value)
  {
    if s.threads[t] in {NewStart, ConnStart, NewHandler, ConnHandler} {
      hide StepConnect, Start, StartHandler;
      LaunchNoWaiter(s, t);
    }
  }

  /** Leaving starts nothing that waits for the outside. */
  lemma LeavesNoWaiter(s: State, t: nat)
    requires s.conn.shutdown > 0 && CanLeave(s, t)
    ensures NoNewWaiter(s, t, Step(s, ExitOf(s, t)).value)
  {
    hide NoNewWaiter, StepSend, StepRead, StepWrite, StepDisc, StepShut, StepHand, StepResend, StepConnect;
    if KindOf(s.threads[t]) in {KSend, KRead, KWrite, KResend} {
      RequestNoWaiter(s, t);
    } else if KindOf(s.threads[t]) == KHand {
      HandNoWaiter(s, t);
    } else if KindOf(s.threads[t]) == KConnect {
      ConnectNoWaiter(s, t);
    } else {
      CloseNoWaiter(s, t);
    }
  }

  lemma StaysFree(s: State, t: nat)
    requires Inv(s) && s.conn.shutdown > 0 && CanLeave(s, t) && !SomeoneWaitsOutside(s)
    ensures !SomeoneWaitsOutside(Step(s, ExitOf(s, t)).value)
  {
    hide Inv, Step, LeftOpen, Own, ExitChoice;
    var u := Step(s, ExitOf(s, t)).value;
    OwnSockets(s, ExitOf(s, t));
    MovesOnly(s, ExitOf(s, t));
    LeavesNoWaiter(s, t);
    forall i: nat ensures !WaitsOutside(u, i) {
      assert !WaitsOutside(s, i);
    }
  }

  // ----- Some step is enabled

  /** A goroutine somebody waits for. */
  predicate Awaited(pc: Pc) {
    Counts(pc) > 0 || Launching(pc) || WillDisconnect(pc) || SendOf(pc).Some?
  }

  /** It is counted, launches others, or was let through because the connection was established. */
  lemma HasSocket(s: State, t: nat)
    requires Inv(s) && t < |s.threads|
    requires Counts(s.threads[t]) > 0 || Launching(s.threads[t]) || s.threads[t].SendAdd?
    ensures s.conn.sockets > 0
  {
    hide InvRequests, InvShutdown, InvHandler, InvLife, InvWg;
    ThreadAt(s, t);
  }

  /** Blocked until somebody disconnects the current connection. */
  predicate AwaitsDisconnect(pc: Pc) {
    pc.ReadWait? || pc.WriteMsg? || pc.WriteWait?
  }

  lemma WriterLeaves(s: State, t: nat)
    requires Inv(s) && t < |s.threads| && s.threads[t].WriteWait? && s.conn.disconnected
    ensures CanLeave(s, t)
  {
    hide InvRequests, InvShutdown, InvHandler, InvLife, InvWg;
    ThreadAt(s, t);
    ClosedOlder(s.conn, s.cfg.connectOnNew, s.threads[t].gen);
  }

  lemma ReleasedOrOpen(s: State, t: nat)
    requires Inv(s) && t < |s.threads| && AwaitsDisconnect(s.threads[t]) && !WaitsOutside(s, t)
    ensures CanLeave(s, t) || !s.conn.disconnected || AtReset(s)
  {
    hide InvRequests, InvShutdown, InvHandler, InvLife, InvWg, AtReset;
    ThreadAt(s, t);
    if s.threads[t].WriteWait? && s.conn.disconnected { WriterLeaves(s, t); }
  }

  lemma AnswererLeaves(s: State, t: nat)
    requires Inv(s) && t < |s.threads| && Answering(s, s.threads[t]).Some?
    ensures CanLeave(s, t)
  {
    hide Inv;
    AnsweringAlive(s, t);
    AnsweringEnabled(s, t);
  }

  /** It can leave, or it waits for a lock. */
  predicate LeavesOrLocked(s: State, t: nat)
    requires t < |s.threads|
  {
    || CanLeave(s, t)
    || (WantsRequestLock(s.threads[t]) && s.requestLock.Some?) || (WantsMtx(s.threads[t]) && s.mtx.Some?)
  }

  lemma TransferLeaves(s: State, t: nat)
    requires s.conn.shutdown > 0 && s.conn.closes != [] && t < |s.threads| && Awaited(s.threads[t])
    requires !AwaitsDisconnect(s.threads[t]) && s.conn.sockets > 0 && Answering(s, s.threads[t]) == None
    requires KindOf(s.threads[t]) in {KSend, KRead, KWrite, KResend}
    ensures LeavesOrLocked(s, t)
  {
    hide Remove, Keep, Kept, DropIgnored;
  }

  lemma ClosingLeaves(s: State, t: nat)
    requires s.conn.shutdown > 0 && s.conn.closes != [] && t < |s.threads| && Awaited(s.threads[t])
    requires Answering(s, s.threads[t]) == None && KindOf(s.threads[t]) in {KDisc, KShut}
    ensures LeavesOrLocked(s, t)
  {
  }

  lemma LaunchingLeaves(s: State, t: nat)
    requires s.conn.shutdown > 0 && s.conn.closes != [] && t < |s.threads| && Awaited(s.threads[t])
    requires s.threads[t] != HandDial && KindOf(s.threads[t]) in {KHand, KConnect}
    ensures LeavesOrLocked(s, t)
  {
  }

  lemma ChannelsExist(s: State)
    requires Inv(s)
    ensures s.conn.closes != []
  {
    hide InvThreads, InvRequests, InvShutdown, InvHandler, InvLife, InvWg;
  }

  /** A goroutine somebody waits for can leave unless it waits for a lock or for a disconnect. */
  lemma LeavesOrWaits(s: State, t: nat)
    requires Inv(s) && s.conn.shutdown > 0 && t < |s.threads| && Awaited(s.threads[t]) && !WaitsOutside(s, t)
    requires !AwaitsDisconnect(s.threads[t]) && s.conn.sockets > 0
    ensures LeavesOrLocked(s, t)
  {
    hide Inv, CanLeave, WantsRequestLock, WantsMtx;
    ChannelsExist(s);
    if Answering(s, s.threads[t]).Some? {
      AnswererLeaves(s, t);
    } else if KindOf(s.threads[t]) in {KDisc, KShut} {
      ClosingLeaves(s, t);
    } else if KindOf(s.threads[t]) in {KHand, KConnect} {
      LaunchingLeaves(s, t);
    } else {
      TransferLeaves(s, t);
    }
  }

  /** The holder of a lock leaves by its only branch. */
  lemma HoldersLeave(s: State, t: nat)
    requires Inv(s) && s.conn.shutdown > 0 && t < |s.threads| && (s.requestLock == Some(t) || s.mtx == Some(t))
    requires s.conn.sockets > 0 && Step(s, Run(t, Tau)).Some?
    ensures CanLeave(s, t)
  {
    hide InvRequests, InvLifecycle, Step;
    ThreadAt(s, t);
  }

  /** Whoever holds the lock can leave, or the holder of the other one can. */
  lemma HolderLeaves(s: State, j: nat) returns (t: nat)
    requires Reachable(s) && s.conn.shutdown > 0 && (s.requestLock == Some(j) || s.mtx == Some(j)) && s.conn.sockets > 0
    ensures CanLeave(s, t)
  {
    hide Reachable, Inv, Step, HoldsRequestLock, HoldsMtx;
    ReachableInv(s);
    LockHoldersProgress(s, j);
    if Step(s, Run(j, Tau)).Some? {
      t := j;
    } else {
      t := s.mtx.value;
      LockHoldersProgress(s, t);
    }
    HoldersLeave(s, t);
  }

  /** So it can leave, or a holder of a lock can. */
  lemma LeavesOrHolder(s: State, i: nat) returns (t: nat)
    requires Reachable(s) && s.conn.shutdown > 0 && i < |s.threads| && Awaited(s.threads[i]) && !WaitsOutside(s, i)
    requires !AwaitsDisconnect(s.threads[i]) && s.conn.sockets > 0
    ensures CanLeave(s, t)
  {
    hide Reachable, Inv, CanLeave, WaitsOutside, WantsRequestLock, WantsMtx, Awaited;
    ReachableInv(s);
    LeavesOrWaits(s, i);
    if CanLeave(s, i) {
      t := i;
    } else {
      t := HolderLeaves(s, if WantsRequestLock(s.threads[i]) && s.requestLock.Some? then s.requestLock.value
          else s.mtx.value);
    }
  }

  /** The goroutine that everybody blocked on the current connection waits for. */
  lemma Disconnecter(s: State) returns (t: nat)
    requires Reachable(s) && s.conn.shutdown > 0 && (!s.conn.disconnected || AtReset(s))
    ensures t < |s.threads| && Awaited(s.threads[t]) && !AwaitsDisconnect(s.threads[t]) && !WaitsOutside(s, t)
  {
    hide Reachable;
    if AtReset(s) {
      t := s.conn.handler.value;
    } else {
      SomeoneDisconnects(s);
      t :| t < |s.threads| && WillDisconnect(s.threads[t]);
    }
  }

  lemma {:induction false} SomeCounted(threads: seq<Pc>) returns (t: nat)
    requires Total(threads) > 0
    ensures t < |threads| && Counts(threads[t]) > 0
  {
    if Counts(threads[|threads|-1]) > 0 { t := |threads| - 1; } else { t := SomeCounted(threads[..|threads|-1]); }
  }

  lemma WgIsTotal(s: State)
    requires Inv(s)
    ensures s.conn.wg == Total(s.threads)
  {
    hide InvThreads, InvRequests, InvShutdown, InvConn, InvHandler, InvLife;
  }

  /** All goroutines have ended, and nobody starts more of them. */
  ghost predicate Stopped(s: State) {
    s.conn.wg == 0 && !SomeoneLaunches(s)
  }

  /** While they have not, and nobody waits for the outside, some goroutine can take a step towards the end. */
  lemma SomeoneLeaves(s: State) returns (t: nat)
    requires Reachable(s) && s.conn.shutdown > 0 && !Stopped(s) && !SomeoneWaitsOutside(s)
    ensures CanLeave(s, t)
  {
    hide Reachable, Inv, CanLeave, Counts, Launching, WaitsOutside, AwaitsDisconnect, AtReset;
    ReachableInv(s);
    WgIsTotal(s);
    if s.conn.wg != 0 { t := SomeCounted(s.threads); } else { t :| t < |s.threads| && Launching(s.threads[t]); }
    HasSocket(s, t);
    assert !WaitsOutside(s, t);
    if !AwaitsDisconnect(s.threads[t]) {
      t := LeavesOrHolder(s, t);
    } else if !CanLeave(s, t) {
      ReleasedOrOpen(s, t);
      t := Disconnecter(s);
      t := LeavesOrHolder(s, t);
    }
  }

  lemma OwnStep(s: State, a: Action) returns (u: State)
    requires Reachable(s) && s.conn.shutdown > 0 && Own(s, a) && Step(s, a).Some?
    ensures Step(s, a) == Some(u) && Reachable(u) && u.conn.shutdown > 0 && u.cfg == s.cfg && Nearer(s, u)
  {
    hide Reachable, Step, Inv, Nearer, Own;
    ReachableInv(s);
    OwnNearer(s, a);
    ShutdownStays(s, a);
    StepConfig(s, a);
    u := Advance(s.cfg, s, a);
  }

  /** A run of own moves, continued until all goroutines have ended. */
  lemma {:induction false} WindsDown(s: State, run: seq<Action>, u: State) returns (more: seq<Action>)
    requires OwnRun(s, run) && Exec(s, run) == Some(u)
    requires Reachable(u) && u.conn.shutdown > 0 && !SomeoneWaitsOutside(u)
    ensures OwnRun(s, more) && Reachable(Exec(s, more).value) && Stopped(Exec(s, more).value)
    decreases RankSum(u.threads), Left(u)
  {
    hide Reachable, Step, Stopped, SomeoneWaitsOutside, RankSum, Left, Inv, OwnRun, Own;
    if Stopped(u) {
      more := run;
    } else {
      var t := SomeoneLeaves(u);
      ReachableInv(u);
      StaysFree(u, t);
      var v := OwnStep(u, ExitOf(u, t));
      OwnExtend(s, run, ExitOf(u, t));
      more := WindsDown(s, run + [ExitOf(u, t)], v);
    }
  }

  /** An established client is then disconnected. */
  lemma WindsDownFrom(s: State) returns (run: seq<Action>)
    requires Reachable(s) && s.conn.shutdown > 0 && !SomeoneWaitsOutside(s)
    ensures OwnRun(s, run)
    ensures var u := Exec(s, run).value;
      Stopped(u) && (u.conn.established > 0 ==> u.conn.disconnected)
  {
    assert OwnRun(s, []);
    hide Reachable, SomeoneWaitsOutside, OwnRun, SomeoneLaunches;
    run := WindsDown(s, [], s);
    if Exec(s, run).value.conn.established > 0 { Quiescence(Exec(s, run).value); }
  }

  /**
   * With `shutdown` closed, whatever state the client is in, its goroutines can all run to their ends on their own
   * if and only if none of them waits for a dial or on a socket that nobody will close.
   */
  lemma ShutdownStopsGoroutinesIff(s: State)
    requires Reachable(s) && s.conn.shutdown > 0
    ensures (exists run :: OwnRun(s, run) && Stopped(Exec(s, run).value)) <==> !SomeoneWaitsOutside(s)
  {
    hide Reachable, WaitsOutside;
    if SomeoneWaitsOutside(s) {
      var t: nat :| WaitsOutside(s, t);
      forall run | OwnRun(s, run) ensures Exec(s, run).Some? && !Stopped(Exec(s, run).value) {
        WaitersStay(s, run, t);
      }
    } else {
      var run := WindsDownFrom(s);
    }
  }

  // ----- No future hangs

  /** A goroutine with a request to answer, or failing all of them. */
  predicate Owes(pc: Pc) {
    SendOf(pc).Some? || DeliveryOf(pc).Some? || pc.ShutLoop?
  }

  /** Once nobody does, what has not been dropped has been answered. */
  lemma NothingOwed(s: State, r: nat)
    requires Inv(s) && s.conn.shutdown > 0 && r < |s.q.where| && s.q.where[r] != Dropped
    requires forall t: nat :: t < |s.threads| ==> !Owes(s.threads[t])
    ensures IsAnswered(s, r)
  {
    hide InvThreads, InvTable, InvConn, InvHandler, InvLife, InvWg;
    if s.q.where[r].Answered? { assert s.q.log[s.q.where[r].k].r == r; }
  }

  lemma OwingEnabled(s: State, t: nat)
    requires Inv(s) && t < |s.threads| && Owes(s.threads[t]) && Answering(s, s.threads[t]) == None
    requires s.threads[t].SendAdd? ==> s.requestLock == None
    ensures CanLeave(s, t)
  {
    hide InvRequests, InvThreads, InvShutdown, InvHandler, InvLife, InvWg;
  }

  /** Whoever owes an answer can give it, or refuse it, or waits for a lock whose holder can go on. */
  lemma OwingLeaves(s: State, i: nat) returns (t: nat)
    requires Reachable(s) && s.conn.shutdown > 0 && i < |s.threads| && Owes(s.threads[i])
    ensures CanLeave(s, t)
  {
    hide Reachable, Inv;
    ReachableInv(s);
    if Answering(s, s.threads[i]).Some? {
      AnswererLeaves(s, i);
      t := i;
    } else if s.threads[i].SendAdd? && s.requestLock.Some? {
      HasSocket(s, i);
      t := HolderLeaves(s, s.requestLock.value);
    } else {
      OwingEnabled(s, i);
      t := i;
    }
  }

  lemma OwnMakes(s: State, a: Action)
    requires Own(s, a) && Step(s, a).Some?
    ensures |Step(s, a).value.q.where| == |s.q.where|
  {
    hide Remove, Keep, Kept;
  }

  lemma SnapFree(s: State, a: Action, r: nat)
    requires Step(s, a).Some? && Filters(s, a, r)
    ensures s.requestLock == None && s.q.table.list != []
  {
    hide Keep, Kept, DropIgnored;
  }

  /** After the shutdown own moves make no request and drop none. */
  lemma OwnDrops(s: State, a: Action, r: nat)
    requires Inv(s) && s.conn.shutdown > 0 && Own(s, a) && Step(s, a).Some?
    ensures var u := Step(s, a).value;
      |u.q.where| == |s.q.where| && (r < |s.q.where| ==> (u.q.where[r] == Dropped <==> s.q.where[r] == Dropped))
  {
    hide Inv, Step, Own, Filters;
    StepDrops(s, a, r);
    OwnMakes(s, a);
    if Filters(s, a, r) {
      SnapFree(s, a, r);
      NothingListed(s);
    }
  }

  lemma {:induction false} OwnRunDrops(s: State, run: seq<Action>, r: nat)
    requires Reachable(s) && s.conn.shutdown > 0 && OwnRun(s, run)
    ensures Exec(s, run).Some?
    ensures var u := Exec(s, run).value;
      && Reachable(u) && u.conn.shutdown > 0 && |u.q.where| == |s.q.where|
      && (r < |s.q.where| ==> (u.q.where[r] == Dropped <==> s.q.where[r] == Dropped))
    decreases |run|
  {
    hide Reachable, Step, Inv, Own;
    if run != [] {
      var init, a := run[..|run|-1], run[|run|-1];
      OwnRunDrops(s, init, r);
      var u := Exec(s, init).value;
      ReachableInv(u);
      OwnDrops(u, a, r);
      var v := OwnStep(u, a);
    }
  }

  // ----- Under every schedule

  /** No goroutine can go on without the peer, the network or a caller. */
  ghost predicate AtRest(s: State) {
    forall a: Action :: Own(s, a) ==> Step(s, a) == None
  }

  lemma NotAtRest(s: State, t: nat)
    requires CanLeave(s, t)
    ensures !AtRest(s)
  {
    hide Step, Own;
  }

  function Prefix(f: nat -> Action, n: nat): seq<Action> {
    seq(n, i requires 0 <= i < n => f(i))
  }

  lemma {:induction false} EndsAfter(s: State, f: nat -> Action, n: nat) returns (m: nat)
    requires OwnRun(s, Prefix(f, n)) && Exec(s, Prefix(f, n)).Some?
    requires Reachable(Exec(s, Prefix(f, n)).value) && Exec(s, Prefix(f, n)).value.conn.shutdown > 0
    ensures !OwnRun(s, Prefix(f, m))
    decreases RankSum(Exec(s, Prefix(f, n)).value.threads), Left(Exec(s, Prefix(f, n)).value)
  {
    hide Reachable, Step, RankSum, Left, Inv, Own;
    m := n + 1;
    if OwnRun(s, Prefix(f, m)) {
      assert Prefix(f, m)[..n] == Prefix(f, n);
      var u := OwnStep(Exec(s, Prefix(f, n)).value, f(n));
      m := EndsAfter(s, f, n + 1);
    }
  }

  /** Once `shutdown` is closed no schedule keeps the client going for ever on its own. */
  lemma ComesToRest(s: State, f: nat -> Action)
    requires Reachable(s) && s.conn.shutdown > 0
    ensures exists n: nat :: !OwnRun(s, Prefix(f, n))
  {
    assert Prefix(f, 0) == [];
    hide Reachable;
    var m := EndsAfter(s, f, 0);
  }

  /** And when it rests, its goroutines have ended, or some wait for the outside. */
  lemma AtRestMeans(s: State)
    requires Reachable(s) && s.conn.shutdown > 0 && AtRest(s)
    ensures Stopped(s) || SomeoneWaitsOutside(s)
  {
    hide Reachable, AtRest, Stopped, SomeoneWaitsOutside, CanLeave;
    if !Stopped(s) && !SomeoneWaitsOutside(s) {
      var t := SomeoneLeaves(s);
      NotAtRest(s, t);
    }
  }

  /**
   * No future hangs after the shutdown: left to itself under any schedule, the client, when it comes to rest, has
   * answered every request made so far, those still with their senders included, but for those the filter dropped.
   */
  lemma EveryRequestSettled(s: State, before: seq<Action>, run: seq<Action>, r: nat)
    requires Exec(Init(s.cfg), before) == Some(s) && s.conn.shutdown > 0
    requires OwnRun(s, run) && AtRest(Exec(s, run).value) && r < |s.q.methods|
    ensures IsAnswered(Exec(s, run).value, r) || DroppedIn(Init(s.cfg), before, r)
  {
    assert Reachable(s);
    hide Reachable, AtRest, CanLeave, OwnRun, IsAnswered, IsNowhere, DroppedIn, InvThreads, InvLifecycle, Owes;
    ReachableInv(s);
    OwnRunDrops(s, run, r);
    var u := Exec(s, run).value;
    ReachableInv(u);
    NoRequestLost(s, before, r);
    NowhereMeans(s, r);
    if s.q.where[r] != Dropped {
      if i: nat :| i < |u.threads| && Owes(u.threads[i]) {
        var t := OwingLeaves(u, i);
        NotAtRest(u, t);
      }
      NothingOwed(u, r);
    }
  }
}

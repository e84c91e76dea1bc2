/**
 * What holds in every reachable state of the websocket client, whatever the
 * schedule, whatever the peer sends, and however often callers call Disconnect,
 * Shutdown and Connect.
 */
module ClientTheorems {
  import opened Basics
  import opened RequestTable
  import opened ClientProtocol
  import opened ClientInvariant
  import opened ClientRequests
  import opened ClientInduction

  // ----- Delivery

  /** A response channel is sent to at most once, even if ids have wrapped. */
  lemma AtMostOnce(s: State)
    requires Reachable(s)
    ensures forall i, j :: 0 <= i < j < |s.q.log| ==> s.q.log[i].r != s.q.log[j].r
  {
    ReachableInv(s);
  }

  /** The request a thread is about to answer. */
  function Answering(s: State, pc: Pc): Option<nat> {
    match pc
    case SendReject(r, _) => Some(r)
    case ReadDeliver(r, _) => Some(r)
    case DiscLoop(_, i) => if i < |s.q.table.list| then Some(s.q.table.list[i]) else None
    case ShutLoop(i) => if i < |s.q.table.list| then Some(s.q.table.list[i]) else None
    case _ => None
  }

  /** It has not been answered, and it is not lost. */
  lemma AnsweringAlive(s: State, t: nat)
    requires Inv(s) && t < |s.threads| && Answering(s, s.threads[t]).Some?
    ensures var r := Answering(s, s.threads[t]).value;
      r < |s.q.where| && !s.q.where[r].Answered? && s.q.where[r] != Dropped
  {
    hide InvTable, InvLifecycle;
    assert ThreadOk(FactsOf(s), t, s.threads[t]);
    var r := Answering(s, s.threads[t]).value;
    if s.threads[t].SendReject? {
      assert SendOf(s.threads[t]) == Some(r);
    } else if s.threads[t].ReadDeliver? {
      assert DeliveryOf(s.threads[t]) == Some(r);
    } else {
      assert Cursor(s) == s.threads[t].i;
    }
  }

  lemma AnsweringEnabled(s: State, t: nat)
    requires Inv(s) && t < |s.threads| && Answering(s, s.threads[t]).Some?
    requires var r := Answering(s, s.threads[t]).value; r < |s.q.where| && !s.q.where[r].Answered?
    ensures Answering(s, s.threads[t]).value !in s.q.full
    ensures forall k :: 0 <= k < |s.q.log| ==> s.q.log[k].r != Answering(s, s.threads[t]).value
    ensures Step(s, Run(t, Tau)).Some?
  {
    hide InvThreads, InvPending, InvOwners, InvShutdown, InvHandler, InvLife, InvWg;
  }

  /** A thread about to answer a request, with or without a lock, finds the channel never used: it cannot block. */
  lemma SendsNeverBlock(s: State, t: nat)
    requires Reachable(s) && t < |s.threads| && Answering(s, s.threads[t]).Some?
    ensures Answering(s, s.threads[t]).value !in s.q.full
    ensures forall k :: 0 <= k < |s.q.log| ==> s.q.log[k].r != Answering(s, s.threads[t]).value
    ensures Step(s, Run(t, Tau)).Some?
  {
    hide Inv;
    ReachableInv(s);
    AnsweringAlive(s, t);
    AnsweringEnabled(s, t);
  }

  /** A reply is delivered to a request whose id it bears. */
  lemma RepliesReachTheirRequest(s: State)
    requires Reachable(s)
    ensures forall k :: 0 <= k < |s.q.log| && s.q.log[k].outcome.Reply? ==> s.q.log[k].outcome.id == IdOf(s.q.log[k].r)
  {
    ReachableInv(s);
  }

  // ----- Conservation of requests

  /** Its sendRequest has yet to register or refuse it. */
  ghost predicate WithItsSender(s: State, r: nat) {
    exists t: nat :: t < |s.threads| && SendOf(s.threads[t]) == Some(r)
  }

  /** It waits in the table, not yet reached by a thread failing all requests. */
  ghost predicate IsPending(s: State, r: nat) {
    exists j :: Cursor(s) <= j < |s.q.table.list| && s.q.table.list[j] == r
  }

  /** A reader has removed it and is about to answer it. */
  ghost predicate InReadersHand(s: State, r: nat) {
    exists t: nat :: t < |s.threads| && DeliveryOf(s.threads[t]) == Some(r)
  }

  ghost predicate IsAnswered(s: State, r: nat) {
    exists k :: 0 <= k < |s.q.log| && s.q.log[k].r == r
  }

  lemma WhereMeans(s: State, r: nat)
    requires Inv(s) && r < |s.q.where|
    ensures WithItsSender(s, r) <==> s.q.where[r].WithSender?
    ensures IsPending(s, r) <==> s.q.where[r] == Pending
    ensures InReadersHand(s, r) <==> s.q.where[r].InHand?
    ensures IsAnswered(s, r) <==> s.q.where[r].Answered?
  {
    hide InvTable, InvLifecycle;
    if s.q.where[r].Answered? {
      assert s.q.log[s.q.where[r].k].r == r;
    }
    if s.q.where[r] == Pending {
      var j :| 0 <= j < |s.q.table.list| && s.q.table.list[j] == r;
      assert j >= Cursor(s);
    }
  }

  /** In none of the four places. */
  ghost predicate IsNowhere(s: State, r: nat) {
    !WithItsSender(s, r) && !IsPending(s, r) && !InReadersHand(s, r) && !IsAnswered(s, r)
  }

  lemma NowhereMeans(s: State, r: nat)
    requires Inv(s) && r < |s.q.where|
    ensures IsNowhere(s, r) <==> s.q.where[r] == Dropped
  {
    hide Inv, WithItsSender, IsPending, InReadersHand, IsAnswered;
    WhereMeans(s, r);
  }

  /** The step runs the locked loop of resendRequests, and that loop finds `r` in the list and does not reissue it. */
  predicate Filters(s: State, a: Action, r: nat) {
    && a.Run? && a.t < |s.threads| && s.threads[a.t] == ResendSnap
    && r in s.q.table.list && Ignored(s.q.methods, r)
  }

  /** Some step of the run from `s` filters `r`. */
  ghost predicate DroppedIn(s: State, run: seq<Action>, r: nat) {
    exists k :: 0 <= k < |run| && Exec(s, run[..k]).Some? && Filters(Exec(s, run[..k]).value, run[k], r)
  }

  /** The request the step hands on from one owner to the next. */
  function Passed(s: State, a: Action): Option<nat> {
    if !a.Run? || a.t >= |s.threads| then None else
    match s.threads[a.t]
    case SendAdd(r) => if s.conn.shutdown > 0 then None else Some(r)
    case ReadLookup(id) => Remove(s.q.table, id).1
    case pc => Answering(s, pc)
  }

  /** What a step does to the history of `r`. */
  ghost predicate Follows(s: State, a: Action, u: State, r: nat) {
    && |u.q.where| >= |s.q.where|
    && (r < |s.q.where| ==>
          (u.q.where[r] == Dropped <==> (s.q.where[r] == Dropped && Passed(s, a) != Some(r)) || Filters(s, a, r)))
    && (|s.q.where| <= r < |u.q.where| ==> u.q.where[r] != Dropped)
  }

  lemma SendWhere(s: State, t: nat, c: Choice, r: nat)
    requires t < |s.threads| && s.conn.closes != [] && KindOf(s.threads[t]) == KSend && StepSend(s, t, c).Some?
    ensures Follows(s, Run(t, c), StepSend(s, t, c).value, r)
  {
    hide Keep, Kept, Remove, Ignored;
  }

  lemma ReadWhere(s: State, t: nat, c: Choice, r: nat)
    requires t < |s.threads| && s.conn.closes != [] && KindOf(s.threads[t]) == KRead && StepRead(s, t, c).Some?
    ensures Follows(s, Run(t, c), StepRead(s, t, c).value, r)
  {
    hide Keep, Kept, Remove, Ignored;
  }

  lemma WriteWhere(s: State, t: nat, c: Choice, r: nat)
    requires t < |s.threads| && s.conn.closes != [] && KindOf(s.threads[t]) == KWrite && StepWrite(s, t, c).Some?
    ensures Follows(s, Run(t, c), StepWrite(s, t, c).value, r)
  {
    hide Keep, Kept, Remove, Ignored;
  }

  lemma DiscWhere(s: State, t: nat, r: nat)
    requires t < |s.threads| && s.conn.closes != [] && KindOf(s.threads[t]) == KDisc && StepDisc(s, t).Some?
    ensures Follows(s, Run(t, Tau), StepDisc(s, t).value, r)
  {
    hide Keep, Kept, Remove, Ignored;
  }

  lemma ShutWhere(s: State, t: nat, r: nat)
    requires t < |s.threads| && s.conn.closes != [] && KindOf(s.threads[t]) == KShut && StepShut(s, t).Some?
    ensures Follows(s, Run(t, Tau), StepShut(s, t).value, r)
  {
    hide Keep, Kept, Remove, Ignored;
  }

  lemma HandWhere(s: State, t: nat, c: Choice, r: nat)
    requires t < |s.threads| && s.conn.closes != [] && KindOf(s.threads[t]) == KHand && StepHand(s, t, c).Some?
    ensures Follows(s, Run(t, c), StepHand(s, t, c).value, r)
  {
    hide Keep, Kept, Remove, Ignored;
  }

  lemma ResendWhere(s: State, t: nat, c: Choice, r: nat)
    requires t < |s.threads| && s.conn.closes != [] && KindOf(s.threads[t]) == KResend && StepResend(s, t, c).Some?
    ensures Follows(s, Run(t, c), StepResend(s, t, c).value, r)
  {
    hide Keep, Kept, Remove, Ignored;
  }

  lemma ConnectWhere(s: State, t: nat, c: Choice, r: nat)
    requires t < |s.threads| && s.conn.closes != [] && KindOf(s.threads[t]) == KConnect && StepConnect(s, t, c).Some?
    ensures Follows(s, Run(t, c), StepConnect(s, t, c).value, r)
  {
    hide Keep, Kept, Remove, Ignored;
  }

  lemma WhereAfter(s: State, a: Action, r: nat)
    requires Step(s, a).Some?
    ensures Follows(s, a, Step(s, a).value, r)
  {
    hide StepSend, StepRead, StepWrite, StepDisc, StepShut, StepHand, StepResend, StepConnect;
    if a.Run? {
      var t, c := a.t, a.c;
      match KindOf(s.threads[t])
      case KSend => SendWhere(s, t, c, r);
      case KRead => ReadWhere(s, t, c, r);
      case KWrite => WriteWhere(s, t, c, r);
      case KDisc => DiscWhere(s, t, r);
      case KShut => ShutWhere(s, t, r);
      case KHand => HandWhere(s, t, c, r);
      case KResend => ResendWhere(s, t, c, r);
      case KConnect => ConnectWhere(s, t, c, r);
    }
  }

  lemma LookedUpPending(s: State, t: nat, r: nat)
    requires Inv(s) && t < |s.threads| && s.threads[t].ReadLookup? && Remove(s.q.table, s.threads[t].id).1 == Some(r)
    ensures r < |s.q.where| && s.q.where[r] != Dropped
  {
    hide InvThreads, InvOwners, InvLifecycle;
    RemoveKeeps(s.q.table, s.threads[t].id);
  }

  lemma PassedAlive(s: State, a: Action)
    requires Inv(s) && Step(s, a).Some? && Passed(s, a).Some?
    ensures Passed(s, a).value < |s.q.where| && s.q.where[Passed(s, a).value] != Dropped
  {
    hide InvLifecycle, Step;
    var pc, r := s.threads[a.t], Passed(s, a).value;
    if pc.SendAdd? {
      assert SendOf(pc) == Some(r);
    } else if pc.ReadLookup? {
      LookedUpPending(s, a.t, r);
    } else {
      AnsweringAlive(s, a.t);
    }
  }

  lemma ListedExist(s: State)
    requires Inv(s)
    ensures forall r <- s.q.table.list :: r < |s.q.where|
  {
    hide InvThreads, InvPending, InvOwners, InvLog, InvLifecycle;
  }

  /** A step drops a request if and only if it filters it, and what is dropped stays so. */
  lemma StepDrops(s: State, a: Action, r: nat)
    requires Inv(s) && Step(s, a).Some?
    ensures var u := Step(s, a).value;
      && |u.q.where| >= |s.q.where|
      && (r < |s.q.where| ==> (u.q.where[r] == Dropped <==> s.q.where[r] == Dropped || Filters(s, a, r)))
      && (r >= |s.q.where| ==> !Filters(s, a, r))
      && (|s.q.where| <= r < |u.q.where| ==> u.q.where[r] != Dropped)
  {
    hide Inv, Step, Passed;
    WhereAfter(s, a, r);
    ListedExist(s);
    if Passed(s, a) == Some(r) { PassedAlive(s, a); }
  }

  lemma {:induction false} DroppedMeans(s: State, run: seq<Action>, r: nat)
    requires Inv(s) && Exec(s, run).Some?
    ensures var u := Exec(s, run).value;
      && Inv(u) && |u.q.where| >= |s.q.where|
      && (r < |u.q.where| ==>
            (u.q.where[r] == Dropped <==> (r < |s.q.where| && s.q.where[r] == Dropped) || DroppedIn(s, run, r)))
      && (r >= |u.q.where| ==> !DroppedIn(s, run, r))
    decreases |run|
  {
    hide Inv, Step;
    ExecKeeps(s, run);
    if run != [] {
      var init, a := run[..|run|-1], run[|run|-1];
      DroppedMeans(s, init, r);
      var u := Exec(s, init).value;
      StepDrops(u, a, r);
      assert forall k :: 0 <= k < |init| ==> init[..k] == run[..k];
      assert DroppedIn(s, run, r) <==> DroppedIn(s, init, r) || Filters(u, a, r);
    }
  }

  /**
   * No request is lost or duplicated: each one an id was taken for is with its
   * sender, pending, in a reader's hand or answered, never two of these, and it is
   * none of them if and only if the filter of resendRequests dropped it in the run.
   */
  lemma NoRequestLost(s: State, run: seq<Action>, r: nat)
    requires Exec(Init(s.cfg), run) == Some(s) && r < |s.q.methods|
    ensures !(WithItsSender(s, r) && (IsPending(s, r) || InReadersHand(s, r) || IsAnswered(s, r)))
    ensures !(IsPending(s, r) && (InReadersHand(s, r) || IsAnswered(s, r)))
    ensures !(InReadersHand(s, r) && IsAnswered(s, r))
    ensures IsNowhere(s, r) <==> DroppedIn(Init(s.cfg), run, r)
  {
    hide Reachable, WithItsSender, IsPending, InReadersHand, IsAnswered, IsNowhere, DroppedIn, InvThreads, InvLifecycle;
    InitInv(s.cfg);
    DroppedMeans(Init(s.cfg), run, r);
    WhereMeans(s, r);
    NowhereMeans(s, r);
  }

  /** A dropped request is never answered afterwards, nor anywhere else again. */
  lemma DroppedStays(s: State, run: seq<Action>, r: nat)
    requires Reachable(s) && r < |s.q.methods| && IsNowhere(s, r) && Exec(s, run).Some?
    ensures IsNowhere(Exec(s, run).value, r)
  {
    hide Reachable, IsNowhere, DroppedIn, InvThreads, InvLifecycle;
    ReachableInv(s);
    DroppedMeans(s, run, r);
    NowhereMeans(s, r);
    NowhereMeans(Exec(s, run).value, r);
  }

  lemma ShutdownStays(s: State, a: Action)
    requires Step(s, a).Some?
    ensures Step(s, a).value.conn.shutdown >= s.conn.shutdown
  {
  }

  lemma {:induction false} RunsOn(s: State, run: seq<Action>)
    requires Inv(s) && Exec(s, run).Some?
    ensures Inv(Exec(s, run).value)
    ensures Exec(s, run).value.conn.shutdown >= s.conn.shutdown
    decreases |run|
  {
    hide InvRequests, InvLifecycle;
    ExecKeeps(s, run);
    if run != [] {
      RunsOn(s, run[..|run|-1]);
      ShutdownStays(Exec(s, run[..|run|-1]).value, run[|run|-1]);
    }
  }

  lemma {:induction false} Concatenate(s: State, run: seq<Action>, more: seq<Action>)
    requires Exec(s, run).Some?
    ensures Exec(s, run + more) == Exec(Exec(s, run).value, more)
    decreases |more|
  {
    if more == [] {
      assert run + more == run;
    } else {
      var init, a := more[..|more|-1], more[|more|-1];
      Concatenate(s, run, init);
      assert run + more == (run + init) + [a];
      assert ((run + init) + [a])[..|run + init|] == run + init;
    }
  }

  lemma StepConfig(s: State, a: Action)
    requires Step(s, a).Some?
    ensures Step(s, a).value.cfg == s.cfg
  {
  }

  lemma {:induction false} ConfigStays(s: State, run: seq<Action>)
    requires Exec(s, run).Some?
    ensures Exec(s, run).value.cfg == s.cfg
    decreases |run|
  {
    hide Step;
    if run != [] {
      ConfigStays(s, run[..|run|-1]);
      StepConfig(Exec(s, run[..|run|-1]).value, run[|run|-1]);
    }
  }

  /**
   * Once `shutdown` is closed, in every later state with the request lock free the
   * table is empty, so a request is answered, in a reader's hand, still with a
   * sender that will be refused, or was dropped by the filter.
   */
  lemma ShutdownDrains(s: State, before: seq<Action>, run: seq<Action>, r: nat)
    requires Exec(Init(s.cfg), before) == Some(s) && s.conn.shutdown > 0 && Exec(s, run).Some?
    ensures var u := Exec(s, run).value;
      && u.conn.shutdown > 0
      && (u.requestLock == None ==>
            && u.q.table == EMPTY
            && (r < |u.q.methods| ==>
                  WithItsSender(u, r) || InReadersHand(u, r) || IsAnswered(u, r)
                      || DroppedIn(Init(s.cfg), before + run, r)))
  {
    hide Reachable, WithItsSender, InReadersHand, IsAnswered, DroppedIn, InvThreads, InvPending, InvOwners;
    InitInv(s.cfg);
    ExecKeeps(Init(s.cfg), before);
    RunsOn(s, run);
    var u := Exec(s, run).value;
    if u.requestLock == None && r < |u.q.methods| {
      Concatenate(Init(s.cfg), before, run);
      ConfigStays(Init(s.cfg), before + run);
      NoRequestLost(u, before + run, r);
      assert InvShutdown(u);
    }
  }

  // ----- The index

  /** While ids are unique, looking an id up in `requestMap` is searching `requestList` for it. */
  lemma IndexIsSearch(s: State, id: nat)
    requires Reachable(s) && |s.q.methods| <= ID_SPACE
    ensures Remove(s.q.table, id).1 == Search(s.q.table.list, id)
    ensures forall r <- s.q.table.list :: Remove(s.q.table, IdOf(r)).1 == Some(r)
    ensures id in s.q.table.index ==> s.q.table.index[id] in s.q.table.list
  {
    ReachableInv(s);
    assert InvTable(s.q);
    hide InvThreads, InvPending, InvOwners, InvLog, InvLifecycle;
    RemoveIsSearch(s.q.table, id);
  }

  // ----- The life of a connection

  /** New or Connect is between announcing the connection and having started all its goroutines. */
  ghost predicate SomeoneLaunches(s: State) {
    exists t: nat :: t < |s.threads| && Launching(s.threads[t])
  }

  lemma NobodyLaunches(s: State)
    requires !SomeoneLaunches(s)
    ensures !BeforeStart(s) && !BeforeHandler(s)
  {
    assert s.threads != [] ==> !Launching(s.threads[0]);
    assert s.mtx.Some? && s.mtx.value < |s.threads| ==> !Launching(s.threads[s.mtx.value]);
  }

  /** A connection that is up has a reader that will disconnect it, or is being restarted. */
  lemma LiveConnectionHasReader(s: State)
    requires Reachable(s) && s.conn.established > 0 && !SomeoneLaunches(s) && !s.conn.disconnected
    ensures exists t: nat :: t < |s.threads| && (LiveReader(s.threads[t]) || s.threads[t] == HandStart)
  {
    ReachableInv(s);
    NobodyLaunches(s);
    assert InvLife(s);
    hide InvRequests, InvThreads, InvHandler, InvConn, InvWg;
    if HasReader(s) {
      assert LiveReader(s.threads[s.conn.reader]);
    } else {
      assert s.threads[s.conn.handler.value] == HandStart;
    }
  }

  lemma NobodyCounted(s: State)
    requires InvWg(s) && s.conn.wg == 0
    ensures !HasReader(s) && !Restarting(s)
    ensures s.conn.handler.Some? && s.conn.handler.value < |s.threads| ==> !IsHandler(s.threads[s.conn.handler.value])
  {
    if s.conn.reader < |s.threads| {
      TotalZero(s.threads, s.conn.reader);
    }
    if s.conn.handler.Some? && s.conn.handler.value < |s.threads| {
      TotalZero(s.threads, s.conn.handler.value);
    }
  }

  /**
   * When the WaitGroup is zero the client is quiescent: disconnected, and shut down
   * if it would reconnect; also when Shutdown ran between a successful dial and the reset.
   */
  lemma Quiescence(s: State)
    requires Reachable(s) && s.conn.established > 0 && !SomeoneLaunches(s) && s.conn.wg == 0
    ensures s.conn.disconnected && s.conn.closes != [] && s.conn.closes[|s.conn.closes| - 1] == 1
    ensures s.cfg.autoReconnect ==> s.conn.shutdown == 1
  {
    hide Reachable, InvRequests, InvThreads, BeforeStart, BeforeHandler, HasReader, Restarting, Total;
    ReachableInv(s);
    NobodyLaunches(s);
    NobodyCounted(s);
  }

  /** Reachability, one action at a time. */
  lemma Extend(s: State, run: seq<Action>, a: Action)
    requires Exec(s, run).Some?
    ensures Exec(s, run + [a]) == Step(Exec(s, run).value, a)
  {
    assert (run + [a])[..|run|] == run;
  }

  lemma Advance(cfg: Config, s: State, a: Action) returns (u: State)
    requires s.cfg == cfg && Reachable(s) && Step(s, a).Some? && Step(s, a).value.cfg == cfg
    ensures u == Step(s, a).value && Reachable(u)
  {
    var run :| Exec(Init(cfg), run) == Some(s);
    Extend(Init(cfg), run, a);
    u := Step(s, a).value;
    assert Exec(Init(u.cfg), run + [a]) == Some(u);
  }

  /** A client that New connected, with its four goroutines running or done. */
  function Connected(cfg: Config): State {
    State(cfg, Requests([], EMPTY, {}, [], []), Conn(1, 0, [0], false, 1, {}, 3, 1, Some(3)),
          None, None, [Finished, ReadCheck, WriteCapture, HandWait], 0)
  }

  lemma InitReachable(cfg: Config)
    ensures Reachable(Init(cfg))
  {
    assert Exec(Init(cfg), []) == Some(Init(cfg));
  }

  lemma ConnectedReachable(cfg: Config)
    requires cfg.autoReconnect && cfg.connectOnNew
    ensures Reachable(Connected(cfg))
  {
    InitReachable(cfg);
    hide Reachable;
    var s := Advance(cfg, Init(cfg), Run(0, Tau));
    assert s.threads == [NewStart];
    s := Advance(cfg, s, Run(0, Tau));
    assert s.threads == [NewHandler, ReadCheck, WriteCapture];
    s := Advance(cfg, s, Run(0, Tau));
    assert s.threads == Connected(cfg).threads;
  }

  /** The same client after a Disconnect, the handler having dialed again. */
  function Reconnecting(cfg: Config): State {
    Connected(cfg).(conn := Dial(DoDisconnect(Connected(cfg).conn)),
        threads := [Finished, ReadCheck, WriteCapture, HandReset, Finished])
  }

  lemma ReconnectingReachable(cfg: Config)
    requires cfg.autoReconnect && cfg.connectOnNew
    ensures Reachable(Reconnecting(cfg))
  {
    hide Reachable;
    ConnectedReachable(cfg);
    var s := Advance(cfg, Connected(cfg), CallDisconnect);
    assert s.threads == [Finished, ReadCheck, WriteCapture, HandWait, DiscMtx(ByUser)];
    s := Advance(cfg, s, Run(4, Tau));
    assert s.threads == [Finished, ReadCheck, WriteCapture, HandWait, DiscLock(ByUser)];
    s := Advance(cfg, s, Run(4, Tau));
    assert s.threads == [Finished, ReadCheck, WriteCapture, HandWait, Finished];
    s := Advance(cfg, s, Run(3, Tau));
    s := Advance(cfg, s, Run(3, Tau));
    s := Advance(cfg, s, Run(3, Tau));
    assert s.threads == Reconnecting(cfg).threads;
  }

  /** The race that Quiescence survives does occur: `shutdown` closed while the handler is about to reset the flag. */
  lemma ShutdownDuringReconnect(cfg: Config) returns (s: State)
    requires cfg.autoReconnect && cfg.connectOnNew
    ensures Reachable(s) && s.cfg == cfg && s.conn.shutdown == 1 && s.conn.disconnected && HandReset in s.threads
  {
    hide Reachable;
    ReconnectingReachable(cfg);
    s := Advance(cfg, Reconnecting(cfg), CallShutdown);
    s := Advance(cfg, s, Run(5, Tau));
    s := Advance(cfg, s, Run(5, Tau));
    s := Advance(cfg, s, Run(5, Tau));
    assert s.threads[3] == HandReset;
  }

  lemma NowhereUnanswered(s: State, r: nat)
    requires IsNowhere(s, r)
    ensures !IsAnswered(s, r)
  {
  }

  /** A connected client whose only request is registered. */
  lemma RescanPending(cfg: Config) returns (s: State)
    requires cfg.autoReconnect && cfg.connectOnNew
    ensures Reachable(s) && s.cfg == cfg && s.conn == Connected(cfg).conn && s.requestLock == None && s.mtx == None
    ensures s.threads == [Finished, ReadCheck, WriteCapture, HandWait, SendCapture]
    ensures s.q.methods == ["rescan"] && s.q.table.list == [0] && s.q.log == [] && s.q.where == [Pending]
  {
    hide Reachable;
    ConnectedReachable(cfg);
    s := Advance(cfg, Connected(cfg), Call("rescan", true));
    s := Advance(cfg, s, Run(4, Tau));
    s := Advance(cfg, s, Run(4, Tau));
  }

  /** The same client, disconnected, the handler about to dial again. */
  lemma RescanDisconnected(cfg: Config) returns (s: State)
    requires cfg.autoReconnect && cfg.connectOnNew
    ensures Reachable(s) && s.cfg == cfg && s.conn == DoDisconnect(Connected(cfg).conn) && s.requestLock == None
    ensures s.mtx == None
    ensures s.threads == [Finished, ReadCheck, WriteCapture, HandWait, SendCapture, Finished]
    ensures s.q.methods == ["rescan"] && s.q.table.list == [0] && s.q.log == [] && s.q.where == [Pending]
  {
    hide Reachable;
    s := RescanPending(cfg);
    s := Advance(cfg, s, CallDisconnect);
    s := Advance(cfg, s, Run(5, Tau));
    s := Advance(cfg, s, Run(5, Tau));
  }

  /** The same client, the handler having dialed again and taken up the new connection. */
  lemma RescanRedialed(cfg: Config) returns (s: State)
    requires cfg.autoReconnect && cfg.connectOnNew
    ensures Reachable(s) && s.cfg == cfg && s.conn.closes != [] && s.requestLock == None && s.mtx == None
    ensures s.threads == [Finished, ReadCheck, WriteCapture, HandStart, SendCapture, Finished]
    ensures s.q.methods == ["rescan"] && s.q.table.list == [0] && s.q.log == [] && s.q.where == [Pending]
  {
    hide Reachable;
    s := RescanDisconnected(cfg);
    s := Advance(cfg, s, Run(3, Tau));
    s := Advance(cfg, s, Run(3, Tau));
    s := Advance(cfg, s, Run(3, Tau));
    s := Advance(cfg, s, Run(3, Tau));
  }

  lemma RescanDropped(cfg: Config) returns (s: State)
    requires cfg.autoReconnect && cfg.connectOnNew
    ensures Reachable(s) && s.cfg == cfg && s.q.methods == ["rescan"] && s.q.log == [] && s.q.where == [Dropped]
  {
    hide Reachable;
    s := RescanRedialed(cfg);
    s := Advance(cfg, s, Run(3, Tau));
    s := Advance(cfg, s, Run(3, Tau));
    assert |s.threads| == 9 && s.threads[8] == ResendSnap;
    s := Advance(cfg, s, Run(8, Tau));
  }

  /** The failing case of conservation: a rescan pending when the connection is lost is gone after the redial. */
  lemma RescanNeverAnswered(cfg: Config) returns (s: State)
    requires cfg.autoReconnect && cfg.connectOnNew
    ensures Reachable(s) && s.cfg == cfg && s.q.methods == ["rescan"] && s.q.log == [] && IsNowhere(s, 0)
    ensures forall run :: Exec(s, run).Some? ==> !IsAnswered(Exec(s, run).value, 0)
  {
    hide Reachable, IsNowhere, IsAnswered;
    s := RescanDropped(cfg);
    ReachableInv(s);
    NowhereMeans(s, 0);
    forall run | Exec(s, run).Some? ensures !IsAnswered(Exec(s, run).value, 0) {
      DroppedStays(s, run, 0);
      NowhereUnanswered(Exec(s, run).value, 0);
    }
  }

  // ----- The failing loop, run to its end

  /** Thread `t` is failing every pending request with `o`, and `i` are done. */
  predicate Failing(s: State, t: nat, i: nat, o: Outcome) {
    && t < |s.threads| && i <= |s.q.table.list|
    && ((s.threads[t].DiscLoop? && s.threads[t].i == i && o == ErrDisconnect)
        || (s.threads[t] == ShutLoop(i) && o == ErrShutdown))
  }

  lemma FailingBound(s: State, t: nat, i: nat, o: Outcome)
    requires Failing(s, t, i, o)
    ensures i <= |s.q.table.list|
  {
  }

  /** Only thread `t` moved, and besides that only requests changed hands. */
  ghost predicate OnlyMoved(s: State, u: State, t: nat, pc: Pc)
    requires t < |s.threads|
  {
    u == Goto(s, t, pc).(q := u.q) && u.q.methods == s.q.methods
  }

  /** The loop with `i` requests done. */
  function FailingAt(pc: Pc, i: nat): Pc {
    match pc case DiscLoop(who, _) => DiscLoop(who, i) case _ => ShutLoop(i)
  }

  lemma FailingSends(s: State, t: nat, i: nat, o: Outcome)
    requires s.conn.closes != [] && Failing(s, t, i, o) && i < |s.q.table.list|
    ensures Step(s, Run(t, Tau)) == SendThen(s, t, s.q.table.list[i], o, FailingAt(s.threads[t], i + 1))
  {
    hide Send;
  }

  lemma FailingStep(s: State, t: nat, i: nat, o: Outcome)
    requires Inv(s) && Failing(s, t, i, o) && i < |s.q.table.list|
    ensures Step(s, Run(t, Tau)).Some?
    ensures var u := Step(s, Run(t, Tau)).value;
      && Inv(u) && Failing(u, t, i + 1, o) && OnlyMoved(s, u, t, FailingAt(s.threads[t], i + 1))
      && u.q.table == s.q.table && u.q.log == s.q.log + [Delivery(s.q.table.list[i], o)]
  {
    hide InvThreads, InvRequests, InvShutdown, InvHandler, InvLife, InvWg, Step;
    FailingSends(s, t, i, o);
    FailKeeps(s, t, i, o, FailingAt(s.threads[t], i + 1));
  }

  lemma FailingHere(s: State, t: nat, i: nat, o: Outcome)
    requires Failing(s, t, i, o)
    ensures i <= |s.q.table.list| && t < |s.threads| && OnlyMoved(s, s, t, FailingAt(s.threads[t], i))
  {
    assert s.threads[t := s.threads[t]] == s.threads;
  }

  lemma MovedOn(s: State, u: State, v: State, t: nat, i: nat, j: nat)
    requires t < |s.threads| && OnlyMoved(s, u, t, FailingAt(s.threads[t], i))
    requires t < |u.threads| && OnlyMoved(u, v, t, FailingAt(u.threads[t], j))
    ensures OnlyMoved(s, v, t, FailingAt(s.threads[t], j))
  {
    assert s.threads[t := u.threads[t]][t := v.threads[t]] == s.threads[t := v.threads[t]];
  }

  /**
   * Left to run, the loop of Disconnect or Shutdown answers what is
   * pending, once each and in order, as the method FailAll does.
   */
  lemma {:induction false} FailingRuns(s: State, t: nat, i: nat, o: Outcome) returns (run: seq<Action>)
    requires Inv(s) && Failing(s, t, i, o)
    ensures (forall a <- run :: a == Run(t, Tau)) && Exec(s, run).Some?
    ensures var u := Exec(s, run).value;
      && Inv(u) && Failing(u, t, |s.q.table.list|, o) && OnlyMoved(s, u, t, FailingAt(s.threads[t], |s.q.table.list|))
      && u.q.table == s.q.table && u.q.log == s.q.log + Failures(s.q.table.list[i..], o)
    decreases |s.q.table.list| - i
  {
    hide Inv, Failing, Step, OnlyMoved, FailingAt;
    FailingHere(s, t, i, o);
    if i == |s.q.table.list| {
      run := [];
    } else {
      FailingStep(s, t, i, o);
      var u := Step(s, Run(t, Tau)).value;
      FailingHere(u, t, i + 1, o);
      var rest := FailingRuns(u, t, i + 1, o);
      Extend(s, [], Run(t, Tau));
      assert [] + [Run(t, Tau)] == [Run(t, Tau)];
      Concatenate(s, [Run(t, Tau)], rest);
      run := [Run(t, Tau)] + rest;
      MovedOn(s, u, Exec(s, run).value, t, i + 1, |s.q.table.list|);
      assert Failures(s.q.table.list[i..], o) == [Delivery(s.q.table.list[i], o)] + Failures(s.q.table.list[i+1..], o);
    }
  }

  // ----- Channels

  /** No channel is closed twice, and the flag says whether the current `disconnect` channel is closed. */
  lemma ChannelDiscipline(s: State)
    requires Reachable(s)
    ensures s.conn.shutdown <= 1 && s.conn.established <= 1
    ensures forall g :: 0 <= g < |s.conn.closes| ==> s.conn.closes[g] <= 1
    ensures s.conn.closes != [] && (s.conn.disconnected <==> s.conn.closes[|s.conn.closes| - 1] == 1)
  {
    hide Reachable, InvRequests, InvThreads, InvHandler, InvLife, InvWg;
    ReachableInv(s);
    forall g | 0 <= g < |s.conn.closes| ensures s.conn.closes[g] <= 1 {
      assert g < Current(s.conn) || g == Current(s.conn);
    }
  }

  /** `disconnect` is replaced only once it is closed. */
  lemma ReplacedOnlyClosed(s: State, t: nat)
    requires Reachable(s) && t < |s.threads| && s.threads[t] == HandReset
    ensures s.conn.closes != [] && Closed(s.conn, Current(s.conn))
  {
    hide Reachable, InvRequests, InvLife, InvHandler, InvWg, InvShutdown;
    ReachableInv(s);
    assert ThreadOk(FactsOf(s), t, s.threads[t]);
  }

  lemma ClosedOlder(k: Conn, onNew: bool, gen: nat)
    requires InvConn(k, onNew) && (gen < Current(k) || (gen == Current(k) && k.disconnected))
    ensures Closed(k, gen)
  {
  }

  /** So whoever waits on an older `disconnect` channel, or on a closed one, can go on. */
  lemma NoWaiterStranded(s: State, t: nat)
    requires Reachable(s) && t < |s.threads|
    requires s.threads[t].SendWait? || s.threads[t].WriteWait? || s.threads[t].ResendWait?
    ensures s.threads[t].gen < |s.conn.closes|
    ensures s.threads[t].gen < |s.conn.closes| - 1 || s.conn.disconnected ==> Step(s, Run(t, Alt)).Some?
  {
    hide Reachable, InvRequests, InvLife, InvHandler, InvWg, InvShutdown, HoldsRequestLock, HoldsMtx, IsHandler;
    ReachableInv(s);
    assert ThreadOk(FactsOf(s), t, s.threads[t]);
    if s.threads[t].gen < |s.conn.closes| - 1 || s.conn.disconnected {
      ClosedOlder(s.conn, s.cfg.connectOnNew, s.threads[t].gen);
    }
  }

  // ----- Locks

  predicate WantsRequestLock(pc: Pc) {
    pc.SendAdd? || pc.ReadLookup? || pc.DiscLock? || pc.ShutLock? || pc.ResendSnap?
  }

  predicate WantsMtx(pc: Pc) {
    pc.SendCapture? || pc.WriteCapture? || pc.DiscMtx? || pc.ShutMtx? || pc.HandReset?
    || (pc.ResendCheck? && pc.reqs != []) || pc.ResendCapture? || pc.ConnLock?
  }

  /** Thread `i` cannot go on before thread `j` gives a lock back. */
  predicate WaitsFor(s: State, i: nat, j: nat) {
    i < |s.threads| &&
    ((WantsRequestLock(s.threads[i]) && s.requestLock == Some(j)) || (WantsMtx(s.threads[i]) && s.mtx == Some(j)))
  }

  /** Waiting never cycles: whoever waits for a waiter waits for one that waits for a running thread. */
  lemma WaitingIsShallow(s: State, a: nat, b: nat, c: nat, d: nat)
    requires Reachable(s) && WaitsFor(s, a, b) && WaitsFor(s, b, c)
    ensures !WaitsFor(s, c, d)
    ensures a != b && b != c && a != c
  {
    ReachableInv(s);
    hide InvRequests, InvLifecycle;
    assert b < |s.threads| && ThreadOk(FactsOf(s), b, s.threads[b]);
    assert c < |s.threads| && ThreadOk(FactsOf(s), c, s.threads[c]);
    assert ThreadOk(FactsOf(s), a, s.threads[a]);
  }

  lemma MtxHolderProgress(s: State, t: nat)
    requires s.conn.closes != [] && t < |s.threads| && HoldsMtx(s.threads[t])
    ensures Step(s, Run(t, Tau)).Some?
  {
  }

  lemma RequestLockHolderProgress(s: State, t: nat)
    requires s.conn.closes != [] && t < |s.threads| && HoldsRequestLock(s.threads[t])
    requires Answering(s, s.threads[t]) == None && (s.threads[t] == ShutMtx ==> s.mtx == None)
    ensures Step(s, Run(t, Tau)).Some?
  {
  }

  /** A thread holding a lock can go on, or waits for one that can. */
  lemma LockHoldersProgress(s: State, t: nat)
    requires Reachable(s) && (s.requestLock == Some(t) || s.mtx == Some(t))
    ensures t < |s.threads|
    ensures Step(s, Run(t, Tau)).Some?
      || (s.mtx.Some? && WaitsFor(s, t, s.mtx.value) && Step(s, Run(s.mtx.value, Tau)).Some?)
  {
    ReachableInv(s);
    assert ThreadOk(FactsOf(s), t, s.threads[t]);
    if Answering(s, s.threads[t]).Some? {
      SendsNeverBlock(s, t);
    } else if s.threads[t] == ShutMtx && s.mtx.Some? {
      var m := s.mtx.value;
      assert ThreadOk(FactsOf(s), m, s.threads[m]);
      MtxHolderProgress(s, m);
    } else if HoldsMtx(s.threads[t]) {
      MtxHolderProgress(s, t);
    } else {
      RequestLockHolderProgress(s, t);
    }
  }
}

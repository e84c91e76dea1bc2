/**
 * What the operations of the client achieve when nothing stands in their way: each is a
 * run of one goroutine, and what it leaves behind is said in terms of the request table,
 * the deliveries and the connection.
 */
module ClientOperations {
  import opened Basics
  import opened RequestTable
  import opened ClientProtocol
  import opened ClientInvariant
  import opened ClientInduction
  import opened ClientTheorems

  // ----- Short runs

  lemma Cons(s: State, a: Action, rest: seq<Action>)
    requires Step(s, a).Some?
    ensures Exec(s, [a] + rest) == Exec(Step(s, a).value, rest)
  {
    hide Step;
    Extend(s, [], a);
    assert [] + [a] == [a];
    Concatenate(s, [a], rest);
  }

  lemma One(s: State, a: Action)
    requires Step(s, a).Some?
    ensures Exec(s, [a]) == Step(s, a)
  {
    hide Step;
    Cons(s, a, []);
    assert [a] + [] == [a];
  }

  lemma Two(s: State, a: Action, b: Action)
    requires Step(s, a).Some? && Step(Step(s, a).value, b).Some?
    ensures Exec(s, [a, b]) == Step(Step(s, a).value, b)
  {
    hide Step;
    Cons(s, a, [b]);
    assert [a] + [b] == [a, b];
    One(Step(s, a).value, b);
  }

  lemma Three(s: State, a: Action, b: Action, c: Action)
    requires Step(s, a).Some? && Step(Step(s, a).value, b).Some?
    requires Step(Step(Step(s, a).value, b).value, c).Some?
    ensures Exec(s, [a, b, c]) == Step(Step(Step(s, a).value, b).value, c)
  {
    hide Step;
    Cons(s, a, [b, c]);
    assert [a] + [b, c] == [a, b, c];
    Two(Step(s, a).value, b, c);
  }

  lemma ByDisc(s: State, t: nat)
    requires s.conn.closes != [] && t < |s.threads| && KindOf(s.threads[t]) == KDisc
    ensures Step(s, Run(t, Tau)) == StepDisc(s, t)
  {
    hide StepDisc;
  }

  lemma ByShut(s: State, t: nat)
    requires s.conn.closes != [] && t < |s.threads| && KindOf(s.threads[t]) == KShut
    ensures Step(s, Run(t, Tau)) == StepShut(s, t)
  {
    hide StepShut;
  }

  lemma ByHand(s: State, t: nat, c: Choice)
    requires s.conn.closes != [] && t < |s.threads| && KindOf(s.threads[t]) == KHand
    ensures Step(s, Run(t, c)) == StepHand(s, t, c)
  {
    hide StepHand;
  }

  lemma ByConnect(s: State, t: nat, c: Choice)
    requires s.conn.closes != [] && t < |s.threads| && KindOf(s.threads[t]) == KConnect
    ensures Step(s, Run(t, c)) == StepConnect(s, t, c)
  {
    hide StepConnect;
  }

  lemma ByRead(s: State, t: nat, c: Choice)
    requires s.conn.closes != [] && t < |s.threads| && KindOf(s.threads[t]) == KRead
    ensures Step(s, Run(t, c)) == StepRead(s, t, c)
  {
    hide StepRead;
  }

  // ----- handleMessage

  /** With the lock free a request of the table has not been answered, and its channel is empty. */
  lemma ListedUnanswered(s: State, r: nat)
    requires Inv(s) && s.requestLock == None && r in s.q.table.list
    ensures r < |s.q.methods| && r !in s.q.full
  {
    hide InvThreads, InvOwners, InvLifecycle;
  }

  lemma ListedIndexed(s: State)
    requires Inv(s)
    ensures WF(s.q.table)
  {
    hide InvThreads, InvPending, InvOwners, InvLog, InvLifecycle;
  }

  lemma ClosesThere(s: State)
    requires Inv(s)
    ensures s.conn.closes != []
  {
    hide InvThreads, InvRequests, InvShutdown, InvHandler, InvLife, InvWg;
  }

  lemma DeliverSteps(s: State, t: nat, id: nat, r: nat)
    requires s.conn.closes != [] && s.requestLock == None && t < |s.threads| && s.threads[t].ReadWait?
    requires Remove(s.q.table, id).1 == Some(r) && r < |s.q.methods| && r !in s.q.full
    ensures Exec(s, [Run(t, Read(ReplyTo(id))), Run(t, Tau), Run(t, Tau)]).Some?
    ensures var u := Exec(s, [Run(t, Read(ReplyTo(id))), Run(t, Tau), Run(t, Tau)]).value;
      && OnlyMoved(s, u, t, ReadCheck) && u.q.table == Remove(s.q.table, id).0
      && u.q.log == s.q.log + [Delivery(r, Reply(id))] && u.q.full == s.q.full + {r}
  {
    hide Remove, Exec, Step;
    var a, b := Run(t, Read(ReplyTo(id))), Run(t, Tau);
    ByRead(s, t, a.c);
    var s1 := Step(s, a).value;
    ByRead(s1, t, b.c);
    var s2 := Step(s1, b).value;
    ByRead(s2, t, b.c);
    Three(s, a, b, b);
    assert s2.threads[t := ReadCheck] == s.threads[t := ReadCheck];
  }

  /** The reply to a pending request: read, looked up, delivered. */
  lemma ReplyDelivered(s: State, t: nat, id: nat, r: nat)
    requires Reachable(s) && s.requestLock == None && t < |s.threads| && s.threads[t].ReadWait?
    requires Remove(s.q.table, id).1 == Some(r)
    ensures Exec(s, [Run(t, Read(ReplyTo(id))), Run(t, Tau), Run(t, Tau)]).Some?
    ensures var u := Exec(s, [Run(t, Read(ReplyTo(id))), Run(t, Tau), Run(t, Tau)]).value;
      && OnlyMoved(s, u, t, ReadCheck) && IdOf(r) == id
      && u.q.table == Remove(s.q.table, id).0 && r in s.q.table.list && Unlinked(s.q.table, u.q.table, r)
      && u.q.log == s.q.log + [Delivery(r, Reply(id))] && u.q.full == s.q.full + {r}
  {
    hide Reachable, Inv, Remove, Exec;
    ReachableInv(s);
    ListedIndexed(s);
    RemoveKeeps(s.q.table, id);
    RemoveUnlinks(s.q.table, id);
    ListedUnanswered(s, r);
    ClosesThere(s);
    DeliverSteps(s, t, id, r);
  }

  /** Any other message changes nothing. */
  lemma OtherMessagesIgnored(s: State, t: nat, id: nat)
    requires Reachable(s) && s.requestLock == None && t < |s.threads| && s.threads[t].ReadWait?
    ensures Exec(s, [Run(t, Read(NotAReply))]) == Some(Goto(s, t, ReadCheck))
    ensures Remove(s.q.table, id).1 == None ==>
      Exec(s, [Run(t, Read(ReplyTo(id))), Run(t, Tau)]) == Some(Goto(s, t, ReadCheck))
  {
    hide Reachable, Inv, Remove, Exec, Step;
    ReachableInv(s);
    ClosesThere(s);
    ByRead(s, t, Read(NotAReply));
    One(s, Run(t, Read(NotAReply)));
    if Remove(s.q.table, id).1 == None {
      ByRead(s, t, Read(ReplyTo(id)));
      ByRead(Step(s, Run(t, Read(ReplyTo(id)))).value, t, Tau);
      Two(s, Run(t, Read(ReplyTo(id))), Run(t, Tau));
      assert s.threads[t := ReadLookup(id)][t := ReadCheck] == s.threads[t := ReadCheck];
    }
  }

  /** A caller takes the response of its request when there is one, and nothing else changes. */
  lemma ReceiveTakes(s: State, r: nat)
    ensures Exec(s, [Receive(r)]) == if r in s.q.full then Some(s.(q := s.q.(full := s.q.full - {r}))) else None
  {
    if r in s.q.full { One(s, Receive(r)); } else { assert [Receive(r)][..0] == []; }
  }

  // ----- sendRequest and sendMessage

  /** Channels of requests yet to be made are empty. */
  lemma NewChannel(s: State)
    requires Inv(s)
    ensures |s.q.methods| !in s.q.full && s.conn.closes != []
  {
    hide InvThreads, InvPending, InvOwners, InvShutdown, InvHandler, InvLife, InvWg;
  }

  /** A connected client that is not shut down registers the request: last in the list, and under its id. */
  lemma RequestRegistered(s: State, name: string)
    requires Reachable(s) && Returned(s) && s.conn.established > 0 && s.conn.shutdown == 0 && s.requestLock == None
    ensures Exec(s, [Call(name, true), Run(|s.threads|, Tau), Run(|s.threads|, Tau)]).Some?
    ensures var u := Exec(s, [Call(name, true), Run(|s.threads|, Tau), Run(|s.threads|, Tau)]).value;
      var r := |s.q.methods|;
      && u == s.(threads := s.threads + [SendCapture], q := u.q)
      && u.q.methods == s.q.methods + [name] && u.q.log == s.q.log && u.q.full == s.q.full
      && u.q.table.list == s.q.table.list + [r] && u.q.table.index == s.q.table.index[IdOf(r) := r]
  {
    hide Reachable, Inv, Exec;
    ReachableInv(s);
    NewChannel(s);
    var t := |s.threads|;
    var s1 := Step(s, Call(name, true)).value;
    var s2 := Step(s1, Run(t, Tau)).value;
    assert s2.threads == s.threads + [SendAdd(|s.q.methods|)];
    Three(s, Call(name, true), Run(t, Tau), Run(t, Tau));
    assert Step(s2, Run(t, Tau)).value.threads == s.threads + [SendCapture];
  }

  /** Otherwise it is refused, for the reason there is, and never registered. */
  lemma RequestRefused(s: State, name: string) returns (run: seq<Action>)
    requires Reachable(s) && Returned(s)
    requires s.conn.established > 0 ==> s.conn.shutdown > 0 && s.requestLock == None
    ensures Exec(s, run).Some?
    ensures var u := Exec(s, run).value;
      && u == s.(threads := s.threads + [Finished], q := u.q) && u.q.methods == s.q.methods + [name]
      && u.q.table == s.q.table
      && u.q.log == s.q.log
          + [Delivery(|s.q.methods|, if s.conn.established > 0 then ErrShutdown else ErrNotConnected)]
  {
    hide Reachable, Inv, Exec;
    ReachableInv(s);
    NewChannel(s);
    var t, a := |s.threads|, Run(|s.threads|, Tau);
    var s1 := Step(s, Call(name, true)).value;
    var s2 := Step(s1, a).value;
    Two(s, Call(name, true), a);
    run := [Call(name, true), a];
    if s.conn.established > 0 {
      assert s2.threads == s.threads + [SendAdd(|s.q.methods|)];
      Extend(s, run, a);
      run := run + [a];
    }
    var s3 := Exec(s, run).value;
    assert s3.threads[t].SendReject?;
    Extend(s, run, a);
    run := run + [a];
  }

  /** A command that does not marshal is answered at once. */
  lemma CallUnmarshalled(s: State, name: string)
    requires Reachable(s) && Returned(s)
    ensures Exec(s, [Call(name, false), Run(|s.threads|, Tau)]).Some?
    ensures var u := Exec(s, [Call(name, false), Run(|s.threads|, Tau)]).value;
      && u == s.(threads := s.threads + [Finished], q := u.q) && u.q.methods == s.q.methods + [name]
      && u.q.table == s.q.table && u.q.log == s.q.log + [Delivery(|s.q.methods|, ErrMarshal)]
  {
    hide Reachable, Inv, Exec;
    ReachableInv(s);
    NewChannel(s);
    Two(s, Call(name, false), Run(|s.threads|, Tau));
  }

  /** The message of a registered request enters `sendChan` if there is room; once disconnected it need not. */
  lemma MessageQueued(s: State, t: nat)
    requires Reachable(s) && t < |s.threads| && s.threads[t] == SendCapture && s.mtx == None
    ensures s.queued < SEND_BUFFER ==>
      Exec(s, [Run(t, Tau), Run(t, Tau)]) == Some(Goto(s, t, Finished).(queued := s.queued + 1))
    ensures s.conn.disconnected ==> Exec(s, [Run(t, Tau), Run(t, Alt)]) == Some(Goto(s, t, Finished))
  {
    hide Reachable, InvThreads, InvRequests, InvShutdown, InvHandler, InvLife, InvWg, Exec;
    ReachableInv(s);
    var s1 := Step(s, Run(t, Tau)).value;
    assert s1.threads[t := Finished] == s.threads[t := Finished];
    if s.queued < SEND_BUFFER { Two(s, Run(t, Tau), Run(t, Tau)); }
    if s.conn.disconnected { Two(s, Run(t, Tau), Run(t, Alt)); }
  }

  // ----- resendRequests

  lemma SnapStep(s: State, t: nat)
    requires s.conn.closes != [] && t < |s.threads| && s.threads[t] == ResendSnap && s.requestLock == None
    ensures Step(s, Run(t, Tau))
         == Some(Goto(s, t, ResendCheck(Kept(s.q.table.list, s.q.methods))).(q := DropIgnored(s.q)))
  {
    hide DropIgnored;
  }

  lemma ListedMade(s: State)
    requires Inv(s)
    ensures forall r <- s.q.table.list :: r < |s.q.methods|
  {
    hide InvThreads, InvPending, InvOwners, InvLog, InvLifecycle;
  }

  /** What is walked is the list that is kept, and nothing is answered. */
  lemma ResendSnaps(s: State, t: nat)
    requires Reachable(s) && t < |s.threads| && s.threads[t] == ResendSnap && s.requestLock == None
    ensures Step(s, Run(t, Tau)).Some?
    ensures var u := Step(s, Run(t, Tau)).value;
      && OnlyMoved(s, u, t, ResendCheck(u.q.table.list)) && u.q.log == s.q.log && u.q.full == s.q.full
      && u.q.table == Keep(s.q.table, s.q.methods)
  {
    hide Reachable, Inv, Step, Kept;
    ReachableInv(s);
    ClosesThere(s);
    SnapStep(s, t);
  }

  /** Kept are all requests but those whose method is not reissued. */
  lemma ResendKept(s: State, r: nat)
    requires Reachable(s)
    ensures r in Keep(s.q.table, s.q.methods).list <==>
      r in s.q.table.list && r < |s.q.methods| && s.q.methods[r] !in IGNORE_RESENDS
  {
    hide Reachable, Inv, Keep, WF;
    ReachableInv(s);
    ListedMade(s);
    ListedIndexed(s);
    KeepKeeps(s.q.table, s.q.methods);
  }

  lemma ResendChecks(s: State, t: nat)
    requires s.conn.closes != [] && t < |s.threads| && s.threads[t].ResendCheck? && s.threads[t].reqs != []
    requires s.mtx == None && !s.conn.disconnected
    ensures Step(s, Run(t, Tau)) == Some(Goto(s, t, ResendCapture(s.threads[t].reqs)))
  {
  }

  lemma ResendCaptures(s: State, t: nat)
    requires s.conn.closes != [] && t < |s.threads| && s.threads[t].ResendCapture? && s.mtx == None
    ensures Step(s, Run(t, Tau)) == Some(Goto(s, t, ResendWait(s.threads[t].reqs, Current(s.conn))))
  {
  }

  lemma ResendPushes(s: State, t: nat)
    requires s.conn.closes != [] && t < |s.threads| && s.threads[t].ResendWait? && s.threads[t].reqs != []
    requires s.queued < SEND_BUFFER
    ensures Step(s, Run(t, Tau)) == Some(Goto(s, t, ResendCheck(s.threads[t].reqs[1..])).(queued := s.queued + 1))
  {
  }

  /** Each request walked is sent once, while the connection is up and there is room. */
  lemma ResendOne(s: State, t: nat)
    requires s.conn.closes != [] && t < |s.threads| && s.threads[t].ResendCheck? && s.threads[t].reqs != []
    requires s.mtx == None && !s.conn.disconnected && s.queued < SEND_BUFFER
    ensures Exec(s, [Run(t, Tau), Run(t, Tau), Run(t, Tau)])
         == Some(Goto(s, t, ResendCheck(s.threads[t].reqs[1..])).(queued := s.queued + 1))
  {
    hide Exec, Step;
    ResendChecks(s, t);
    var s1 := Step(s, Run(t, Tau)).value;
    ResendCaptures(s1, t);
    var s2 := Step(s1, Run(t, Tau)).value;
    ResendPushes(s2, t);
    Three(s, Run(t, Tau), Run(t, Tau), Run(t, Tau));
    assert s2.threads[t := ResendCheck(s.threads[t].reqs[1..])]
        == s.threads[t := ResendCheck(s.threads[t].reqs[1..])];
  }

  lemma ResendEnds(s: State, t: nat)
    requires s.conn.closes != [] && t < |s.threads| && s.threads[t] == ResendCheck([])
    ensures Step(s, Run(t, Tau)) == Some(Goto(s, t, Finished))
  {
  }

  /** So all of them are. */
  lemma {:induction false} Resends(s: State, t: nat) returns (run: seq<Action>)
    requires s.conn.closes != [] && t < |s.threads| && s.threads[t].ResendCheck?
    requires s.mtx == None && !s.conn.disconnected && s.queued + |s.threads[t].reqs| <= SEND_BUFFER
    ensures Exec(s, run) == Some(Goto(s, t, Finished).(queued := s.queued + |s.threads[t].reqs|))
    decreases |s.threads[t].reqs|
  {
    hide Exec, Step;
    var a := Run(t, Tau);
    if s.threads[t].reqs == [] {
      ResendEnds(s, t);
      One(s, a);
      run := [a];
    } else {
      ResendOne(s, t);
      var u := Exec(s, [a, a, a]).value;
      assert u.threads[t := Finished] == s.threads[t := Finished];
      var rest := Resends(u, t);
      Concatenate(s, [a, a, a], rest);
      run := [a, a, a] + rest;
    }
  }

  // ----- Who waits, and for what

  /** Nobody passes a lock that is held. */
  lemma LocksBlock(s: State, t: nat, c: Choice)
    requires s.conn.closes != [] && t < |s.threads|
    requires (WantsRequestLock(s.threads[t]) && s.requestLock.Some?) || (WantsMtx(s.threads[t]) && s.mtx.Some?)
    ensures Step(s, Run(t, c)) == None
  {
    hide Remove, Keep, Kept, DropIgnored;
  }

  lemma ClosedExact(s: State, gen: nat)
    requires Inv(s)
    ensures Closed(s.conn, gen) <==> gen < |s.conn.closes| && (gen < |s.conn.closes| - 1 || s.conn.disconnected)
  {
    hide InvThreads, InvRequests, InvShutdown, InvHandler, InvLife, InvWg;
  }

  lemma WaitSteps(s: State, t: nat)
    requires s.conn.closes != [] && t < |s.threads|
    ensures s.threads[t].SendWait? || (s.threads[t].ResendWait? && s.threads[t].reqs != []) ==>
      && (Step(s, Run(t, Tau)).Some? <==> s.queued < SEND_BUFFER)
      && (Step(s, Run(t, Alt)).Some? <==> Closed(s.conn, s.threads[t].gen))
    ensures s.threads[t].WriteWait? ==>
      && (Step(s, Run(t, Tau)).Some? <==> s.queued > 0)
      && (Step(s, Run(t, Alt)).Some? <==> Closed(s.conn, s.threads[t].gen))
    ensures s.threads[t] == HandWait ==>
      && (Step(s, Run(t, Tau)).Some? <==> Closed(s.conn, Current(s.conn)))
      && (Step(s, Run(t, Alt)).Some? <==> s.conn.shutdown > 0)
  {
    hide Remove, Keep, Kept, DropIgnored, Closed;
  }

  /**
   * A sender waits until there is room in `sendChan`, the writer until there is a message, and either until the
   * connection it saw is disconnected; the handler until the present one is, or the client shut down.
   */
  lemma WaitsExact(s: State, t: nat)
    requires Reachable(s) && t < |s.threads|
    ensures s.threads[t].SendWait? || s.threads[t].ResendWait? ==>
      && (Step(s, Run(t, Tau)).Some? <==> s.queued < SEND_BUFFER)
      && (Step(s, Run(t, Alt)).Some? <==> s.threads[t].gen < |s.conn.closes| - 1 || s.conn.disconnected)
    ensures s.threads[t].WriteWait? ==>
      && (Step(s, Run(t, Tau)).Some? <==> s.queued > 0)
      && (Step(s, Run(t, Alt)).Some? <==> s.threads[t].gen < |s.conn.closes| - 1 || s.conn.disconnected)
    ensures s.threads[t] == HandWait ==>
      && (Step(s, Run(t, Tau)).Some? <==> s.conn.disconnected)
      && (Step(s, Run(t, Alt)).Some? <==> s.conn.shutdown > 0)
  {
    hide Reachable, Step, InvRequests, InvLifecycle, HoldsRequestLock, HoldsMtx, IsHandler, Counts, Closed;
    ReachableInv(s);
    ClosesThere(s);
    ThreadAt(s, t);
    WaitSteps(s, t);
    if s.threads[t].SendWait? || s.threads[t].ResendWait? || s.threads[t].WriteWait? {
      ClosedExact(s, s.threads[t].gen);
    }
    ClosedExact(s, Current(s.conn));
  }

  // ----- Disconnect

  /** The flag, the channel and the socket after doDisconnect. */
  function Disconnected(k: Conn): Conn
    requires k.closes != []
  {
    k.(disconnected := true, closes := k.closes[|k.closes| - 1 := 1],
        closedSockets := if k.sockets == 0 then k.closedSockets else k.closedSockets + {k.sockets - 1})
  }

  /** Nothing to do the second time. */
  lemma DisconnectAgain(s: State, t: nat)
    requires Reachable(s) && t < |s.threads| && s.threads[t].DiscMtx? && s.mtx == None && s.conn.disconnected
    ensures Exec(s, [Run(t, Tau)]) == Some(Goto(s, t, After(s.threads[t].who)))
  {
    hide Reachable, Inv, Exec;
    ReachableInv(s);
    ClosesThere(s);
    One(s, Run(t, Tau));
  }

  lemma DisconnectCloses(s: State, t: nat)
    requires Inv(s) && t < |s.threads| && s.threads[t].DiscMtx? && s.mtx == None && !s.conn.disconnected
    ensures s.conn.closes != []
    ensures Step(s, Run(t, Tau)) == Some(Goto(s, t, DiscLock(s.threads[t].who)).(conn := Disconnected(s.conn)))
  {
    hide InvThreads, InvRequests, InvShutdown, InvHandler, InvLife, InvWg;
  }

  /** With automatic reconnects the requests stay. */
  lemma DisconnectKeepsRequests(s: State, t: nat)
    requires Reachable(s) && t < |s.threads| && s.threads[t].DiscMtx? && s.mtx == None && s.requestLock == None
    requires !s.conn.disconnected && s.cfg.autoReconnect
    ensures s.conn.closes != []
    ensures Exec(s, [Run(t, Tau), Run(t, Tau)])
         == Some(Goto(s, t, After(s.threads[t].who)).(conn := Disconnected(s.conn)))
  {
    hide Reachable, Inv, Exec, Step;
    ReachableInv(s);
    DisconnectCloses(s, t);
    var s1 := Step(s, Run(t, Tau)).value;
    ByDisc(s1, t);
    Two(s, Run(t, Tau), Run(t, Tau));
    assert s1.threads[t := After(s.threads[t].who)] == s.threads[t := After(s.threads[t].who)];
  }

  /** One step more of a run of thread `t` alone. */
  lemma Onto(s: State, run: seq<Action>, t: nat)
    requires Exec(s, run).Some? && Step(Exec(s, run).value, Run(t, Tau)).Some?
    requires forall a <- run :: a == Run(t, Tau)
    ensures Exec(s, run + [Run(t, Tau)]) == Step(Exec(s, run).value, Run(t, Tau))
    ensures forall a <- run + [Run(t, Tau)] :: a == Run(t, Tau)
  {
    hide Step;
    Extend(s, run, Run(t, Tau));
  }

  /** What is left behind by a loop that failed every request of the list with `o`, under the lock it then gave back. */
  ghost predicate FailedAll(s: State, u: State, t: nat, pc: Pc, k: Conn, o: Outcome)
    requires t < |s.threads|
  {
    && u == Goto(s, t, pc).(q := u.q, conn := k, requestLock := None) && u.q.methods == s.q.methods
    && u.q.table == EMPTY && u.q.log == s.q.log + Failures(s.q.table.list, o)
  }

  lemma DisconnectClears(s: State, t: nat, who: Caller)
    requires s.conn.closes != [] && t < |s.threads| && s.threads[t] == DiscLoop(who, |s.q.table.list|)
    ensures Exec(s, [Run(t, Tau), Run(t, Tau)]) == Some(Goto(s, t, DiscShutCheck(who)).(q := s.q.(table := EMPTY)))
  {
    hide Exec, Step;
    ByDisc(s, t);
    var s1 := Step(s, Run(t, Tau)).value;
    ByDisc(s1, t);
    assert s1.threads[t := DiscShutCheck(who)] == s.threads[t := DiscShutCheck(who)];
    Two(s, Run(t, Tau), Run(t, Tau));
  }

  lemma DisconnectShuts(s: State, t: nat, who: Caller) returns (run: seq<Action>)
    requires s.conn.closes != [] && t < |s.threads| && s.threads[t] == DiscShutCheck(who) && s.conn.shutdown <= 1
    ensures (forall a <- run :: a == Run(t, Tau))
    ensures Exec(s, run) == Some(Goto(s, t, After(who)).(conn := s.conn.(shutdown := 1), requestLock := None))
  {
    hide Exec, Step;
    var a := Run(t, Tau);
    ByDisc(s, t);
    One(s, a);
    run := [a];
    var s1 := Step(s, a).value;
    if s.conn.shutdown == 0 {
      ByDisc(s1, t);
      Onto(s, run, t);
      run := run + [a];
      s1 := Step(s1, a).value;
    }
    ByDisc(s1, t);
    Onto(s, run, t);
    run := run + [a];
    assert s1.threads[t := After(who)] == s.threads[t := After(who)];
  }

  /** After the loop of Disconnect: the table is emptied, `shutdown` closed if it is not, the lock given back. */
  lemma DisconnectTail(s: State, t: nat, who: Caller) returns (run: seq<Action>)
    requires s.conn.closes != [] && t < |s.threads| && s.threads[t] == DiscLoop(who, |s.q.table.list|)
    requires s.conn.shutdown <= 1
    ensures (forall a <- run :: a == Run(t, Tau)) && Exec(s, run).Some?
    ensures var u := Exec(s, run).value;
      && u == Goto(s, t, After(who)).(q := u.q, conn := s.conn.(shutdown := 1), requestLock := None)
      && u.q == s.q.(table := EMPTY)
  {
    hide Exec, Step;
    var a := Run(t, Tau);
    DisconnectClears(s, t, who);
    var s1 := Exec(s, [a, a]).value;
    var rest := DisconnectShuts(s1, t, who);
    Concatenate(s, [a, a], rest);
    run := [a, a] + rest;
    assert s1.threads[t := After(who)] == s.threads[t := After(who)];
  }

  lemma ShutOnce(s: State)
    requires Inv(s)
    ensures s.conn.shutdown <= 1 && s.conn.closes != []
  {
    hide InvThreads, InvRequests, InvHandler, InvLife, InvWg;
  }

  lemma LockStep(s: State, t: nat, who: Caller)
    requires s.conn.closes != [] && t < |s.threads| && s.threads[t] == DiscLock(who) && s.requestLock == None
    requires !s.cfg.autoReconnect
    ensures Step(s, Run(t, Tau)) == Some(Goto(s, t, DiscLoop(who, 0)).(requestLock := Some(t)))
  {
  }

  lemma FailsThenShuts(s: State, t: nat, who: Caller) returns (run: seq<Action>)
    requires Inv(s) && t < |s.threads| && s.threads[t] == DiscLock(who) && s.requestLock == None
    requires !s.cfg.autoReconnect
    ensures (forall a <- run :: a == Run(t, Tau)) && Exec(s, run).Some?
    ensures FailedAll(s, Exec(s, run).value, t, After(who), s.conn.(shutdown := 1), ErrDisconnect)
  {
    hide Inv, Exec, Step;
    var a := Run(t, Tau);
    ShutOnce(s);
    LockStep(s, t, who);
    StepKeeps(s, a);
    var s1 := Step(s, a).value;
    One(s, a);
    var loop := FailingRuns(s1, t, 0, ErrDisconnect);
    Concatenate(s, [a], loop);
    var s2 := Exec(s1, loop).value;
    assert s.q.table.list[0..] == s.q.table.list;
    var tail := DisconnectTail(s2, t, who);
    Concatenate(s, [a] + loop, tail);
    run := ([a] + loop) + tail;
    var u := Exec(s2, tail).value;
    assert u.threads == s.threads[t := After(who)];
  }

  /** Without them every pending request is answered with the disconnect error, in order, and `shutdown` closed. */
  lemma DisconnectFailsAll(s: State, t: nat) returns (run: seq<Action>)
    requires Reachable(s) && t < |s.threads| && s.threads[t].DiscMtx? && s.mtx == None && s.requestLock == None
    requires !s.conn.disconnected && !s.cfg.autoReconnect
    ensures (forall a <- run :: a == Run(t, Tau)) && Exec(s, run).Some? && s.conn.closes != []
    ensures FailedAll(s, Exec(s, run).value, t, After(s.threads[t].who), Disconnected(s.conn).(shutdown := 1),
        ErrDisconnect)
  {
    hide Reachable, Inv, Exec, Step;
    var a, who := Run(t, Tau), s.threads[t].who;
    ReachableInv(s);
    DisconnectCloses(s, t);
    StepKeeps(s, a);
    var s1 := Step(s, a).value;
    One(s, a);
    var rest := FailsThenShuts(s1, t, who);
    Concatenate(s, [a], rest);
    run := [a] + rest;
    assert Exec(s, run).value.threads == s.threads[t := After(who)];
  }

  // ----- Shutdown

  lemma ShutEnters(s: State, t: nat)
    requires s.conn.closes != [] && t < |s.threads| && s.threads[t] == ShutLock && s.requestLock == None
    ensures Exec(s, [Run(t, Tau), Run(t, Tau)])
         == Some(Goto(s, t, if s.conn.shutdown > 0 then ShutUnlock else ShutClose).(requestLock := Some(t)))
  {
    hide Exec, Step;
    var a := Run(t, Tau);
    ByShut(s, t);
    var s1 := Step(s, a).value;
    ByShut(s1, t);
    var next := if s.conn.shutdown > 0 then ShutUnlock else ShutClose;
    assert s1.threads[t := next] == s.threads[t := next];
    Two(s, a, a);
  }

  lemma ShutLeaves(s: State, t: nat)
    requires s.conn.closes != [] && t < |s.threads|
    ensures s.threads[t] == ShutUnlock ==> Step(s, Run(t, Tau)) == Some(Goto(s, t, Finished).(requestLock := None))
    ensures s.threads[t] == ShutClose ==>
      Step(s, Run(t, Tau)) == Some(Goto(s, t, ShutLoop(0)).(conn := s.conn.(shutdown := s.conn.shutdown + 1)))
  {
    hide Step;
    if s.threads[t] == ShutUnlock || s.threads[t] == ShutClose { ByShut(s, t); }
  }

  lemma ShutHead(s: State, t: nat)
    requires s.conn.closes != [] && t < |s.threads| && s.threads[t] == ShutLock && s.requestLock == None
    ensures var u := if s.conn.shutdown > 0 then Goto(s, t, Finished)
        else Goto(s, t, ShutLoop(0)).(requestLock := Some(t), conn := s.conn.(shutdown := 1));
      Exec(s, [Run(t, Tau), Run(t, Tau), Run(t, Tau)]) == Some(u)
  {
    hide Exec, Step;
    var a := Run(t, Tau);
    ShutEnters(s, t);
    var s2 := Exec(s, [a, a]).value;
    ShutLeaves(s2, t);
    var last := if s.conn.shutdown > 0 then Finished else ShutLoop(0);
    assert s2.threads[t := last] == s.threads[t := last];
    Extend(s, [a, a], a);
    assert [a, a] + [a] == [a, a, a];
  }

  /** Nothing to do the second time. */
  lemma ShutdownAgain(s: State, t: nat)
    requires Reachable(s) && t < |s.threads| && s.threads[t] == ShutLock && s.requestLock == None && s.conn.shutdown > 0
    ensures Exec(s, [Run(t, Tau), Run(t, Tau), Run(t, Tau)]) == Some(Goto(s, t, Finished))
  {
    hide Reachable, Inv, Exec;
    ReachableInv(s);
    ClosesThere(s);
    ShutHead(s, t);
  }

  lemma ShutdownClears(s: State, t: nat)
    requires s.conn.closes != [] && t < |s.threads| && s.threads[t] == ShutLoop(|s.q.table.list|)
    ensures Exec(s, [Run(t, Tau), Run(t, Tau)]) == Some(Goto(s, t, ShutMtx).(q := s.q.(table := EMPTY)))
  {
    hide Exec, Step;
    var a := Run(t, Tau);
    ByShut(s, t);
    var s1 := Step(s, a).value;
    ByShut(s1, t);
    assert s1.threads[t := ShutMtx] == s.threads[t := ShutMtx];
    Two(s, a, a);
  }

  lemma ShutMtxStep(s: State, t: nat)
    requires InvConn(s.conn, s.cfg.connectOnNew) && t < |s.threads| && s.threads[t] == ShutMtx && s.mtx == None
    ensures Step(s, Run(t, Tau))
         == Some(Goto(s, t, ShutUnlock).(conn := if s.conn.disconnected then s.conn else Disconnected(s.conn)))
  {
    hide Step;
    ByShut(s, t);
  }

  lemma ShutdownTail(s: State, t: nat)
    requires InvConn(s.conn, s.cfg.connectOnNew) && t < |s.threads| && s.threads[t] == ShutMtx && s.mtx == None
    ensures Exec(s, [Run(t, Tau), Run(t, Tau)])
         == Some(Goto(s, t, Finished).(requestLock := None,
            conn := if s.conn.disconnected then s.conn else Disconnected(s.conn)))
  {
    hide Exec, Step;
    var a := Run(t, Tau);
    ShutMtxStep(s, t);
    var s1 := Step(s, a).value;
    ShutLeaves(s1, t);
    assert s1.threads[t := Finished] == s.threads[t := Finished];
    Two(s, a, a);
  }

  lemma ConnectionOk(s: State)
    requires Inv(s)
    ensures InvConn(s.conn, s.cfg.connectOnNew)
  {
    hide InvThreads, InvRequests, InvShutdown, InvHandler, InvLife, InvWg;
  }

  /** The first time, every pending request is answered with the shutdown error, and the client disconnected. */
  lemma ShutdownFailsAll(s: State, t: nat) returns (run: seq<Action>)
    requires Reachable(s) && t < |s.threads| && s.threads[t] == ShutLock && s.requestLock == None && s.mtx == None
    requires s.conn.shutdown == 0
    ensures (forall a <- run :: a == Run(t, Tau)) && Exec(s, run).Some? && s.conn.closes != []
    ensures FailedAll(s, Exec(s, run).value, t, Finished,
        (if s.conn.disconnected then s.conn else Disconnected(s.conn)).(shutdown := 1), ErrShutdown)
  {
    hide Reachable, Inv, Exec, Step, InvConn;
    var a := Run(t, Tau);
    ReachableInv(s);
    ClosesThere(s);
    ShutHead(s, t);
    ExecKeeps(s, [a, a, a]);
    var s1 := Exec(s, [a, a, a]).value;
    var loop := FailingRuns(s1, t, 0, ErrShutdown);
    Concatenate(s, [a, a, a], loop);
    var s2 := Exec(s1, loop).value;
    assert s.q.table.list[0..] == s.q.table.list;
    ConnectionOk(s2);
    ClosesThere(s2);
    ShutdownClears(s2, t);
    ShutdownTail(Exec(s2, [a, a]).value, t);
    Concatenate(s, [a, a, a] + loop, [a, a]);
    Concatenate(s, ([a, a, a] + loop) + [a, a], [a, a]);
    run := (([a, a, a] + loop) + [a, a]) + [a, a];
    assert Exec(s, run).value.threads == s.threads[t := Finished];
  }

  // ----- The connection

  /** The reader's way out: an error, or `shutdown` seen, leads to Disconnect. */
  lemma ReaderLeaves(s: State, t: nat)
    requires s.conn.closes != [] && t < |s.threads|
    ensures s.threads[t].ReadWait? ==> Exec(s, [Run(t, Fail)]) == Some(Goto(s, t, DiscMtx(ByReader)))
    ensures s.threads[t] == ReadCheck && s.conn.shutdown > 0 ==>
      Exec(s, [Run(t, Tau)]) == Some(Goto(s, t, DiscMtx(ByReader)))
    ensures s.threads[t] == ReadDone ==>
      Exec(s, [Run(t, Tau)]) == Some(Goto(s, t, Finished).(conn := s.conn.(wg := s.conn.wg - 1)))
  {
    hide Exec, Remove, Step;
    if s.threads[t].ReadWait? {
      ByRead(s, t, Fail);
      One(s, Run(t, Fail));
    } else if s.threads[t] == ReadDone || (s.threads[t] == ReadCheck && s.conn.shutdown > 0) {
      ByRead(s, t, Tau);
      One(s, Run(t, Tau));
    }
  }

  /** Otherwise it waits for a message on the current socket. */
  lemma ReaderReads(s: State, t: nat)
    requires s.conn.closes != [] && t < |s.threads| && s.threads[t] == ReadCheck && s.conn.shutdown == 0
    requires s.conn.sockets > 0
    ensures Exec(s, [Run(t, Tau), Run(t, Tau)]) == Some(Goto(s, t, ReadWait(s.conn.sockets - 1)))
  {
    hide Exec, Step, Remove;
    ByRead(s, t, Tau);
    var s1 := Step(s, Run(t, Tau)).value;
    ByRead(s1, t, Tau);
    Two(s, Run(t, Tau), Run(t, Tau));
    assert s1.threads[t := ReadWait(s.conn.sockets - 1)] == s.threads[t := ReadWait(s.conn.sockets - 1)];
  }

  /** The writer takes one message off `sendChan` and writes it to the current socket; an error leads to Disconnect. */
  lemma WriterWrites(s: State, t: nat, c: Choice)
    requires s.conn.closes != [] && t < |s.threads| && s.threads[t].WriteWait? && s.queued > 0 && s.conn.sockets > 0
    requires c == Tau || c == Fail
    ensures Exec(s, [Run(t, Tau), Run(t, Tau)])
         == Some(Goto(s, t, WriteMsg(s.conn.sockets - 1)).(queued := s.queued - 1))
    ensures Exec(s, [Run(t, Tau), Run(t, Tau), Run(t, c)])
         == Some(Goto(s, t, if c == Tau then WriteCapture else DiscMtx(ByWriter)).(queued := s.queued - 1))
  {
    hide Exec;
    var a, next := Run(t, Tau), if c == Tau then WriteCapture else DiscMtx(ByWriter);
    var s1 := Step(s, a).value;
    assert s1 == Goto(s, t, WriteLoad).(queued := s.queued - 1);
    var s2 := Step(s1, a).value;
    assert s2 == Goto(s, t, WriteMsg(s.conn.sockets - 1)).(queued := s.queued - 1);
    assert s2.threads[t := next] == s.threads[t := next];
    Two(s, a, a);
    Three(s, a, a, Run(t, c));
  }

  lemma CurrentClosed(s: State)
    requires Inv(s) && s.conn.disconnected
    ensures s.conn.closes != [] && Closed(s.conn, Current(s.conn))
  {
    hide InvThreads, InvRequests, InvShutdown, InvHandler, InvLife, InvWg;
  }

  /** Once disconnected it may see that instead, and goes to drain. */
  lemma WriterSees(s: State, t: nat)
    requires Reachable(s) && t < |s.threads| && s.threads[t] == WriteCapture && s.mtx == None && s.conn.disconnected
    ensures Exec(s, [Run(t, Tau), Run(t, Alt)]) == Some(Goto(s, t, WriteDone))
  {
    hide Reachable, Inv, Exec;
    ReachableInv(s);
    CurrentClosed(s);
    var s1 := Step(s, Run(t, Tau)).value;
    assert s1 == Goto(s, t, WriteWait(Current(s.conn)));
    assert s1.threads[t := WriteDone] == s.threads[t := WriteDone];
    Two(s, Run(t, Tau), Run(t, Alt));
  }

  lemma WriterDrain(s: State, t: nat)
    requires s.conn.closes != [] && t < |s.threads| && s.threads[t] == WriteDone
    ensures Step(s, Run(t, Tau)) == Some(if s.queued > 0 then s.(queued := s.queued - 1)
        else Goto(s, t, Finished).(conn := s.conn.(wg := s.conn.wg - 1)))
  {
  }

  /** On its way out it drains `sendChan`. */
  lemma {:induction false} WriterDrains(s: State, t: nat) returns (run: seq<Action>)
    requires s.conn.closes != [] && t < |s.threads| && s.threads[t] == WriteDone
    ensures Exec(s, run) == Some(Goto(s, t, Finished).(conn := s.conn.(wg := s.conn.wg - 1), queued := 0))
    decreases s.queued
  {
    hide Exec, Step;
    var a := Run(t, Tau);
    WriterDrain(s, t);
    if s.queued == 0 {
      One(s, a);
      run := [a];
    } else {
      var rest := WriterDrains(s.(queued := s.queued - 1), t);
      Cons(s, a, rest);
      run := [a] + rest;
    }
  }

  // ----- wsReconnectHandler

  /** Woken by the disconnect, it dials unless the client was shut down. */
  lemma HandlerWakes(s: State, t: nat)
    requires Reachable(s) && t < |s.threads| && s.threads[t] == HandWait && s.conn.disconnected
    ensures Exec(s, [Run(t, Tau), Run(t, Tau)])
         == Some(Goto(s, t, if s.conn.shutdown > 0 then HandDone else HandDial))
  {
    hide Reachable, Inv, Exec, Step;
    ReachableInv(s);
    ClosesThere(s);
    CurrentClosed(s);
    ByHand(s, t, Tau);
    var s1 := Step(s, Run(t, Tau)).value;
    ByHand(s1, t, Tau);
    var next := if s.conn.shutdown > 0 then HandDone else HandDial;
    assert s1.threads[t := next] == s.threads[t := next];
    Two(s, Run(t, Tau), Run(t, Tau));
  }

  /** A failed dial is tried again, or given up after the shutdown. */
  lemma HandlerRetries(s: State, t: nat)
    requires s.conn.closes != [] && t < |s.threads| && s.threads[t] == HandDial
    ensures Exec(s, [Run(t, Fail), Run(t, Tau)])
         == Some(Goto(s, t, if s.conn.shutdown > 0 then HandDone else HandDial))
  {
    hide Exec, Step;
    ByHand(s, t, Fail);
    var s1 := Step(s, Run(t, Fail)).value;
    ByHand(s1, t, Tau);
    var next := if s.conn.shutdown > 0 then HandDone else HandDial;
    assert s1.threads[t := next] == s.threads[t := next];
    Two(s, Run(t, Fail), Run(t, Tau));
  }

  /** Waiting, it sees the shutdown too; then it ends. */
  lemma HandlerEnds(s: State, t: nat)
    requires s.conn.closes != [] && t < |s.threads|
    ensures s.threads[t] == HandWait && s.conn.shutdown > 0 ==> Exec(s, [Run(t, Alt)]) == Some(Goto(s, t, HandDone))
    ensures s.threads[t] == HandDone ==>
      Exec(s, [Run(t, Tau)]) == Some(Goto(s, t, Finished).(conn := s.conn.(wg := s.conn.wg - 1)))
  {
    hide Exec, Step;
    if s.threads[t] == HandWait && s.conn.shutdown > 0 {
      ByHand(s, t, Alt);
      One(s, Run(t, Alt));
    } else if s.threads[t] == HandDone {
      ByHand(s, t, Tau);
      One(s, Run(t, Tau));
    }
  }

  lemma HandlerTakesUp(s: State, t: nat)
    requires s.conn.closes != [] && t < |s.threads| && s.threads[t] == HandDial && s.mtx == None
    ensures Exec(s, [Run(t, Tau), Run(t, Tau)])
         == Some(Goto(s, t, HandStart).(conn := s.conn.(sockets := s.conn.sockets + 1, closes := s.conn.closes + [0],
            disconnected := false)))
  {
    hide Exec, Step;
    ByHand(s, t, Tau);
    var s1 := Step(s, Run(t, Tau)).value;
    ByHand(s1, t, Tau);
    assert s1.threads[t := HandStart] == s.threads[t := HandStart];
    Two(s, Run(t, Tau), Run(t, Tau));
  }

  lemma HandlerStarts(s: State, t: nat)
    requires s.conn.closes != [] && t < |s.threads| && s.threads[t] == HandStart
    ensures Exec(s, [Run(t, Tau), Run(t, Tau)])
         == Some(s.(threads := s.threads[t := HandWait] + [ReadCheck, WriteCapture, ResendSnap],
            conn := s.conn.(wg := s.conn.wg + 2, reader := |s.threads|)))
  {
    hide Exec, Step;
    ByHand(s, t, Tau);
    var s1 := Step(s, Run(t, Tau)).value;
    assert s1.threads == s.threads[t := HandResend] + [ReadCheck, WriteCapture];
    ByHand(s1, t, Tau);
    assert s1.threads[t := HandWait] + [ResendSnap]
        == s.threads[t := HandWait] + [ReadCheck, WriteCapture, ResendSnap];
    Two(s, Run(t, Tau), Run(t, Tau));
  }

  /**
   * A dial that succeeds makes a new socket the current one, opens a new `disconnect` channel, clears the flag, and
   * starts a reader, a writer and a goroutine that resends; the handler waits for the next disconnect.
   */
  lemma HandlerReconnects(s: State, t: nat)
    requires s.conn.closes != [] && t < |s.threads| && s.threads[t] == HandDial && s.mtx == None
    ensures Exec(s, [Run(t, Tau), Run(t, Tau)] + [Run(t, Tau), Run(t, Tau)])
         == Some(s.(threads := s.threads[t := HandWait] + [ReadCheck, WriteCapture, ResendSnap],
            conn := s.conn.(sockets := s.conn.sockets + 1, closes := s.conn.closes + [0], disconnected := false,
              wg := s.conn.wg + 2, reader := |s.threads|)))
  {
    hide Exec, Step;
    HandlerTakesUp(s, t);
    var s2 := Exec(s, [Run(t, Tau), Run(t, Tau)]).value;
    HandlerStarts(s2, t);
    Concatenate(s, [Run(t, Tau), Run(t, Tau)], [Run(t, Tau), Run(t, Tau)]);
    assert s2.threads[t := HandWait] == s.threads[t := HandWait];
  }

  // ----- Connect

  /** Connect does nothing when there is a connection. */
  lemma ConnectAgain(s: State, t: nat)
    requires s.conn.closes != [] && t < |s.threads| && s.threads[t].ConnLock? && s.mtx == None && s.conn.sockets > 0
    ensures Exec(s, [Run(t, Tau), Run(t, Tau)]) == Some(Goto(s, t, Finished))
  {
    hide Exec, Step;
    ByConnect(s, t, Tau);
    var s1 := Step(s, Run(t, Tau)).value;
    ByConnect(s1, t, Tau);
    assert s1.threads[t := Finished] == s.threads[t := Finished];
    Two(s, Run(t, Tau), Run(t, Tau));
  }

  function Failed(t: nat, k: nat): seq<Action> {
    seq(k, i requires 0 <= i < k => Run(t, Fail))
  }

  lemma Nothing(s: State)
    ensures Exec(s, []) == Some(s)
  {
  }

  lemma {:induction false} DialsFail(s: State, t: nat, tries: int, i: nat, k: nat)
    requires s.conn.closes != [] && t < |s.threads| && s.threads[t] == ConnDial(tries, i)
    requires tries == 0 || i + k <= tries
    ensures Exec(s, Failed(t, k)) == Some(Goto(s, t, ConnDial(tries, i + k)))
    decreases k
  {
    hide Exec, Step;
    if k == 0 {
      assert s.threads[t := s.threads[t]] == s.threads;
      assert Failed(t, k) == [];
      Nothing(s);
    } else {
      ByConnect(s, t, Fail);
      var s1 := Step(s, Run(t, Fail)).value;
      DialsFail(s1, t, tries, i + 1, k - 1);
      Cons(s, Run(t, Fail), Failed(t, k - 1));
      assert [Run(t, Fail)] + Failed(t, k - 1) == Failed(t, k);
      assert s1.threads[t := ConnDial(tries, i + k)] == s.threads[t := ConnDial(tries, i + k)];
    }
  }

  lemma ConnectLocks(s: State, t: nat)
    requires s.conn.closes != [] && t < |s.threads| && s.threads[t].ConnLock? && s.mtx == None && s.conn.sockets == 0
    ensures Step(s, Run(t, Tau)) == Some(Goto(s, t, ConnDial(s.threads[t].tries, 0)).(mtx := Some(t)))
  {
    hide Step;
    ByConnect(s, t, Tau);
  }

  /** When every attempt fails, or none is made, nothing has changed. */
  lemma ConnectFails(s: State, t: nat) returns (run: seq<Action>)
    requires s.conn.closes != [] && t < |s.threads| && s.threads[t].ConnLock? && s.mtx == None && s.conn.sockets == 0
    requires s.threads[t].tries != 0
    ensures run == [Run(t, Tau)] + Failed(t, if s.threads[t].tries > 0 then s.threads[t].tries else 0)
        + [Run(t, Tau), Run(t, Tau)]
    ensures Exec(s, run) == Some(Goto(s, t, Finished))
  {
    hide Exec, Step;
    var a, tries := Run(t, Tau), s.threads[t].tries;
    var k: nat := if tries > 0 then tries else 0;
    ConnectLocks(s, t);
    var s1 := Step(s, a).value;
    if tries > 0 { DialsFail(s1, t, tries, 0, k); } else { Nothing(s1); assert Failed(t, k) == []; }
    Cons(s, a, Failed(t, k));
    var s2 := Exec(s, [a] + Failed(t, k)).value;
    assert s2.threads == s.threads[t := s2.threads[t]];
    ByConnect(s2, t, Tau);
    var s3 := Step(s2, a).value;
    ByConnect(s3, t, Tau);
    Two(s2, a, a);
    Concatenate(s, [a] + Failed(t, k), [a, a]);
    run := [a] + Failed(t, k) + [a, a];
    assert s3.threads[t := Finished] == s.threads[t := Finished];
  }

  /** The goroutines Connect starts. */
  function Launched(cfg: Config): seq<Pc> {
    [ReadCheck, WriteCapture] + if cfg.autoReconnect then [HandWait] else []
  }

  lemma ConnectEstablishes(s: State, t: nat)
    requires s.conn.closes != [] && t < |s.threads| && s.threads[t].ConnDial? && s.mtx == Some(t)
    requires s.threads[t].tries == 0 || s.threads[t].i < s.threads[t].tries
    ensures Exec(s, [Run(t, Tau), Run(t, Tau)])
         == Some(Goto(s, t, ConnStart).(conn := s.conn.(sockets := s.conn.sockets + 1,
            established := s.conn.established + 1)))
  {
    hide Exec, Step;
    ByConnect(s, t, Tau);
    var s1 := Step(s, Run(t, Tau)).value;
    ByConnect(s1, t, Tau);
    assert s1.threads[t := ConnStart] == s.threads[t := ConnStart];
    Two(s, Run(t, Tau), Run(t, Tau));
  }

  lemma ConnectReader(s: State, t: nat)
    requires s.conn.closes != [] && t < |s.threads| && s.threads[t] == ConnStart
    ensures Step(s, Run(t, Tau))
         == Some(s.(threads := s.threads[t := ConnHandler] + [ReadCheck, WriteCapture],
            conn := s.conn.(wg := s.conn.wg + 2, reader := |s.threads|)))
  {
    hide Step;
    ByConnect(s, t, Tau);
  }

  lemma ConnectHandler(s: State, t: nat)
    requires s.conn.closes != [] && t < |s.threads| && s.threads[t] == ConnHandler
    ensures Step(s, Run(t, Tau))
         == Some(s.(threads := s.threads[t := ConnUnlock] + if s.cfg.autoReconnect then [HandWait] else [],
            conn := s.conn.(wg := s.conn.wg + (if s.cfg.autoReconnect then 1 else 0),
              handler := if s.cfg.autoReconnect then Some(|s.threads|) else s.conn.handler)))
  {
    hide Step;
    ByConnect(s, t, Tau);
    assert s.threads[t := ConnUnlock] + [] == s.threads[t := ConnUnlock];
  }

  lemma ConnectStarts(s: State, t: nat)
    requires s.conn.closes != [] && t < |s.threads| && s.threads[t] == ConnStart
    ensures Exec(s, [Run(t, Tau), Run(t, Tau)])
         == Some(s.(threads := s.threads[t := ConnUnlock] + Launched(s.cfg),
            conn := s.conn.(wg := s.conn.wg + |Launched(s.cfg)|, reader := |s.threads|,
              handler := if s.cfg.autoReconnect then Some(|s.threads| + 2) else s.conn.handler)))
  {
    hide Exec, Step;
    ConnectReader(s, t);
    var s1 := Step(s, Run(t, Tau)).value;
    ConnectHandler(s1, t);
    assert s1.threads[t := ConnUnlock] == s.threads[t := ConnUnlock] + [ReadCheck, WriteCapture];
    Two(s, Run(t, Tau), Run(t, Tau));
    assert s1.threads[t := ConnUnlock] + (if s.cfg.autoReconnect then [HandWait] else [])
        == s.threads[t := ConnUnlock] + Launched(s.cfg);
  }

  /** The state Connect leaves behind when it succeeds. */
  function Up(s: State, t: nat): State
    requires t < |s.threads|
  {
    s.(threads := s.threads[t := Finished] + Launched(s.cfg), mtx := None,
       conn := s.conn.(sockets := s.conn.sockets + 1, established := s.conn.established + 1,
         wg := s.conn.wg + |Launched(s.cfg)|, reader := |s.threads|,
         handler := if s.cfg.autoReconnect then Some(|s.threads| + 2) else s.conn.handler))
  }

  lemma ConnectUnlocks(s: State, t: nat)
    requires s.conn.closes != [] && t < |s.threads| && s.threads[t] == ConnUnlock
    ensures Step(s, Run(t, Tau)) == Some(Goto(s, t, Finished).(mtx := None))
  {
    hide Step;
    ByConnect(s, t, Tau);
  }

  lemma ConnectLaunches(s: State, t: nat) returns (run: seq<Action>)
    requires s.conn.closes != [] && t < |s.threads| && s.threads[t].ConnDial? && s.mtx == Some(t)
    requires s.threads[t].tries == 0 || s.threads[t].i < s.threads[t].tries
    ensures run == [Run(t, Tau), Run(t, Tau), Run(t, Tau), Run(t, Tau), Run(t, Tau)]
    ensures Exec(s, run) == Some(Up(s, t))
  {
    hide Exec, Step, Launched;
    var a := Run(t, Tau);
    ConnectEstablishes(s, t);
    var s1 := Exec(s, [a, a]).value;
    ConnectStarts(s1, t);
    Concatenate(s, [a, a], [a, a]);
    var s2 := Exec(s, [a, a] + [a, a]).value;
    assert s1.threads[t := ConnUnlock] == s.threads[t := ConnUnlock];
    ConnectUnlocks(s2, t);
    Extend(s, [a, a] + [a, a], a);
    assert s2.threads[t := Finished] == s.threads[t := Finished] + Launched(s.cfg);
    run := [a, a] + [a, a] + [a];
  }

  /**
   * The first success within the attempts asked for, however many fail before it, makes the connection: announced
   * once, with a reader, a writer and, unless switched off, a reconnect handler.
   */
  lemma ConnectSucceeds(s: State, t: nat, k: nat) returns (run: seq<Action>)
    requires s.conn.closes != [] && t < |s.threads| && s.threads[t].ConnLock? && s.mtx == None && s.conn.sockets == 0
    requires s.threads[t].tries == 0 || k < s.threads[t].tries
    ensures run == [Run(t, Tau)] + Failed(t, k)
        + [Run(t, Tau), Run(t, Tau), Run(t, Tau), Run(t, Tau), Run(t, Tau)]
    ensures Exec(s, run) == Some(Up(s, t))
  {
    hide Exec, Step, Launched;
    var a, tries := Run(t, Tau), s.threads[t].tries;
    ConnectLocks(s, t);
    var s1 := Step(s, a).value;
    DialsFail(s1, t, tries, 0, k);
    Cons(s, a, Failed(t, k));
    run := [a] + Failed(t, k);
    var s2 := Exec(s, run).value;
    var rest := ConnectLaunches(s2, t);
    Concatenate(s, run, rest);
    assert s2.threads[t := Finished] == s.threads[t := Finished];
    run := run + rest;
  }
}

/**
 * The end of a connection.  `SendMessage` checks the flag and pushes in two steps, so a
 * goroutine may push after the output handler has left.  There is room for fifty; this
 * says how many such goroutines there can be, when the input handler is stuck, and that
 * otherwise both handlers can end.
 */
module ServerWindDown {
  import opened Basics
  import opened Registry
  import opened GoValues
  import opened CmdCodec
  import opened ServerReplies
  import opened ServerPipeline

  /** A handler's result that marshals. */
  const DONE: HandlerOut := HandlerOut(Some(JNull), None)

  function PostingCount(vs: seq<Service>): nat {
    if vs == [] then 0 else PostingCount(vs[..|vs|-1]) + if vs[|vs|-1].pc.Posting? then 1 else 0
  }

  /** The goroutines past the check of SendMessage that have yet to push. */
  function Pushers(s: State): nat {
    PostingCount(s.services) + if s.reader.Pushing? then 1 else 0
  }

  /** The replies in the buffer, and those that will be pushed into it. */
  function Committed(s: State): nat {
    |s.sendChan| + Pushers(s)
  }

  // ----- Counting

  lemma {:induction false} PostingAt(vs: seq<Service>, k: nat, v: Service)
    requires k < |vs|
    ensures PostingCount(vs[k := v])
         == PostingCount(vs) - (if vs[k].pc.Posting? then 1 else 0) + (if v.pc.Posting? then 1 else 0)
  {
    var n := |vs| - 1;
    if k == n {
      assert vs[k := v][..n] == vs[..n];
    } else {
      assert vs[k := v][..n] == vs[..n][k := v];
      PostingAt(vs[..n], k, v);
    }
  }

  lemma PostingSnoc(vs: seq<Service>, v: Service)
    ensures PostingCount(vs + [v]) == PostingCount(vs) + if v.pc.Posting? then 1 else 0
  {
    assert (vs + [v])[..|vs|] == vs;
  }

  lemma {:induction false} PostingBusy(vs: seq<Service>)
    ensures PostingCount(vs) <= BusyCount(vs)
  {
    if vs != [] { PostingBusy(vs[..|vs|-1]); }
  }

  lemma {:induction false} SomePosting(vs: seq<Service>) returns (k: nat)
    requires PostingCount(vs) > 0
    ensures k < |vs| && vs[k].pc.Posting?
  {
    if vs[|vs|-1].pc.Posting? { k := |vs| - 1; } else { k := SomePosting(vs[..|vs|-1]); }
  }

  // ----- After the output handler has left

  /** From then on nobody takes from the buffer and nobody passes the check: what is committed stays the same. */
  lemma EndedStep(s: State, a: Action)
    requires RegInv(s.cfg.maps) && s.writer.Ended? && s.disconnected
    ensures var u := Step(s, a);
      && u.writer.Ended? && u.disconnected && Committed(u) == Committed(s) && |u.sendChan| >= |s.sendChan|
      && (u.reader.Pushing? ==> s.reader.Pushing?)
  {
    hide RegInv, Judge, ServiceReply, PostingCount;
    match a {
      case ReaderStep =>
        if s.reader.Acquiring? { PostingSnoc(s.services, Service(s.reader.n, s.reader.id, s.reader.name, Running)); }
      case ServiceStep(k, out) =>
        if k < |s.services| {
          PostingAt(s.services, k, Moved(s, k, out));
        }
      case _ =>
    }
  }

  lemma Then(c: Config, actions: seq<Action>, a: Action)
    requires RegInv(c.maps)
    ensures Run(c, actions + [a]) == Step(Run(c, actions), a)
  {
    hide RegInv, Step;
    assert (actions + [a])[..|actions|] == actions;
  }

  lemma EndedDisconnected(c: Config, actions: seq<Action>)
    requires RegInv(c.maps)
    ensures Run(c, actions).writer.Draining? || Run(c, actions).writer.Ended? ==> Run(c, actions).disconnected
  {
    hide RegInv, Run, Accounted, InvTokens;
    RunKeeps(c, actions);
  }

  lemma {:induction false} EndedRun(c: Config, actions: seq<Action>, more: seq<Action>)
    requires RegInv(c.maps) && Run(c, actions).writer.Ended?
    ensures var s, u := Run(c, actions), Run(c, actions + more);
      && u.writer.Ended? && u.disconnected && Committed(u) == Committed(s) && |u.sendChan| >= |s.sendChan|
      && (u.reader.Pushing? ==> s.reader.Pushing?)
    decreases |more|
  {
    hide RegInv, Step, Committed;
    if more == [] {
      assert actions + more == actions;
      EndedDisconnected(c, actions);
    } else {
      var init, a := more[..|more|-1], more[|more|-1];
      EndedRun(c, actions, init);
      assert actions + more == (actions + init) + [a];
      Then(c, actions + init, a);
      EndedStep(Run(c, actions + init), a);
    }
  }

  lemma EndsEmpty(s: State, a: Action)
    requires RegInv(s.cfg.maps) && !s.writer.Ended? && Step(s, a).writer.Ended?
    ensures Step(s, a).sendChan == []
  {
    hide RegInv, Judge, ServiceReply;
  }

  /**
   * Whatever the run, at most fifty-one replies are committed to
   * fifty slots, so at most one goroutine is left pushing.
   */
  lemma {:induction false} CommittedBounded(c: Config, actions: seq<Action>)
    requires RegInv(c.maps)
    ensures var s := Run(c, actions);
      s.writer.Ended? ==> Committed(s) <= SEND_BUFFER + 1 && (|s.sendChan| == SEND_BUFFER ==> Pushers(s) <= 1)
  {
    hide RegInv, Accounted, InvOrder, Step, PostingCount, BusyCount;
    if actions != [] {
      var init, a := actions[..|actions|-1], actions[|actions|-1];
      CommittedBounded(c, init);
      EndedDisconnected(c, init);
      var s := Run(c, init);
      RunKeeps(c, actions);
      if s.writer.Ended? {
        EndedStep(s, a);
      } else if Run(c, actions).writer.Ended? {
        EndsEmpty(s, a);
        PostingBusy(Run(c, actions).services);
      }
    }
  }

  // ----- The input handler left behind

  /** It has passed the check, the buffer is full, and nobody will ever take from it. */
  predicate Stranded(s: State) {
    s.reader.Pushing? && s.writer.Ended? && |s.sendChan| == SEND_BUFFER
  }

  lemma StrandedStep(s: State, a: Action)
    requires RegInv(s.cfg.maps) && Stranded(s)
    ensures Stranded(Step(s, a))
  {
    hide RegInv, Judge, ServiceReply;
  }

  /** A stranded input handler never ends, so WaitForShutdown never returns. */
  lemma StrandedForever(c: Config, actions: seq<Action>, more: seq<Action>)
    requires RegInv(c.maps) && Stranded(Run(c, actions))
    ensures Stranded(Run(c, actions + more))
    decreases |more|
  {
    hide RegInv, Step;
    if more == [] {
      assert actions + more == actions;
    } else {
      var init, a := more[..|more|-1], more[|more|-1];
      StrandedForever(c, actions, init);
      assert actions + more == (actions + init) + [a];
      Then(c, actions + init, a);
      StrandedStep(Run(c, actions + init), a);
    }
  }

  /** Some continuation strands it. */
  ghost predicate MayStrand(c: Config, actions: seq<Action>)
    requires RegInv(c.maps)
  {
    exists more :: Stranded(Run(c, actions + more))
  }

  lemma BufferBounded(c: Config, actions: seq<Action>)
    requires RegInv(c.maps)
    ensures |Run(c, actions).sendChan| <= SEND_BUFFER
  {
    hide RegInv, Run, Accounted, InvOrder, BusyCount;
    RunKeeps(c, actions);
  }

  lemma PostStep(s: State, k: nat)
    requires RegInv(s.cfg.maps) && k < |s.services| && s.services[k].pc.Posting? && |s.sendChan| < SEND_BUFFER
    ensures var u := Step(s, ServiceStep(k, DONE));
      && u.writer == s.writer && u.reader == s.reader && |u.sendChan| == |s.sendChan| + 1
      && PostingCount(u.services) == PostingCount(s.services) - 1
  {
    hide RegInv, Judge, ServiceReply, PostingCount;
    PostingAt(s.services, k, s.services[k].(pc := Releasing));
  }

  /** Only the two handlers disconnect, as they leave. */
  ghost predicate NobodyDisconnects(actions: seq<Action>) {
    forall a <- actions :: !a.Disconnects?
  }

  /** The services push first. */
  lemma {:induction false} Strands(c: Config, actions: seq<Action>) returns (more: seq<Action>)
    requires RegInv(c.maps) && Run(c, actions).writer.Ended? && Run(c, actions).reader.Pushing?
    requires |Run(c, actions).sendChan| + PostingCount(Run(c, actions).services) >= SEND_BUFFER
    ensures NobodyDisconnects(more) && Stranded(Run(c, actions + more))
    decreases PostingCount(Run(c, actions).services)
  {
    hide RegInv, Run, PostingCount, Step;
    var s := Run(c, actions);
    BufferBounded(c, actions);
    if |s.sendChan| == SEND_BUFFER {
      more := [];
      assert actions + more == actions;
    } else {
      var k := SomePosting(s.services);
      var a := ServiceStep(k, DONE);
      Then(c, actions, a);
      PostStep(s, k);
      var rest := Strands(c, actions + [a]);
      more := [a] + rest;
      assert actions + more == (actions + [a]) + rest;
    }
  }

  /**
   * Once the output handler has left, an input handler that has yet to push may be stranded if and only if the buffer
   * and the services past their check fill all the slots; otherwise it can push whenever it runs.
   */
  lemma MayStrandIff(c: Config, actions: seq<Action>)
    requires RegInv(c.maps) && Run(c, actions).writer.Ended? && Run(c, actions).reader.Pushing?
    ensures var s := Run(c, actions);
      MayStrand(c, actions) <==> |s.sendChan| + PostingCount(s.services) >= SEND_BUFFER
  {
    hide RegInv, Run, PostingCount;
    var s := Run(c, actions);
    if MayStrand(c, actions) {
      var more :| Stranded(Run(c, actions + more));
      EndedRun(c, actions, more);
    }
    if |s.sendChan| + PostingCount(s.services) >= SEND_BUFFER {
      var more := Strands(c, actions);
      assert Stranded(Run(c, actions + more));
    }
  }

  // ----- It does happen

  /** A live connection with `n` services past their check and nothing sent yet. */
  predicate AllAtTheDoor(s: State, n: nat) {
    && s.reader == Checking && !s.disconnected && s.writer == Selecting && s.sendChan == []
    && s.sem == n == |s.services| && forall k :: 0 <= k < n ==> s.services[k].pc.Posting?
  }

  lemma NobodyYet(c: Config)
    ensures AllAtTheDoor(Init(c), 0)
  {
  }

  lemma OneMorePosts(s: State, m: Message, n: nat)
    requires RegInv(s.cfg.maps) && Judge(s.cfg, m).Serve? && IsValidIDType(Judge(s.cfg, m).id)
    requires AllAtTheDoor(s, n) && n < MAX_SERVICES
    ensures Step(s, ReaderStep).cfg == s.cfg
    ensures var u1 := Step(s, ReaderStep);
      Step(u1, Reads(m)).cfg == s.cfg && var u2 := Step(u1, Reads(m));
      Step(u2, ReaderStep).cfg == s.cfg && var u3 := Step(u2, ReaderStep);
      Step(u3, ServiceStep(n, DONE)).cfg == s.cfg && var u4 := Step(u3, ServiceStep(n, DONE));
      AllAtTheDoor(Step(u4, ServiceStep(n, DONE)), n + 1)
  {
    hide RegInv, Judge;
  }

  lemma {:induction false} ServicesPost(c: Config, m: Message, n: nat) returns (actions: seq<Action>)
    requires RegInv(c.maps) && Judge(c, m).Serve? && IsValidIDType(Judge(c, m).id) && n <= MAX_SERVICES
    ensures NobodyDisconnects(actions) && AllAtTheDoor(Run(c, actions), n)
  {
    hide RegInv, Step, Judge, AllAtTheDoor;
    if n == 0 {
      actions := [];
      assert AllAtTheDoor(Init(c), 0) by { NobodyYet(c); }
    } else {
      var before := ServicesPost(c, m, n - 1);
      OneMorePosts(Run(c, before), m, n - 1);
      Then(c, before, ReaderStep);
      var a1 := before + [ReaderStep];
      Then(c, a1, Reads(m));
      var a2 := a1 + [Reads(m)];
      Then(c, a2, ReaderStep);
      var a3 := a2 + [ReaderStep];
      Then(c, a3, ServiceStep(n - 1, DONE));
      var a4 := a3 + [ServiceStep(n - 1, DONE)];
      Then(c, a4, ServiceStep(n - 1, DONE));
      actions := a4 + [ServiceStep(n - 1, DONE)];
    }
  }

  /** The first of fifty services has pushed and finished, and the output handler is writing its reply. */
  predicate FirstWritten(s: State) {
    && s.reader == Checking && !s.disconnected && s.writer.Writing? && s.sendChan == []
    && s.sem == MAX_SERVICES - 1 && |s.services| == MAX_SERVICES
    && forall k :: 1 <= k < MAX_SERVICES ==> s.services[k].pc.Posting?
  }

  lemma FirstReplies(s: State)
    requires RegInv(s.cfg.maps) && AllAtTheDoor(s, MAX_SERVICES)
    ensures Step(s, ServiceStep(0, DONE)).cfg == s.cfg
    ensures var u1 := Step(s, ServiceStep(0, DONE));
      Step(u1, ServiceStep(0, DONE)).cfg == s.cfg && var u2 := Step(u1, ServiceStep(0, DONE));
      FirstWritten(Step(u2, Takes))
  {
    hide RegInv;
  }

  lemma FirstReplyWritten(c: Config, m: Message) returns (actions: seq<Action>)
    requires RegInv(c.maps) && Judge(c, m).Serve? && IsValidIDType(Judge(c, m).id)
    ensures NobodyDisconnects(actions) && FirstWritten(Run(c, actions))
  {
    hide RegInv, Step, Judge, AllAtTheDoor, FirstWritten;
    var before := ServicesPost(c, m, MAX_SERVICES);
    FirstReplies(Run(c, before));
    Then(c, before, ServiceStep(0, DONE));
    var a1 := before + [ServiceStep(0, DONE)];
    Then(c, a1, ServiceStep(0, DONE));
    var a2 := a1 + [ServiceStep(0, DONE)];
    Then(c, a2, Takes);
    actions := a2 + [Takes];
  }

  /** Fifty services are past their check again, behind the one that finished. */
  predicate DoorCrowded(s: State) {
    && s.reader == Checking && !s.disconnected && s.writer.Writing? && s.sendChan == []
    && |s.services| == MAX_SERVICES + 1
    && forall k :: 1 <= k <= MAX_SERVICES ==> s.services[k].pc.Posting?
  }

  lemma NextPosts(s: State, m: Message)
    requires RegInv(s.cfg.maps) && Judge(s.cfg, m).Serve? && IsValidIDType(Judge(s.cfg, m).id) && FirstWritten(s)
    ensures Step(s, ReaderStep).cfg == s.cfg
    ensures var u1 := Step(s, ReaderStep);
      Step(u1, Reads(m)).cfg == s.cfg && var u2 := Step(u1, Reads(m));
      Step(u2, ReaderStep).cfg == s.cfg && var u3 := Step(u2, ReaderStep);
      Step(u3, ServiceStep(MAX_SERVICES, DONE)).cfg == s.cfg && var u4 := Step(u3, ServiceStep(MAX_SERVICES, DONE));
      DoorCrowded(Step(u4, ServiceStep(MAX_SERVICES, DONE)))
  {
    hide RegInv, Judge;
  }

  lemma DoorCrowds(c: Config, m: Message) returns (actions: seq<Action>)
    requires RegInv(c.maps) && Judge(c, m).Serve? && IsValidIDType(Judge(c, m).id)
    ensures NobodyDisconnects(actions) && DoorCrowded(Run(c, actions))
  {
    hide RegInv, Step, Judge, FirstWritten, DoorCrowded;
    var before := FirstReplyWritten(c, m);
    NextPosts(Run(c, before), m);
    Then(c, before, ReaderStep);
    var a1 := before + [ReaderStep];
    Then(c, a1, Reads(m));
    var a2 := a1 + [Reads(m)];
    Then(c, a2, ReaderStep);
    var a3 := a2 + [ReaderStep];
    Then(c, a3, ServiceStep(MAX_SERVICES, DONE));
    var a4 := a3 + [ServiceStep(MAX_SERVICES, DONE)];
    Then(c, a4, ServiceStep(MAX_SERVICES, DONE));
    actions := a4 + [ServiceStep(MAX_SERVICES, DONE)];
  }

  /** The input handler reads one more message and passes its check, the write fails, and the output handler leaves. */
  lemma Leaves(s: State)
    requires RegInv(s.cfg.maps) && s.cfg.authenticated && DoorCrowded(s)
    ensures Step(s, ReaderStep).cfg == s.cfg
    ensures var u1 := Step(s, ReaderStep);
      Step(u1, Reads(Garbage)).cfg == s.cfg && var u2 := Step(u1, Reads(Garbage));
      Step(u2, ReaderStep).cfg == s.cfg && var u3 := Step(u2, ReaderStep);
      Step(u3, Writes(false)).cfg == s.cfg && var u4 := Step(u3, Writes(false));
      Step(u4, Quits).cfg == s.cfg && var u5 := Step(u4, Quits);
      var u6 := Step(u5, Takes);
      u6.writer.Ended? && u6.reader.Pushing? && u6.sendChan == [] && u6.services == s.services
  {
    hide RegInv, ParseCmd;
  }

  lemma {:induction false} PostingPart(vs: seq<Service>)
    requires vs != [] && forall k :: 1 <= k < |vs| ==> vs[k].pc.Posting?
    ensures PostingCount(vs) >= |vs| - 1
  {
    if |vs| > 1 { PostingPart(vs[..|vs|-1]); }
  }

  /**
   * On any server that serves some request of an authenticated client, a run in which
   * nothing but the failed write disconnects strands the input handler.
   */
  lemma ReaderStrands(c: Config, m: Message) returns (actions: seq<Action>)
    requires RegInv(c.maps) && c.authenticated && Judge(c, m).Serve? && IsValidIDType(Judge(c, m).id)
    ensures NobodyDisconnects(actions) && Stranded(Run(c, actions))
  {
    hide RegInv, Step, Judge, PostingCount, Stranded;
    var a0 := DoorCrowds(c, m);
    var s := Run(c, a0);
    Leaves(s);
    Then(c, a0, ReaderStep);
    var a1 := a0 + [ReaderStep];
    Then(c, a1, Reads(Garbage));
    var a2 := a1 + [Reads(Garbage)];
    Then(c, a2, ReaderStep);
    var a3 := a2 + [ReaderStep];
    Then(c, a3, Writes(false));
    var a4 := a3 + [Writes(false)];
    Then(c, a4, Quits);
    var a5 := a4 + [Quits];
    Then(c, a5, Takes);
    var a6 := a5 + [Takes];
    PostingPart(s.services);
    var more := Strands(c, a6);
    actions := a6 + more;
  }

  // ----- In every other case both handlers can end

  /** Steps on the way out: nothing is read, every write fails, and nobody else disconnects. */
  ghost predicate OnTheWayOut(actions: seq<Action>) {
    forall a <- actions :: !a.Reads? && !a.Disconnects? && a != Writes(true)
  }

  lemma Onward(c: Config, actions: seq<Action>, a: Action, rest: seq<Action>)
    requires RegInv(c.maps) && OnTheWayOut(rest) && !a.Reads? && !a.Disconnects? && a != Writes(true)
    ensures Run(c, actions + [a]) == Step(Run(c, actions), a)
    ensures OnTheWayOut([a] + rest) && (actions + [a]) + rest == actions + ([a] + rest)
  {
    hide RegInv, Step;
    Then(c, actions, a);
  }

  /** The output handler's next step while there are replies in the buffer. */
  function RoomStep(w: Writer): Action {
    match w
    case Writing(_) => Writes(false)
    case Failing(_) => Quits
    case _ => Takes
  }

  function RoomRank(w: Writer): nat {
    match w case Writing(_) => 2 case Failing(_) => 1 case _ => 0
  }

  lemma MakesRoom(s: State)
    requires RegInv(s.cfg.maps) && s.disconnected && !s.writer.Ended? && s.sendChan != []
    ensures var u := Step(s, RoomStep(s.writer));
      && u.disconnected && !u.writer.Ended? && u.reader == s.reader && u.services == s.services && u.sem == s.sem
      && (RoomRank(s.writer) > 0 ==> RoomRank(u.writer) < RoomRank(s.writer) && u.sendChan == s.sendChan)
      && (RoomRank(s.writer) == 0 ==> |u.sendChan| < |s.sendChan|)
  {
  }

  lemma Nothing()
    ensures OnTheWayOut([])
  {
  }

  /** While the output handler runs, it can make room in the buffer. */
  lemma {:induction false} RoomMade(c: Config, actions: seq<Action>) returns (more: seq<Action>)
    requires RegInv(c.maps) && Run(c, actions).disconnected && !Run(c, actions).writer.Ended?
    ensures OnTheWayOut(more)
    ensures var s, u := Run(c, actions), Run(c, actions + more);
      && u.disconnected && !u.writer.Ended? && u.reader == s.reader && u.services == s.services && u.sem == s.sem
      && |u.sendChan| < SEND_BUFFER
    decreases RoomRank(Run(c, actions).writer)
  {
    hide RegInv, Run, Step, OnTheWayOut;
    var s := Run(c, actions);
    BufferBounded(c, actions);
    assert OnTheWayOut([]) by { Nothing(); }
    if |s.sendChan| < SEND_BUFFER {
      more := [];
      assert actions + more == actions;
    } else {
      var a := RoomStep(s.writer);
      MakesRoom(s);
      Onward(c, actions, a, []);
      if RoomRank(s.writer) == 0 {
        more := [a];
        assert [a] + [] == [a];
      } else {
        var rest := RoomMade(c, actions + [a]);
        Onward(c, actions, a, rest);
        more := [a] + rest;
      }
    }
  }

  lemma Joined(c: Config, actions: seq<Action>, first: seq<Action>, rest: seq<Action>)
    requires OnTheWayOut(first) && OnTheWayOut(rest)
    ensures OnTheWayOut(first + rest) && (actions + first) + rest == actions + (first + rest)
  {
  }

  function Remaining(pc: Progress): nat {
    match pc case Running => 3 case Replying(_) => 2 case Posting(_) => 2 case Releasing => 1 case Finished => 0
  }

  lemma {:induction false} SomeToken(vs: seq<Service>, k: nat)
    requires k < |vs| && Busy(vs[k])
    ensures BusyCount(vs) > 0
  {
    if k < |vs| - 1 { SomeToken(vs[..|vs|-1], k); }
  }

  /** After the disconnect a service that need not push, or can, moves towards its end. */
  lemma ServiceLeaves(s: State, k: nat)
    requires RegInv(s.cfg.maps) && InvTokens(s) && s.disconnected && k < |s.services| && Busy(s.services[k])
    requires s.services[k].pc.Posting? ==> |s.sendChan| < SEND_BUFFER
    ensures var u := Step(s, ServiceStep(k, DONE));
      && u.disconnected && u.reader == s.reader && u.writer == s.writer && |u.services| == |s.services|
      && Remaining(u.services[k].pc) < Remaining(s.services[k].pc) && !u.services[k].pc.Posting?
      && (Busy(u.services[k]) ==> u.sem == s.sem) && (!Busy(u.services[k]) ==> u.sem < MAX_SERVICES)
  {
    hide RegInv, ServiceReply;
    SomeToken(s.services, k);
  }

  lemma TokensOf(c: Config, actions: seq<Action>)
    requires RegInv(c.maps)
    ensures InvTokens(Run(c, actions))
  {
    hide RegInv, Run, Accounted, InvOrder, InvTokens;
    RunKeeps(c, actions);
  }

  /** A service that is not blocked for ever can give its token back. */
  lemma {:induction false} TokenFreed(c: Config, actions: seq<Action>, k: nat) returns (more: seq<Action>)
    requires RegInv(c.maps) && Run(c, actions).disconnected
    requires k < |Run(c, actions).services| && Busy(Run(c, actions).services[k])
    requires Run(c, actions).services[k].pc.Posting? ==>
      !Run(c, actions).writer.Ended? || |Run(c, actions).sendChan| < SEND_BUFFER
    ensures OnTheWayOut(more)
    ensures var s, u := Run(c, actions), Run(c, actions + more);
      u.disconnected && u.reader == s.reader && u.sem < MAX_SERVICES
    decreases Remaining(Run(c, actions).services[k].pc)
  {
    hide RegInv, Run, Step, OnTheWayOut, InvTokens;
    var s := Run(c, actions);
    var first: seq<Action> := [];
    Nothing();
    assert actions + [] == actions;
    if s.services[k].pc.Posting? && |s.sendChan| >= SEND_BUFFER { first := RoomMade(c, actions); }
    var a := ServiceStep(k, DONE);
    TokensOf(c, actions + first);
    ServiceLeaves(Run(c, actions + first), k);
    Onward(c, actions + first, a, []);
    var v := Run(c, (actions + first) + [a]);
    var rest: seq<Action> := [];
    if Busy(v.services[k]) {
      rest := TokenFreed(c, (actions + first) + [a], k);
    } else {
      assert ((actions + first) + [a]) + [] == (actions + first) + [a];
    }
    Onward(c, actions + first, a, rest);
    Joined(c, actions, first, [a] + rest);
    more := first + ([a] + rest);
  }

  lemma {:induction false} BusyNotPosting(vs: seq<Service>) returns (k: nat)
    requires BusyCount(vs) > PostingCount(vs)
    ensures k < |vs| && Busy(vs[k]) && !vs[k].pc.Posting?
  {
    if Busy(vs[|vs|-1]) && !vs[|vs|-1].pc.Posting? {
      k := |vs| - 1;
    } else {
      k := BusyNotPosting(vs[..|vs|-1]);
    }
  }

  lemma PostingIsBusy(v: Service)
    requires v.pc.Posting?
    ensures Busy(v)
  {
  }

  /** When all tokens are taken, some service can give its back. */
  lemma Releasable(c: Config, actions: seq<Action>) returns (k: nat)
    requires RegInv(c.maps) && Run(c, actions).sem == MAX_SERVICES
    ensures var s := Run(c, actions);
      && k < |s.services| && Busy(s.services[k])
      && (s.services[k].pc.Posting? ==> !s.writer.Ended? || |s.sendChan| < SEND_BUFFER)
  {
    hide RegInv, Run, BusyCount, PostingCount;
    var s := Run(c, actions);
    TokensOf(c, actions);
    PostingBusy(s.services);
    if BusyCount(s.services) > PostingCount(s.services) {
      k := BusyNotPosting(s.services);
    } else {
      CommittedBounded(c, actions);
      k := SomePosting(s.services);
      PostingIsBusy(s.services[k]);
    }
  }

  function ReaderRank(r: Reader): nat {
    match r case Gone => 0 case Closing => 1 case Checking => 2 case Reading => 2 case _ => 3
  }

  /** The input handler's next step on the way out. */
  function OutStep(r: Reader): Action {
    if r == Reading then ReadFails else ReaderStep
  }

  lemma ReaderLeaves(s: State)
    requires RegInv(s.cfg.maps) && s.disconnected && s.reader != Gone
    requires s.reader.Pushing? ==> |s.sendChan| < SEND_BUFFER
    requires s.reader.Acquiring? ==> s.sem < MAX_SERVICES
    ensures var u := Step(s, OutStep(s.reader));
      u.disconnected && ReaderRank(u.reader) < ReaderRank(s.reader) && !u.reader.Pushing?
  {
    hide RegInv;
  }

  /** What the input handler waits for, if anything, can be brought about. */
  lemma Unblocked(c: Config, actions: seq<Action>) returns (more: seq<Action>)
    requires RegInv(c.maps) && Run(c, actions).disconnected && !Stranded(Run(c, actions))
    ensures OnTheWayOut(more)
    ensures var s, u := Run(c, actions), Run(c, actions + more);
      && u.disconnected && u.reader == s.reader
      && (u.reader.Pushing? ==> |u.sendChan| < SEND_BUFFER) && (u.reader.Acquiring? ==> u.sem < MAX_SERVICES)
  {
    hide RegInv, Run;
    var s := Run(c, actions);
    BufferBounded(c, actions);
    TokensOf(c, actions);
    if s.reader.Pushing? && |s.sendChan| == SEND_BUFFER {
      more := RoomMade(c, actions);
    } else if s.reader.Acquiring? && s.sem == MAX_SERVICES {
      var k := Releasable(c, actions);
      more := TokenFreed(c, actions, k);
    } else {
      more := [];
      assert actions + more == actions;
    }
  }

  lemma {:induction false} ReaderEnds(c: Config, actions: seq<Action>) returns (more: seq<Action>)
    requires RegInv(c.maps) && Run(c, actions).disconnected && !Stranded(Run(c, actions))
    ensures OnTheWayOut(more) && Run(c, actions + more).disconnected && Run(c, actions + more).reader == Gone
    decreases ReaderRank(Run(c, actions).reader)
  {
    hide RegInv, Run, Step, OnTheWayOut;
    if Run(c, actions).reader == Gone {
      more := [];
      Nothing();
      assert actions + more == actions;
    } else {
      var first := Unblocked(c, actions);
      var s := Run(c, actions + first);
      ReaderLeaves(s);
      var a := OutStep(s.reader);
      Nothing();
      Onward(c, actions + first, a, []);
      var rest := ReaderEnds(c, (actions + first) + [a]);
      Onward(c, actions + first, a, rest);
      Joined(c, actions, first, [a] + rest);
      more := first + ([a] + rest);
    }
  }

  function WriterRank(w: Writer): nat {
    match w case Writing(_) => 3 case Failing(_) => 2 case Selecting => 2 case Draining => 1 case Ended => 0
  }

  /** The output handler's next step on the way out. */
  function LastStep(w: Writer): Action {
    match w
    case Writing(_) => Writes(false)
    case Draining => Takes
    case _ => Quits
  }

  lemma WriterLeaves(s: State)
    requires RegInv(s.cfg.maps) && s.disconnected && !s.writer.Ended?
    ensures var u := Step(s, LastStep(s.writer));
      && u.disconnected && u.reader == s.reader && WriterRank(u.writer) <= WriterRank(s.writer)
      && (WriterRank(u.writer) == WriterRank(s.writer) ==> |u.sendChan| < |s.sendChan|)
  {
  }

  lemma {:induction false} WriterEnds(c: Config, actions: seq<Action>) returns (more: seq<Action>)
    requires RegInv(c.maps) && Run(c, actions).disconnected
    ensures OnTheWayOut(more)
    ensures Run(c, actions + more).writer.Ended? && Run(c, actions + more).reader == Run(c, actions).reader
    decreases WriterRank(Run(c, actions).writer), |Run(c, actions).sendChan|
  {
    hide RegInv, Run, Step, OnTheWayOut;
    var s := Run(c, actions);
    Nothing();
    if s.writer.Ended? {
      more := [];
      assert actions + more == actions;
    } else {
      var a := LastStep(s.writer);
      WriterLeaves(s);
      Onward(c, actions, a, []);
      var rest := WriterEnds(c, actions + [a]);
      Onward(c, actions, a, rest);
      more := [a] + rest;
    }
  }

  /** Both handlers have ended, so WaitForShutdown returns. */
  predicate BothEnded(s: State) {
    s.reader == Gone && s.writer.Ended?
  }

  /**
   * After a disconnect the two handlers can both end, with nothing more read and no write succeeding, if and only if
   * the input handler is not stranded.
   */
  lemma HandlersEndIff(c: Config, actions: seq<Action>)
    requires RegInv(c.maps) && Run(c, actions).disconnected
    ensures (exists more :: OnTheWayOut(more) && BothEnded(Run(c, actions + more))) <==> !Stranded(Run(c, actions))
  {
    hide RegInv, Run, OnTheWayOut;
    if Stranded(Run(c, actions)) {
      forall more ensures !BothEnded(Run(c, actions + more)) { StrandedForever(c, actions, more); }
    } else {
      var first := ReaderEnds(c, actions);
      var rest := WriterEnds(c, actions + first);
      Joined(c, actions, first, rest);
      assert BothEnded(Run(c, actions + (first + rest)));
    }
  }
}

/**
 * What one message comes to on a server connection that nothing holds up: it is read, and
 * served or answered, and its reply written; and what a run reads at all.
 */
module ServerOperations {
  import opened Basics
  import opened Registry
  import opened ServerReplies
  import opened ServerPipeline

  // ----- What is read

  /** The messages that came while the input handler was reading. */
  function Arrived(c: Config, actions: seq<Action>): seq<Message>
    requires RegInv(c.maps)
  {
    if actions == [] then [] else
    var before, a := actions[..|actions|-1], actions[|actions|-1];
    if a.Reads? && Run(c, before).reader == Reading then Arrived(c, before) + [a.m] else Arrived(c, before)
  }

  lemma ReadStep(s: State, a: Action)
    requires RegInv(s.cfg.maps)
    ensures Step(s, a).read == if a.Reads? && s.reader == Reading then s.read + [a.m] else s.read
  {
    hide RegInv, Judge, ServiceReply;
  }

  /** A run reads these messages, in their order, and no others. */
  lemma {:induction false} ReadExact(c: Config, actions: seq<Action>)
    requires RegInv(c.maps)
    ensures Run(c, actions).read == Arrived(c, actions)
  {
    hide RegInv, Step;
    if actions != [] {
      ReadExact(c, actions[..|actions|-1]);
      ReadStep(Run(c, actions[..|actions|-1]), actions[|actions|-1]);
    }
  }

  // ----- Runs from a state

  /** The state after more actions. */
  function After(s: State, actions: seq<Action>): (u: State)
    requires RegInv(s.cfg.maps)
    ensures u.cfg == s.cfg
  {
    if actions == [] then s else
    var u := After(s, actions[..|actions|-1]);
    ConfigStays(u, actions[|actions|-1]);
    Step(u, actions[|actions|-1])
  }

  lemma {:induction false} RunAfter(c: Config, actions: seq<Action>, more: seq<Action>)
    requires RegInv(c.maps)
    ensures Run(c, actions + more) == After(Run(c, actions), more)
    decreases |more|
  {
    hide RegInv, Step;
    if more == [] {
      assert actions + more == actions;
    } else {
      RunAfter(c, actions, more[..|more|-1]);
      assert (actions + more)[..|actions + more|-1] == actions + more[..|more|-1];
    }
  }

  lemma AfterSnoc(s: State, actions: seq<Action>, a: Action)
    requires RegInv(s.cfg.maps)
    ensures After(s, actions + [a]) == Step(After(s, actions), a)
  {
    hide RegInv, Step;
    assert (actions + [a])[..|actions|] == actions;
  }

  /** Nothing is under way: the input handler reads, the output handler waits, the buffer is empty. */
  predicate Idle(s: State) {
    s.reader == Reading && !s.disconnected && s.writer == Selecting && s.sendChan == [] && s.sem < MAX_SERVICES
  }

  /** As before, but for message `m` read and the replies of `out` written. */
  ghost predicate Handled(s: State, u: State, m: Message, out: seq<Outgoing>, services: seq<Service>) {
    && Idle(u) && u.cfg == s.cfg && u.sem == s.sem && u.services == services
    && u.read == s.read + [m] && u.enqueued == s.enqueued + out && u.taken == s.taken + out
    && u.written == s.written + out
  }

  /** The reply in the buffer is taken and written. */
  lemma Written(s: State, o: Outgoing)
    requires RegInv(s.cfg.maps) && s.writer == Selecting && s.sendChan == [o]
    ensures Step(s, Takes).cfg == s.cfg
    ensures Step(Step(s, Takes), Writes(true))
         == s.(sendChan := [], taken := s.taken + [o], written := s.written + [o])
  {
    hide RegInv;
  }

  lemma ReadsServe(s: State, m: Message)
    requires RegInv(s.cfg.maps) && Idle(s) && |s.read| == |s.fates| && Judge(s.cfg, m).Serve?
    ensures Step(s, Reads(m)).cfg == s.cfg
    ensures var u1 := Step(s, Reads(m)); Step(u1, ReaderStep).cfg == s.cfg
    ensures var u1 := Step(s, Reads(m)); var u2 := Step(u1, ReaderStep); var u := Step(u2, ReaderStep);
      && u.cfg == s.cfg && u.reader == Reading && !u.disconnected && u.writer == Selecting && u.sendChan == []
      && u.sem == s.sem + 1 && u.read == s.read + [m]
      && u.services == s.services + [Service(|s.read|, Judge(s.cfg, m).id, Judge(s.cfg, m).name, Running)]
      && u.enqueued == s.enqueued && u.taken == s.taken && u.written == s.written
  {
    hide RegInv, Judge;
  }

  /** The service has its reply, and enters the buffer with it. */
  lemma Replies(s: State, k: nat, out: HandlerOut, r: Response)
    requires RegInv(s.cfg.maps) && k < |s.services| && s.services[k].pc == Running && !s.disconnected
    requires |s.sendChan| < SEND_BUFFER && ServiceReply(s.cfg, s.services[k].id, s.services[k].name, out) == Some(r)
    ensures var a := ServiceStep(k, out);
      Step(s, a).cfg == s.cfg && Step(Step(s, a), a).cfg == s.cfg
    ensures var a, o := ServiceStep(k, out), Outgoing(r, s.services[k].from);
      var u := Step(Step(Step(s, a), a), a);
      u == s.(services := s.services[k := s.services[k].(pc := Releasing)], sendChan := s.sendChan + [o],
          enqueued := s.enqueued + [o], fates := u.fates)
  {
    hide RegInv, ServiceReply;
    var a := ServiceStep(k, out);
    var s1, v := Step(s, a), s.services[k];
    assert s1 == Goto(s, k, Replying(r));
    var s2 := Step(s1, a);
    assert s2.services == s.services[k := v.(pc := Posting(r))];
    assert s2.services[k := v.(pc := Releasing)] == s.services[k := v.(pc := Releasing)];
  }

  lemma Releases(s: State, k: nat, out: HandlerOut)
    requires RegInv(s.cfg.maps) && k < |s.services| && s.services[k].pc == Releasing && s.sem > 0
    ensures Step(s, ServiceStep(k, out))
         == s.(services := s.services[k := s.services[k].(pc := Finished)], sem := s.sem - 1)
  {
    hide RegInv;
  }

  lemma GivesUp(s: State, k: nat, out: HandlerOut)
    requires RegInv(s.cfg.maps) && k < |s.services| && s.services[k].pc == Running
    requires ServiceReply(s.cfg, s.services[k].id, s.services[k].name, out) == None
    ensures var u := Step(s, ServiceStep(k, out));
      u == s.(services := s.services[k := s.services[k].(pc := Releasing)], fates := u.fates)
  {
    hide RegInv, ServiceReply;
  }

  /** A request without fault is served, and its reply, when there is one, written; the token is given back. */
  lemma RequestServed(s: State, m: Message, out: HandlerOut) returns (run: seq<Action>)
    requires RegInv(s.cfg.maps) && Idle(s) && |s.read| == |s.fates| && Judge(s.cfg, m).Serve?
    ensures var v, n := Judge(s.cfg, m), |s.read|;
      Handled(s, After(s, run), m,
        match ServiceReply(s.cfg, v.id, v.name, out) case Some(r) => [Outgoing(r, n)] case None => [],
        s.services + [Service(n, v.id, v.name, Finished)])
  {
    hide RegInv, Judge, ServiceReply, Step;
    var v, k, n := Judge(s.cfg, m), |s.services|, |s.read|;
    ReadsServe(s, m);
    run := [Reads(m)];
    AfterSnoc(s, [], Reads(m));
    assert [] + [Reads(m)] == run;
    AfterSnoc(s, run, ReaderStep);
    run := run + [ReaderStep];
    AfterSnoc(s, run, ReaderStep);
    run := run + [ReaderStep];
    var u, a := After(s, run), ServiceStep(k, out);
    match ServiceReply(s.cfg, v.id, v.name, out) {
      case Some(r) =>
        Replies(u, k, out, r);
        AfterSnoc(s, run, a);
        run := run + [a];
        AfterSnoc(s, run, a);
        run := run + [a];
      case None => GivesUp(u, k, out);
    }
    AfterSnoc(s, run, a);
    run := run + [a];
    Releases(After(s, run), k, out);
    AfterSnoc(s, run, a);
    run := run + [a];
    var w := After(s, run);
    assert w.services == s.services + [Service(n, v.id, v.name, Finished)];
    if ServiceReply(s.cfg, v.id, v.name, out).Some? {
      Written(w, Outgoing(ServiceReply(s.cfg, v.id, v.name, out).value, n));
      AfterSnoc(s, run, Takes);
      run := run + [Takes];
      AfterSnoc(s, run, Writes(true));
      run := run + [Writes(true)];
    }
  }

  /** After the disconnect a reply that has not passed its check is dropped, and one that has is pushed all the same. */
  lemma OfflineDropped(s: State, k: nat, out: HandlerOut)
    requires RegInv(s.cfg.maps) && s.disconnected && k < |s.services|
    ensures s.reader.Sending? ==>
      Step(s, ReaderStep) == s.(reader := Checking, fates := Step(s, ReaderStep).fates)
    ensures s.reader == Checking ==> Step(s, ReaderStep) == s.(reader := Closing)
    ensures s.services[k].pc.Replying? ==>
      var u := Step(s, ServiceStep(k, out));
      u == s.(services := s.services[k := s.services[k].(pc := Releasing)], fates := u.fates)
    ensures s.services[k].pc.Posting? && |s.sendChan| < SEND_BUFFER ==>
      var u, o := Step(s, ServiceStep(k, out)), Outgoing(s.services[k].pc.resp, s.services[k].from);
      u == s.(services := s.services[k := s.services[k].(pc := Releasing)], sendChan := s.sendChan + [o],
          enqueued := s.enqueued + [o], fates := u.fates)
  {
    hide RegInv;
  }

  lemma ReadsFault(s: State, m: Message)
    requires RegInv(s.cfg.maps) && Idle(s) && |s.read| == |s.fates| && Judge(s.cfg, m).Reply?
    ensures Step(s, Reads(m)).cfg == s.cfg
    ensures var u1 := Step(s, Reads(m)); Step(u1, ReaderStep).cfg == s.cfg
    ensures var u1 := Step(s, Reads(m)); var u2 := Step(u1, ReaderStep); Step(u2, ReaderStep).cfg == s.cfg
    ensures var u1 := Step(s, Reads(m)); var u2 := Step(u1, ReaderStep); var u3 := Step(u2, ReaderStep);
      var u, o := Step(u3, ReaderStep), Outgoing(Judge(s.cfg, m).r, |s.read|);
      && u == s.(sendChan := [o], enqueued := s.enqueued + [o], read := s.read + [m], fates := u.fates)
  {
    hide RegInv, Judge;
  }

  /** A message at fault is answered with its fault. */
  lemma FaultAnswered(s: State, m: Message) returns (run: seq<Action>)
    requires RegInv(s.cfg.maps) && Idle(s) && |s.read| == |s.fates| && Judge(s.cfg, m).Reply?
    ensures Handled(s, After(s, run), m, [Outgoing(Judge(s.cfg, m).r, |s.read|)], s.services)
  {
    hide RegInv, Judge, Step;
    ReadsFault(s, m);
    AfterSnoc(s, [], Reads(m));
    assert [] + [Reads(m)] == [Reads(m)];
    run := [Reads(m)];
    AfterSnoc(s, run, ReaderStep);
    run := run + [ReaderStep];
    AfterSnoc(s, run, ReaderStep);
    run := run + [ReaderStep];
    AfterSnoc(s, run, ReaderStep);
    run := run + [ReaderStep];
    Written(After(s, run), Outgoing(Judge(s.cfg, m).r, |s.read|));
    AfterSnoc(s, run, Takes);
    run := run + [Takes];
    AfterSnoc(s, run, Writes(true));
    run := run + [Writes(true)];
  }

  /** A message to ignore leaves no trace, and one to be cut off for ends the input handler. */
  lemma OthersHandled(s: State, m: Message)
    requires RegInv(s.cfg.maps) && Idle(s) && |s.read| == |s.fates|
    requires Judge(s.cfg, m) == Ignore || Judge(s.cfg, m) == Break
    ensures Step(s, Reads(m)).cfg == s.cfg
    ensures Judge(s.cfg, m) == Ignore ==> Handled(s, Step(Step(s, Reads(m)), ReaderStep), m, [], s.services)
    ensures Judge(s.cfg, m) == Break ==>
      var u := Step(Step(s, Reads(m)), ReaderStep);
      u == s.(reader := Gone, disconnected := true, read := s.read + [m], fates := u.fates)
  {
    hide RegInv, Judge;
  }
}

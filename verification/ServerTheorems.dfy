/**
 * What every run of one server connection guarantees: replies are accounted for one by
 * one, services are limited, and the writer keeps the order.
 */
module ServerTheorems {
  import opened Basics
  import opened GoValues
  import opened RequestTable
  import opened Registry
  import opened CmdCodec
  import opened ServerReplies
  import opened ServerPipeline
  import Correlation

  /** A message is answered at most once, with an answer that belongs to it, and only if it is answerable. */
  lemma AtMostOneReply(c: Config, actions: seq<Action>, p: nat, q: nat)
    requires RegInv(c.maps) && p < |Run(c, actions).enqueued| && q < |Run(c, actions).enqueued|
    ensures var s := Run(c, actions); var o := s.enqueued[p];
      && o.from < |s.read| && Belongs(c, s.read[o.from], o.resp) && Answerable(s.read[o.from])
      && (o.from == s.enqueued[q].from ==> p == q)
  {
    hide Judge, ParseCmd;
    var s := Run(c, actions);
    RunKeeps(c, actions);
    assert ReplyOk(s, p) && ReplyOk(s, q);
  }

  /** Whether the reader or a service still has the message in hand. */
  ghost predicate InHand(s: State, n: nat) {
    || (Holds(s.reader) && s.reader.n == n)
    || exists k :: 0 <= k < |s.services| && s.services[k].from == n && Owes(s.services[k])
  }

  ghost predicate Replied(s: State, n: nat) {
    exists p :: 0 <= p < |s.enqueued| && s.enqueued[p].from == n
  }

  /** Every handler's result marshals in the run. */
  ghost predicate Marshallable(actions: seq<Action>) {
    forall a <- actions :: a.ServiceStep? ==> a.out.result.Some?
  }

  lemma ServiceMarshals(c: Config, id: Id, name: string, out: HandlerOut)
    requires out.result.Some?
    ensures IsValidIDType(id) ==> ServiceReply(c, id, name, out).Some?
  {
  }

  lemma StepMarshals(s: State, a: Action)
    requires RegInv(s.cfg.maps) && (a.ServiceStep? ==> a.out.result.Some?)
    requires forall i :: 0 <= i < |s.fates| ==> !s.fates[i].Unmarshallable?
    ensures forall i :: 0 <= i < |Step(s, a).fates| ==> !Step(s, a).fates[i].Unmarshallable?
  {
    hide Judge, ServiceReply, RegInv;
    if a.ServiceStep? && a.k < |s.services| {
      ServiceMarshals(s.cfg, s.services[a.k].id, s.services[a.k].name, a.out);
    }
  }

  /** With marshallable results no reply is given up for its result. */
  lemma {:induction false} NoneUnmarshallable(c: Config, actions: seq<Action>)
    requires RegInv(c.maps) && Marshallable(actions)
    ensures forall i :: 0 <= i < |Run(c, actions).fates| ==> !Run(c, actions).fates[i].Unmarshallable?
  {
    hide Step;
    if actions != [] {
      var before := actions[..|actions|-1];
      assert actions[|actions|-1] in actions && forall b <- before :: b in actions;
      NoneUnmarshallable(c, before);
      StepMarshals(Run(c, before), actions[|actions|-1]);
    }
  }

  lemma SettledOrInHand(s: State, n: nat)
    requires Accounted(s) && n < |s.read|
    ensures Replied(s, n) || InHand(s, n) || s.fates[n] in {Offline, Unanswerable, Unmarshallable, Refused}
    ensures s.fates[n] == Offline ==> s.disconnected
    ensures s.fates[n] == Refused ==> !s.cfg.authenticated && Judge(s.cfg, s.read[n]) == Break
    ensures s.fates[n] == Unanswerable ==> !Answerable(s.read[n])
  {
    hide Judge, Belongs, RegInv, ReaderOk, Answerable;
    assert FateOk(s, n);
  }

  lemma RepliesFit(s: State, n: nat)
    requires Accounted(s) && n < |s.read|
    ensures Replied(s, n) ==> Answerable(s.read[n]) && !InHand(s, n)
  {
    hide Judge, RegInv, ParseCmd;
    if Replied(s, n) {
      var p :| 0 <= p < |s.enqueued| && s.enqueued[p].from == n;
      assert ReplyOk(s, p);
      forall k | 0 <= k < |s.services| && s.services[k].from == n ensures !Owes(s.services[k]) {
        assert ServiceOk(s, k);
      }
    }
  }

  /**
   * On a live connection of an authenticated client, each message read is answered, in hand, or not answerable:
   * one reply for each answerable message, none for the others.
   */
  lemma LiveAccounting(c: Config, actions: seq<Action>, n: nat)
    requires RegInv(c.maps) && c.authenticated && Marshallable(actions)
    requires n < |Run(c, actions).read| && !Run(c, actions).disconnected
    ensures var s := Run(c, actions);
      && (Answerable(s.read[n]) ==> Replied(s, n) || InHand(s, n))
      && (!Answerable(s.read[n]) ==> !Replied(s, n))
      && !(Replied(s, n) && InHand(s, n))
  {
    hide Judge, RegInv, Belongs, Answerable, Run, ReaderOk, Replied, InHand;
    var s := Run(c, actions);
    RunKeeps(c, actions);
    NoneUnmarshallable(c, actions);
    SettledOrInHand(s, n);
    RepliesFit(s, n);
  }

  /** When nothing is in hand on a live connection, exactly the answerable messages have been answered. */
  lemma IdleMeansAnswered(c: Config, actions: seq<Action>)
    requires RegInv(c.maps) && c.authenticated && Marshallable(actions) && !Run(c, actions).disconnected
    requires forall n: nat :: n < |Run(c, actions).read| ==> !InHand(Run(c, actions), n)
    ensures var s := Run(c, actions); forall n: nat :: n < |s.read| ==> (Replied(s, n) <==> Answerable(s.read[n]))
  {
    hide Run, RegInv, InHand, Replied, Answerable;
    forall n: nat | n < |Run(c, actions).read|
      ensures Replied(Run(c, actions), n) <==> Answerable(Run(c, actions).read[n])
    {
      LiveAccounting(c, actions, n);
    }
  }

  /** At most fifty requests are served at once, each holding a token; the output buffer never exceeds its capacity. */
  lemma ServicesLimited(c: Config, actions: seq<Action>)
    requires RegInv(c.maps)
    ensures var s := Run(c, actions); s.sem == BusyCount(s.services) <= MAX_SERVICES && |s.sendChan| <= SEND_BUFFER
  {
    RunKeeps(c, actions);
  }

  /**
   * An accepted request waits for a token, is in service or has been answered, unless the connection is lost, its id
   * is no scalar, or some handler returned a result that does not marshal.
   */
  lemma AcceptedIsServed(c: Config, actions: seq<Action>, n: nat)
    requires RegInv(c.maps) && n < |Run(c, actions).read| && Judge(c, Run(c, actions).read[n]).Serve?
    ensures var s := Run(c, actions);
      InHand(s, n) || Replied(s, n) || s.disconnected || !Answerable(s.read[n]) || !Marshallable(actions)
  {
    hide Judge, Belongs, RegInv, ReaderOk, Replied, InHand, Answerable, Marshallable;
    RunKeeps(c, actions);
    SettledOrInHand(Run(c, actions), n);
    if Marshallable(actions) { NoneUnmarshallable(c, actions); }
  }

  /** No request is served twice. */
  lemma ServedOnce(c: Config, actions: seq<Action>, j: nat, k: nat)
    requires RegInv(c.maps)
    ensures var s := Run(c, actions);
      && j < |s.services| && k < |s.services| && s.services[j].from == s.services[k].from
      && Owes(s.services[j]) && Owes(s.services[k])
      ==> j == k
  {
    hide Judge, Belongs, RegInv, ReaderOk;
    var s := Run(c, actions);
    RunKeeps(c, actions);
    if j < |s.services| && k < |s.services| { assert ServiceOk(s, j) && ServiceOk(s, k); }
  }

  /** What has been written is always the beginning of what was enqueued. */
  lemma WrittenInOrder(c: Config, actions: seq<Action>)
    requires RegInv(c.maps)
    ensures IsPrefix(Run(c, actions).written, Run(c, actions).enqueued)
  {
    RunKeeps(c, actions);
    var s := Run(c, actions);
    assert s.enqueued[..|s.written|] == s.taken[..|s.written|];
  }

  // ----- No deadlock

  /** A goroutine that waits for a token or for room in the output buffer. */
  ghost predicate SomeoneBlocked(s: State) {
    || (s.reader.Acquiring? && s.sem >= MAX_SERVICES)
    || (s.reader.Pushing? && |s.sendChan| >= SEND_BUFFER)
    || exists k :: 0 <= k < |s.services| && s.services[k].pc.Posting? && |s.sendChan| >= SEND_BUFFER
  }

  lemma {:induction false} SomeBusy(vs: seq<Service>) returns (k: nat)
    requires BusyCount(vs) > 0
    ensures k < |vs| && Busy(vs[k])
  {
    if Busy(vs[|vs|-1]) { k := |vs| - 1; } else { k := SomeBusy(vs[..|vs|-1]); }
  }

  lemma ServiceMoves(s: State, k: nat)
    requires k < |s.services| && Busy(s.services[k]) && |s.sendChan| < SEND_BUFFER && s.sem > 0
    ensures StepService(s, k, HandlerOut(Some(JNull), None)) != s
  {
    hide ServiceReply;
    assert StepService(s, k, HandlerOut(Some(JNull), None)).services[k].pc != s.services[k].pc;
  }

  /** A step that takes nothing from the peer, and no handler's return. */
  predicate Internal(s: State, a: Action) {
    && !a.Reads? && !a.ReadFails? && !a.Disconnects? && !a.Writes?
    && (a.ServiceStep? && a.k < |s.services| ==> !s.services[a.k].pc.Running?)
  }

  ghost predicate SomeRunning(vs: seq<Service>) {
    exists k :: 0 <= k < |vs| && vs[k].pc.Running?
  }

  /**
   * On a live connection, whenever someone is blocked, another goroutine can step with neither the peer nor a handler
   * doing anything; or all wait for the peer to take a write, or for a handler to return.
   */
  lemma BlockedMeansProgress(c: Config, actions: seq<Action>)
    requires RegInv(c.maps) && !Run(c, actions).disconnected && SomeoneBlocked(Run(c, actions))
    ensures var s := Run(c, actions);
      || (exists a: Action :: Internal(s, a) && Step(s, a) != s)
      || (|s.sendChan| == SEND_BUFFER && s.writer.Writing?)
      || (|s.sendChan| < SEND_BUFFER && SomeRunning(s.services))
  {
    hide Run, Judge, ServiceReply, Accounted;
    var s := Run(c, actions);
    RunKeeps(c, actions);
    if |s.sendChan| >= SEND_BUFFER {
      var a := if s.writer.Selecting? then Takes else Quits;
      assert s.writer.Writing? || (Internal(s, a) && Step(s, a).writer != s.writer);
    } else {
      var k := SomeBusy(s.services);
      ServiceMoves(s, k);
      assert Step(s, ServiceStep(k, HandlerOut(Some(JNull), None))) != s;
      assert s.services[k].pc.Running? || Internal(s, ServiceStep(k, HandlerOut(Some(JNull), None)));
    }
  }

  // ----- Client and server together

  /**
   * What the client may make of a reply id: `uint64` of a float64,
   * which the language fixes only for numbers in range.
   */
  ghost predicate Converts(id: Id, converted: nat) {
    id.FloatId? && 0.0 <= id.r && (id.r < ID_SPACE as real ==> converted == id.r.Floor)
  }

  /**
   * A reply to a request of the client's, through any run of the server, is taken out of the client's table as the
   * answer to exactly that request if and only if the conversion gives the id back.  Below the last 2^10 ids, whose
   * float64 is out of range, that is if and only if the id survives rounding, as every id up to 2^53 does.
   */
  lemma EndToEnd(c: Config, actions: seq<Action>, p: nat, t: Table, r: nat, converted: nat)
    requires RegInv(c.maps) && p < |Run(c, actions).enqueued| && Exact(t) && r in t.list
    requires var s := Run(c, actions); var o := s.enqueued[p];
      && o.from < |s.read| && s.read[o.from].Msg? && s.read[o.from].req.id == DecodedId(JNum(Integer(IdOf(r))))
      && (o.resp.id.FloatId? ==> Converts(o.resp.id, converted))
    ensures Converts(Run(c, actions).enqueued[p].resp.id, converted)
    ensures Remove(t, converted).1 == Some(r) <==> converted == IdOf(r)
    ensures IdOf(r) < ID_SPACE - 0x400 ==>
      (Remove(t, converted).1 == Some(r) <==> IdOf(r) % Pow2(Correlation.Exp(IdOf(r))) == 0)
    ensures IdOf(r) <= Correlation.P53 ==> Remove(t, converted).1 == Some(r)
  {
    hide Run, Exact, Remove, Correlation.Round, Correlation.Exp, Belongs, DecodedId;
    var s := Run(c, actions);
    AtMostOneReply(c, actions, p, p);
    ReplyCarriesId(c, IdOf(r), s.read[s.enqueued[p].from], s.enqueued[p].resp);
    Correlation.RoundIdempotent(IdOf(r));
    Correlation.ReplyFindsItsRequest(t, r, converted);
  }
}

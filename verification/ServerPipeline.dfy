/**
 * One websocket connection of the server: the input handler, the goroutines that serve
 * requests under a semaphore, and the output handler that writes replies in order.
 * Each action is one step of one goroutine between two points where others may run.
 */
module ServerPipeline {
  import opened Basics
  import opened Registry
  import opened CmdCodec
  import opened ServerReplies

  const MAX_SERVICES: nat := 50
  const SEND_BUFFER: nat := 50

  /** A reply on its way out, with the number of the message it answers. */
  datatype Outgoing = Outgoing(resp: Response, from: nat)

  /** The input handler: selecting on quit, reading, in the two halves of SendMessage, acquiring a token, leaving. */
  datatype Reader =
    | Checking | Reading | Sending(resp: Response, n: nat) | Pushing(resp: Response, n: nat)
    | Acquiring(id: Id, name: string, n: nat) | Closing | Gone

  /** A service goroutine: in its handler, in the two halves of SendMessage, releasing its token, finished. */
  datatype Progress = Running | Replying(resp: Response) | Posting(resp: Response) | Releasing | Finished

  datatype Service = Service(from: nat, id: Id, name: string, pc: Progress)

  datatype Writer = Selecting | Writing(r: Outgoing) | Failing(r: Outgoing) | Draining | Ended

  /** What became of each message.  This and `read`, `enqueued`, `taken`, `written` are history: no step reads them. */
  datatype Fate =
    | Held | InService(k: nat) | Enqueued(p: nat)
    | Offline | Unanswerable | Unmarshallable | Refused

  datatype State = State(
    cfg: Config, disconnected: bool, reader: Reader, services: seq<Service>, sem: nat, sendChan: seq<Outgoing>,
        writer: Writer,
    read: seq<Message>, fates: seq<Fate>, enqueued: seq<Outgoing>, taken: seq<Outgoing>, written: seq<Outgoing>)

  datatype Action =
    | ReadFails | Reads(m: Message) | ReaderStep
    | ServiceStep(k: nat, out: HandlerOut)
    | Takes | Writes(ok: bool) | Quits
    | Disconnects

  function Init(c: Config): State {
    State(c, false, Checking, [], 0, [], Selecting, [], [], [], [], [])
  }

  // ----- Steps

  function Settle(s: State, n: nat, f: Fate): State {
    if n < |s.fates| then s.(fates := s.fates[n := f]) else s
  }

  function Enqueue(s: State, r: Response, n: nat): State {
    var o := Outgoing(r, n);
    Settle(s.(sendChan := s.sendChan + [o], enqueued := s.enqueued + [o]), n, Enqueued(|s.enqueued|))
  }

  function Receive(s: State, m: Message): State
    requires RegInv(s.cfg.maps)
  {
    var n, u := |s.read|, s.(read := s.read + [m]);
    match Judge(s.cfg, m)
    case Break => u.(reader := Closing, fates := u.fates + [Refused])
    case Ignore => u.(reader := Checking, fates := u.fates + [Unanswerable])
    case Reply(r) => u.(reader := Sending(r, n), fates := u.fates + [Held])
    case Serve(id, name) => u.(reader := Acquiring(id, name, n), fates := u.fates + [Held])
  }

  function StepReader(s: State): State {
    match s.reader
    case Checking => s.(reader := if s.disconnected then Closing else Reading)
    case Sending(r, n) => if s.disconnected then Settle(s.(reader := Checking), n, Offline)
        else s.(reader := Pushing(r, n))
    case Pushing(r, n) => if |s.sendChan| < SEND_BUFFER then Enqueue(s.(reader := Checking), r, n) else s
    case Acquiring(id, name, n) =>
      if s.sem < MAX_SERVICES
      then
        var services := s.services + [Service(n, id, name, Running)];
        Settle(s.(reader := Checking, sem := s.sem + 1, services := services), n, InService(|s.services|))
      else s
    case Closing => s.(disconnected := true, reader := Gone)
    case _ => s
  }

  function Goto(s: State, k: nat, pc: Progress): State
    requires k < |s.services|
  {
    s.(services := s.services[k := s.services[k].(pc := pc)])
  }

  function StepService(s: State, k: nat, out: HandlerOut): State
    requires k < |s.services|
  {
    var v := s.services[k];
    match v.pc
    case Running =>
      (match ServiceReply(s.cfg, v.id, v.name, out)
       case Some(r) => Goto(s, k, Replying(r))
       case None => Settle(Goto(s, k, Releasing), v.from, if IsValidIDType(v.id) then Unmarshallable else Unanswerable))
    case Replying(r) => if s.disconnected then Settle(Goto(s, k, Releasing), v.from, Offline)
        else Goto(s, k, Posting(r))
    case Posting(r) => if |s.sendChan| < SEND_BUFFER then Enqueue(Goto(s, k, Releasing), r, v.from) else s
    case Releasing => if s.sem > 0 then Goto(s, k, Finished).(sem := s.sem - 1) else s
    case Finished => s
  }

  function StepWriter(s: State, a: Action): State {
    match (s.writer, a)
    case (Selecting, Takes) =>
      if s.sendChan == [] then s
      else s.(writer := Writing(s.sendChan[0]), sendChan := s.sendChan[1..], taken := s.taken + [s.sendChan[0]])
    case (Selecting, Quits) => if s.disconnected then s.(writer := Draining) else s
    case (Writing(r), Writes(ok)) => if ok then s.(writer := Selecting, written := s.written + [r])
        else s.(writer := Failing(r))
    case (Failing(_), Quits) => s.(disconnected := true, writer := Draining)
    case (Draining, Takes) =>
      if s.sendChan == [] then s.(writer := Ended)
          else s.(sendChan := s.sendChan[1..], taken := s.taken + [s.sendChan[0]])
    case _ => s
  }

  function Step(s: State, a: Action): State
    requires RegInv(s.cfg.maps)
  {
    match a
    case ReadFails => if s.reader == Reading then s.(reader := Closing) else s
    case Reads(m) => if s.reader == Reading then Receive(s, m) else s
    case ReaderStep => StepReader(s)
    case ServiceStep(k, out) => if k < |s.services| then StepService(s, k, out) else s
    case Disconnects => s.(disconnected := true)
    case _ => StepWriter(s, a)
  }

  lemma ConfigStays(s: State, a: Action)
    requires RegInv(s.cfg.maps)
    ensures Step(s, a).cfg == s.cfg
  {
    hide Judge, ServiceReply;
  }

  function Run(c: Config, actions: seq<Action>): (s: State)
    requires RegInv(c.maps)
    ensures s.cfg == c
  {
    if actions == [] then Init(c) else
    var s := Run(c, actions[..|actions|-1]);
    ConfigStays(s, actions[|actions|-1]);
    Step(s, actions[|actions|-1])
  }

  // ----- Invariants

  predicate Busy(v: Service) {
    v.pc != Finished
  }

  /** Whether the goroutine still has its message to settle. */
  predicate Owes(v: Service) {
    v.pc.Running? || v.pc.Replying? || v.pc.Posting?
  }

  predicate Holds(r: Reader) {
    r.Sending? || r.Pushing? || r.Acquiring?
  }

  function BusyCount(vs: seq<Service>): nat {
    if vs == [] then 0 else BusyCount(vs[..|vs|-1]) + if Busy(vs[|vs|-1]) then 1 else 0
  }

  /** Tokens held are goroutines at work; the channels stay within their capacity. */
  ghost predicate InvTokens(s: State) {
    s.sem == BusyCount(s.services) <= MAX_SERVICES && |s.sendChan| <= SEND_BUFFER
  }

  /** Replies leave in the order they were enqueued; only the last taken one may be unwritten while the writer runs. */
  ghost predicate InvOrder(s: State) {
    && s.enqueued == s.taken + s.sendChan
    && IsPrefix(s.written, s.taken)
    && (s.writer.Selecting? ==> s.written == s.taken)
    && (s.writer.Writing? || s.writer.Failing? ==> s.taken == s.written + [s.writer.r])
    && (s.writer.Draining? || s.writer.Ended? ==> s.disconnected)
  }

  ghost predicate ReaderOk(s: State)
    requires RegInv(s.cfg.maps) && |s.read| == |s.fates|
  {
    Holds(s.reader) ==>
      && s.reader.n < |s.read| && s.fates[s.reader.n] == Held
      && (s.reader.Acquiring? ==> Judge(s.cfg, s.read[s.reader.n]) == Serve(s.reader.id, s.reader.name))
      && (!s.reader.Acquiring? ==> Belongs(s.cfg, s.read[s.reader.n], s.reader.resp))
  }

  ghost predicate ServiceOk(s: State, k: nat)
    requires RegInv(s.cfg.maps) && |s.read| == |s.fates| && k < |s.services|
  {
    var v := s.services[k];
    && v.from < |s.read| && Judge(s.cfg, s.read[v.from]) == Serve(v.id, v.name)
    && (Owes(v) ==> s.fates[v.from] == InService(k))
    && (v.pc.Replying? || v.pc.Posting? ==> Belongs(s.cfg, s.read[v.from], v.pc.resp))
  }

  ghost predicate ReplyOk(s: State, p: nat)
    requires RegInv(s.cfg.maps) && |s.read| == |s.fates| && p < |s.enqueued|
  {
    var o := s.enqueued[p];
    o.from < |s.read| && s.fates[o.from] == Enqueued(p) && Belongs(s.cfg, s.read[o.from], o.resp)
  }

  ghost predicate FateOk(s: State, n: nat)
    requires RegInv(s.cfg.maps) && |s.read| == |s.fates| && n < |s.read|
  {
    match s.fates[n]
    case Held => Holds(s.reader) && s.reader.n == n
    case InService(k) => k < |s.services| && s.services[k].from == n && Owes(s.services[k])
    case Enqueued(p) => p < |s.enqueued| && s.enqueued[p].from == n
    case Offline => s.disconnected
    case Unanswerable => !Answerable(s.read[n])
    case Unmarshallable => Judge(s.cfg, s.read[n]).Serve?
    case Refused => !s.cfg.authenticated && Judge(s.cfg, s.read[n]) == Break
  }

  ghost predicate Accounted(s: State) {
    && RegInv(s.cfg.maps) && |s.read| == |s.fates| && ReaderOk(s)
    && (forall k: nat :: k < |s.services| ==> ServiceOk(s, k))
    && (forall p: nat :: p < |s.enqueued| ==> ReplyOk(s, p))
    && (forall n: nat :: n < |s.read| ==> FateOk(s, n))
  }

  ghost predicate Inv(s: State) {
    InvTokens(s) && InvOrder(s) && Accounted(s)
  }

  // ----- Tokens and order

  lemma {:induction false} BusyAt(vs: seq<Service>, k: nat, v: Service)
    requires k < |vs|
    ensures BusyCount(vs[k := v]) == BusyCount(vs) - (if Busy(vs[k]) then 1 else 0) + (if Busy(v) then 1 else 0)
  {
    var n := |vs| - 1;
    if k == n {
      assert vs[k := v][..n] == vs[..n];
    } else {
      assert vs[k := v][..n] == vs[..n][k := v];
      BusyAt(vs[..n], k, v);
    }
  }

  /** Service `k` after a step of it. */
  function Moved(s: State, k: nat, out: HandlerOut): Service
    requires k < |s.services|
  {
    StepService(s, k, out).services[k]
  }

  lemma BusySnoc(vs: seq<Service>, v: Service)
    ensures BusyCount(vs + [v]) == BusyCount(vs) + if Busy(v) then 1 else 0
  {
    assert (vs + [v])[..|vs|] == vs;
  }

  lemma TokensKeep(s: State, a: Action)
    requires RegInv(s.cfg.maps) && InvTokens(s)
    ensures InvTokens(Step(s, a))
  {
    hide Judge, ServiceReply, BusyCount;
    match a {
      case ReaderStep =>
        if s.reader.Acquiring? { BusySnoc(s.services, Service(s.reader.n, s.reader.id, s.reader.name, Running)); }
      case ServiceStep(k, out) =>
        if k < |s.services| { BusyAt(s.services, k, Moved(s, k, out)); }
      case _ =>
    }
  }

  lemma EnqueueOrder(s: State, r: Response, n: nat)
    requires InvOrder(s)
    ensures InvOrder(Enqueue(s, r, n))
  {
    var o := Outgoing(r, n);
    assert (s.taken + s.sendChan) + [o] == s.taken + (s.sendChan + [o]);
  }

  lemma SameOrder(s: State, u: State)
    requires InvOrder(s) && u.enqueued == s.enqueued && u.taken == s.taken && u.written == s.written
    requires u.sendChan == s.sendChan
    requires u.writer == s.writer && (s.disconnected ==> u.disconnected)
    ensures InvOrder(u)
  {
  }

  lemma WriterOrder(s: State, a: Action)
    requires InvOrder(s)
    ensures InvOrder(StepWriter(s, a))
  {
    if s.sendChan != [] {
      assert s.taken + s.sendChan == (s.taken + [s.sendChan[0]]) + s.sendChan[1..];
    }
  }

  lemma OrderKeeps(s: State, a: Action)
    requires RegInv(s.cfg.maps) && InvOrder(s)
    ensures InvOrder(Step(s, a))
  {
    hide Judge, ServiceReply, StepWriter, InvOrder, Enqueue, RegInv;
    if a.Takes? || a.Writes? || a.Quits? {
      WriterOrder(s, a);
    } else if a.ReaderStep? && s.reader.Pushing? && |s.sendChan| < SEND_BUFFER {
      var u := s.(reader := Checking);
      SameOrder(s, u);
      EnqueueOrder(u, s.reader.resp, s.reader.n);
    } else if a.ServiceStep? && a.k < |s.services| && s.services[a.k].pc.Posting? && |s.sendChan| < SEND_BUFFER {
      var u := Goto(s, a.k, Releasing);
      SameOrder(s, u);
      EnqueueOrder(u, s.services[a.k].pc.resp, s.services[a.k].from);
    } else {
      SameOrder(s, Step(s, a));
    }
  }

  // ----- Accounting

  lemma ReceiveKeeps(s: State, m: Message)
    requires Accounted(s) && s.reader == Reading
    ensures Accounted(Receive(s, m))
  {
    hide Judge, Belongs, Answerable, RegInv;
    var u := Receive(s, m);
    JudgeExact(s.cfg, m);
    forall k: nat | k < |u.services| ensures ServiceOk(u, k) { assert ServiceOk(s, k); }
    forall p: nat | p < |u.enqueued| ensures ReplyOk(u, p) { assert ReplyOk(s, p); }
    forall n: nat | n < |u.read| ensures FateOk(u, n) { if n < |s.read| { assert FateOk(s, n); } }
  }

  lemma ReaderKeeps(s: State)
    requires Accounted(s)
    ensures Accounted(StepReader(s))
  {
    hide Judge, Belongs, Answerable, RegInv;
    var u := StepReader(s);
    assert Holds(s.reader) ==> FateOk(s, s.reader.n);
    forall k: nat | k < |u.services| ensures ServiceOk(u, k) { if k < |s.services| { assert ServiceOk(s, k); } }
    forall p: nat | p < |u.enqueued| ensures ReplyOk(u, p) { if p < |s.enqueued| { assert ReplyOk(s, p); } }
    forall n: nat | n < |u.read| ensures FateOk(u, n) { assert FateOk(s, n); }
  }

  lemma SameReader(s: State, u: State)
    requires RegInv(s.cfg.maps) && |s.read| == |s.fates| && ReaderOk(s)
    requires u.cfg == s.cfg && u.reader == s.reader && u.read == s.read && |u.fates| == |s.fates|
    requires forall n: nat :: n < |s.fates| && s.fates[n] == Held ==> u.fates[n] == Held
    ensures ReaderOk(u)
  {
    hide Judge, Belongs, RegInv;
  }

  /** A service moves on with its message still to settle, or settled before. */
  lemma MoveKeeps(s: State, k: nat, pc: Progress)
    requires Accounted(s) && k < |s.services| && s.services[k].from < |s.read|
    requires Owes(s.services[k]) == Owes(s.services[k].(pc := pc))
    requires pc.Replying? || pc.Posting? ==> Belongs(s.cfg, s.read[s.services[k].from], pc.resp)
    ensures Accounted(Goto(s, k, pc))
  {
    hide Judge, Belongs, Answerable, RegInv, ReaderOk;
    var u := Goto(s, k, pc);
    assert ReaderOk(u) by { SameReader(s, u); }
    forall j: nat | j < |u.services| ensures ServiceOk(u, j) { assert ServiceOk(s, j); }
    forall p: nat | p < |u.enqueued| ensures ReplyOk(u, p) { assert ReplyOk(s, p); }
    forall n: nat | n < |u.read| ensures FateOk(u, n) { assert FateOk(s, n); }
  }

  /** A service gives its message up. */
  lemma SettleKeeps(s: State, k: nat, f: Fate)
    requires Accounted(s) && k < |s.services| && Owes(s.services[k]) && s.services[k].from < |s.read|
    requires match f
             case Offline => s.disconnected
             case Unanswerable => !Answerable(s.read[s.services[k].from])
             case Unmarshallable => true
             case _ => false
    ensures Accounted(Settle(Goto(s, k, Releasing), s.services[k].from, f))
  {
    hide Judge, Belongs, Answerable, RegInv, ReaderOk;
    var u := Settle(Goto(s, k, Releasing), s.services[k].from, f);
    assert ServiceOk(s, k);
    assert ReaderOk(u) by { SameReader(s, u); }
    forall j: nat | j < |u.services| ensures ServiceOk(u, j) { assert ServiceOk(s, j); }
    forall p: nat | p < |u.enqueued| ensures ReplyOk(u, p) { assert ReplyOk(s, p); }
    forall n: nat | n < |u.read| ensures FateOk(u, n) { assert FateOk(s, n); }
  }

  /** A service puts its reply into the output buffer. */
  lemma PostKeeps(s: State, k: nat)
    requires Accounted(s) && k < |s.services| && s.services[k].pc.Posting?
    ensures Accounted(Enqueue(Goto(s, k, Releasing), s.services[k].pc.resp, s.services[k].from))
  {
    hide Judge, Belongs, Answerable, RegInv, ReaderOk;
    var u := Enqueue(Goto(s, k, Releasing), s.services[k].pc.resp, s.services[k].from);
    assert ServiceOk(s, k);
    assert ReaderOk(u) by { SameReader(s, u); }
    forall j: nat | j < |u.services| ensures ServiceOk(u, j) { assert ServiceOk(s, j); }
    forall p: nat | p < |u.enqueued| ensures ReplyOk(u, p) { if p < |s.enqueued| { assert ReplyOk(s, p); } }
    forall n: nat | n < |u.read| ensures FateOk(u, n) { assert FateOk(s, n); }
  }

  /** Steps that leave the messages, their fates, the reader and the services alone. */
  lemma AsideKeeps(s: State, u: State)
    requires Accounted(s) && u.cfg == s.cfg && u.reader == s.reader && u.services == s.services && u.read == s.read
    requires u.fates == s.fates && u.enqueued == s.enqueued && (s.disconnected ==> u.disconnected)
    ensures Accounted(u)
  {
    hide Judge, Belongs, Answerable, RegInv;
    forall k: nat | k < |u.services| ensures ServiceOk(u, k) { assert ServiceOk(s, k); }
    forall p: nat | p < |u.enqueued| ensures ReplyOk(u, p) { assert ReplyOk(s, p); }
    forall n: nat | n < |u.read| ensures FateOk(u, n) { assert FateOk(s, n); }
  }

  lemma ServiceKeeps(s: State, k: nat, out: HandlerOut)
    requires Accounted(s) && k < |s.services|
    ensures Accounted(StepService(s, k, out))
  {
    hide Judge, Belongs, Answerable, RegInv, ServiceReply, HandlerResult, Settle, Enqueue, Goto, ReaderOk, ReplyOk,
        FateOk;
    var v := s.services[k];
    assert ServiceOk(s, k);
    ServiceExact(s.cfg, s.read[v.from], out);
    JudgeExact(s.cfg, s.read[v.from]);
    match v.pc
    case Running =>
      var r := ServiceReply(s.cfg, v.id, v.name, out);
      if r.Some? {
        MoveKeeps(s, k, Replying(r.value));
      } else {
        SettleKeeps(s, k, if IsValidIDType(v.id) then Unmarshallable else Unanswerable);
      }
    case Replying(r) => if s.disconnected { SettleKeeps(s, k, Offline); } else { MoveKeeps(s, k, Posting(r)); }
    case Posting(r) => PostKeeps(s, k);
    case Releasing =>
      MoveKeeps(s, k, Finished);
      if s.sem > 0 { AsideKeeps(Goto(s, k, Finished), StepService(s, k, out)); }
    case Finished =>
  }

  lemma ReadFailsKeeps(s: State)
    requires Accounted(s) && s.reader == Reading
    ensures Accounted(s.(reader := Closing))
  {
    hide Judge, Belongs, Answerable, RegInv;
    var u := s.(reader := Closing);
    forall k: nat | k < |u.services| ensures ServiceOk(u, k) { assert ServiceOk(s, k); }
    forall p: nat | p < |u.enqueued| ensures ReplyOk(u, p) { assert ReplyOk(s, p); }
    forall n: nat | n < |u.read| ensures FateOk(u, n) { assert FateOk(s, n); }
  }

  lemma AccountedRegistry(s: State)
    requires Accounted(s)
    ensures RegInv(s.cfg.maps)
  {
  }

  lemma StepKeeps(s: State, a: Action)
    requires Inv(s)
    ensures Inv(Step(s, a))
  {
    hide InvTokens, InvOrder, Accounted, StepReader, StepService, Receive;
    AccountedRegistry(s);
    TokensKeep(s, a);
    OrderKeeps(s, a);
    match a
    case ReadFails => if s.reader == Reading { ReadFailsKeeps(s); }
    case Reads(m) => if s.reader == Reading { ReceiveKeeps(s, m); }
    case ReaderStep => ReaderKeeps(s);
    case ServiceStep(k, out) => if k < |s.services| { ServiceKeeps(s, k, out); }
    case _ => AsideKeeps(s, Step(s, a));
  }

  lemma {:induction false} RunKeeps(c: Config, actions: seq<Action>)
    requires RegInv(c.maps)
    ensures Inv(Run(c, actions))
  {
    hide Step;
    if actions != [] {
      RunKeeps(c, actions[..|actions|-1]);
      StepKeeps(Run(c, actions[..|actions|-1]), actions[|actions|-1]);
    }
  }
}

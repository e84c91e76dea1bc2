/**
 * The websocket RPC client as a transition system.
 *
 * Every goroutine is a thread with a program counter.  A step is one access to
 * shared state: a critical section that neither blocks nor communicates inside
 * (`addRequest`, `removeRequest`, `doDisconnect`, ...) is one step, enabled while
 * its mutex is free; a critical section that sends on channels, takes a second
 * mutex or dials (`Disconnect`, `Shutdown`, `Connect`) is many steps, between
 * which the mutex stays held.  The remote peer, the dialer and the socket are
 * nondeterministic choices.
 *
 * `where`, `reader` and `handler` are history variables: they record what happened
 * and no step depends on them.
 */
module ClientProtocol {
  import opened Basics
  import opened RequestTable

  /** The capacity of `sendChan`. */
  const SEND_BUFFER: nat := 50

  /** `autoReconnect` is the negation of DisableAutoReconnect, `connectOnNew` of DisableConnectOnNew. */
  datatype Config = Config(autoReconnect: bool, connectOnNew: bool)

  /** What is sent on a request's response channel. */
  datatype Outcome = Reply(id: nat) | ErrMarshal | ErrNotConnected | ErrShutdown | ErrDisconnect

  datatype Delivery = Delivery(r: nat, outcome: Outcome)

  /** Who is answerable for a request. */
  datatype Where = WithSender(t: nat) | Pending | InHand(t: nat) | Answered(k: nat) | Dropped

  /** The goroutine that called Disconnect. */
  datatype Caller = ByReader | ByWriter | ByUser

  datatype Pc =
    // sendRequest, addRequest, sendMessage
    | SendCheck(r: nat) | SendReject(r: nat, why: Outcome) | SendAdd(r: nat) | SendCapture | SendWait(gen: nat)
    // wsInHandler, handleMessage, removeRequest
    | ReadCheck | ReadLoad | ReadWait(sock: nat) | ReadLookup(id: nat) | ReadDeliver(r: nat, id: nat) | ReadDone
    // wsOutHandler
    | WriteCapture | WriteWait(gen: nat) | WriteLoad | WriteMsg(sock: nat) | WriteDone
    // Disconnect, doDisconnect
    | DiscMtx(who: Caller) | DiscLock(who: Caller) | DiscLoop(who: Caller, i: nat) | DiscClear(who: Caller)
    | DiscShutCheck(who: Caller) | DiscShutClose(who: Caller) | DiscUnlock(who: Caller)
    // Shutdown, doShutdown
    | ShutLock | ShutCheck | ShutClose | ShutLoop(i: nat) | ShutClear | ShutMtx | ShutUnlock
    // wsReconnectHandler
    | HandWait | HandCheck | HandDial | HandReset | HandStart | HandResend | HandDone
    // resendRequests
    | ResendSnap | ResendCheck(reqs: seq<nat>) | ResendCapture(reqs: seq<nat>) | ResendWait(reqs: seq<nat>, gen: nat)
    // New after a successful dial
    | NewEst | NewStart | NewHandler
    // Connect
    | ConnLock(tries: int) | ConnDial(tries: int, i: nat) | ConnEst | ConnStart | ConnHandler | ConnUnlock
    | Finished

  /** What is known about the requests made so far. */
  datatype Requests = Requests(
    methods: seq<string>,        // the method of every request an id was taken for
    table: Table,                // requestMap and requestList
    full: set<nat>,              // requests whose response channel holds an unread response
    log: seq<Delivery>,          // every send on a response channel so far
    where: seq<Where>)           // history: who is answerable for each request

  /** The connection and the goroutines serving it. */
  datatype Conn = Conn(
    established: nat,            // how often connEstablished was closed
    shutdown: nat,               // how often shutdown was closed
    closes: seq<nat>,            // how often each generation of disconnect was closed; the last is current
    disconnected: bool,
    sockets: nat,                // how many sockets were dialed; wsConn is the last, or nil without one
    closedSockets: set<nat>,     // those doDisconnect closed
    wg: int,                     // the WaitGroup counter
    reader: nat,                 // history: the last wsInHandler started
    handler: Option<nat>)        // history: the wsReconnectHandler, once started

  datatype State = State(
    cfg: Config,
    q: Requests,
    conn: Conn,
    requestLock: Option<nat>,    // the thread holding requestLock across steps
    mtx: Option<nat>,            // the thread holding mtx across steps
    threads: seq<Pc>,
    queued: nat)                 // how many messages wait in sendChan

  /** How a thread's nondeterminism resolves: the first branch, the second, an error, or a message read. */
  datatype Choice = Tau | Alt | Fail | Read(m: Incoming)

  /** A message from the peer: a notification or malformed, or a reply with some id. */
  datatype Incoming = NotAReply | ReplyTo(id: nat)

  datatype Action =
    | Call(name: string, marshals: bool)  // a caller enters sendCmd
    | Receive(r: nat)                       // a caller takes the response of r
    | CallDisconnect | CallShutdown | CallConnect(tries: int)
    | Run(t: nat, c: Choice)

  function Init(cfg: Config): State {
    var sockets := if cfg.connectOnNew then 1 else 0;
    State(cfg, Requests([], EMPTY, {}, [], []), Conn(0, 0, [0], false, sockets, {}, 0, 0, None),
          None, None, if cfg.connectOnNew then [NewEst] else [], 0)
  }

  /** New has returned the client to its caller. */
  predicate Returned(s: State) {
    s.cfg.connectOnNew ==> |s.threads| > 0 && s.threads[0] == Finished
  }

  function Goto(s: State, t: nat, pc: Pc): State
    requires t < |s.threads|
  {
    s.(threads := s.threads[t := pc])
  }

  /** `sendChan <-`, when there is room. */
  function Push(s: State): State {
    s.(queued := s.queued + 1)
  }

  function Spawn(s: State, pc: Pc): State {
    s.(threads := s.threads + [pc])
  }

  /** The history with request `r` passed on to `w`. */
  function Pass(where: seq<Where>, r: nat, w: Where): seq<Where> {
    if r < |where| then where[r := w] else where
  }

  /** `responseChan <-`: blocks while the channel's one slot is taken. */
  function Send(q: Requests, r: nat, o: Outcome): Option<Requests> {
    if r in q.full || r >= |q.methods| then None
    else Some(q.(full := q.full + {r}, log := q.log + [Delivery(r, o)], where := Pass(q.where, r, Answered(|q.log|))))
  }

  function SendThen(s: State, t: nat, r: nat, o: Outcome, next: Pc): Option<State>
    requires t < |s.threads|
  {
    match Send(s.q, r, o)
    case None => None
    case Some(q) => Some(Goto(s, t, next).(q := q))
  }

  /** Where a thread goes on after Disconnect. */
  function After(who: Caller): Pc {
    match who case ByReader => ReadDone case ByWriter => WriteDone case ByUser => Finished
  }

  /** The index of the current disconnect channel. */
  function Current(k: Conn): nat
    requires k.closes != []
  {
    |k.closes| - 1
  }

  /** `wsConn`. */
  function Socket(k: Conn): nat
    requires k.sockets > 0
  {
    k.sockets - 1
  }

  /** A dial that succeeded, and its assignment to `wsConn`. */
  function Dial(k: Conn): Conn {
    k.(sockets := k.sockets + 1)
  }

  /** `doDisconnect` once `mtx` is held: nothing to do, or close the current channel, and the socket if there is one. */
  function DoDisconnect(k: Conn): Conn
    requires k.closes != []
  {
    if k.disconnected then k
    else
      var closed := if k.sockets > 0 then k.closedSockets + {Socket(k)} else k.closedSockets;
      k.(closes := k.closes[Current(k) := k.closes[Current(k)] + 1], disconnected := true, closedSockets := closed)
  }

  predicate Closed(k: Conn, gen: nat) {
    gen < |k.closes| && k.closes[gen] > 0
  }

  /** A new `disconnect` channel, and the flag cleared. */
  function Reset(k: Conn): Conn {
    k.(closes := k.closes + [0], disconnected := false)
  }

  /** `start`: two goroutines, counted. */
  function Start(s: State): State {
    s.(conn := s.conn.(wg := s.conn.wg + 2, reader := |s.threads|), threads := s.threads + [ReadCheck, WriteCapture])
  }

  function StartHandler(s: State): State {
    if s.cfg.autoReconnect
    then s.(conn := s.conn.(wg := s.conn.wg + 1, handler := Some(|s.threads|)), threads := s.threads + [HandWait])
    else s
  }

  /** `wg.Done` at the end of a goroutine. */
  function Done(s: State, t: nat): State
    requires t < |s.threads|
  {
    Goto(s, t, Finished).(conn := s.conn.(wg := s.conn.wg - 1))
  }

  /** `doShutdown` past its check. */
  function CloseShutdown(s: State, t: nat, next: Pc): State
    requires t < |s.threads|
  {
    Goto(s, t, next).(conn := s.conn.(shutdown := s.conn.shutdown + 1))
  }

  /** `addRequest` past its check, for request `r`. */
  function Register(q: Requests, r: nat): Requests {
    q.(table := Add(q.table, r), where := Pass(q.where, r, Pending))
  }

  /** `removeRequest` when it finds `r`; thread `t` now has it in hand. */
  function TakeOut(q: Requests, id: nat, r: nat, t: nat): Requests {
    q.(table := Remove(q.table, id).0, where := Pass(q.where, r, InHand(t)))
  }

  function RemoveAll(q: Requests): Requests {
    q.(table := EMPTY)
  }

  /** The locked loop of `resendRequests`: requests that are not reissued leave the table. */
  function DropIgnored(q: Requests): Requests {
    q.(table := Keep(q.table, q.methods),
       where := seq(|q.where|, r requires 0 <= r < |q.where| =>
         if r in q.table.list && Ignored(q.methods, r) then Dropped else q.where[r]))
  }

  function StepSend(s: State, t: nat, c: Choice): Option<State>
    requires t < |s.threads| && s.conn.closes != []
  {
    match s.threads[t]
    case SendCheck(r) =>
      Some(Goto(s, t, if s.conn.established > 0 then SendAdd(r) else SendReject(r, ErrNotConnected)))
    case SendReject(r, why) => SendThen(s, t, r, why, Finished)
    case SendAdd(r) =>
      if s.requestLock.Some? then None
      else if s.conn.shutdown > 0 then Some(Goto(s, t, SendReject(r, ErrShutdown)))
      else Some(Goto(s, t, SendCapture).(q := Register(s.q, r)))
    case SendCapture => if s.mtx.Some? then None else Some(Goto(s, t, SendWait(Current(s.conn))))
    case SendWait(gen) =>
      if c == Tau && s.queued < SEND_BUFFER then Some(Push(Goto(s, t, Finished)))
      else if c == Alt && Closed(s.conn, gen) then Some(Goto(s, t, Finished))
      else None
    case _ => None
  }

  function StepRead(s: State, t: nat, c: Choice): Option<State>
    requires t < |s.threads| && s.conn.closes != []
  {
    match s.threads[t]
    case ReadCheck => Some(Goto(s, t, if s.conn.shutdown > 0 then DiscMtx(ByReader) else ReadLoad))
    case ReadLoad => if s.conn.sockets == 0 then None else Some(Goto(s, t, ReadWait(Socket(s.conn))))
    case ReadWait(_) =>
      (match c
       case Fail => Some(Goto(s, t, DiscMtx(ByReader)))
       case Read(NotAReply) => Some(Goto(s, t, ReadCheck))
       case Read(ReplyTo(id)) => Some(Goto(s, t, ReadLookup(id)))
       case _ => None)
    case ReadLookup(id) =>
      if s.requestLock.Some? then None else
      (match Remove(s.q.table, id).1
       case None => Some(Goto(s, t, ReadCheck))
       case Some(r) => Some(Goto(s, t, ReadDeliver(r, id)).(q := TakeOut(s.q, id, r, t))))
    case ReadDeliver(r, id) => SendThen(s, t, r, Reply(id), ReadCheck)
    case ReadDone => Some(Done(s, t))
    case _ => None
  }

  function StepWrite(s: State, t: nat, c: Choice): Option<State>
    requires t < |s.threads| && s.conn.closes != []
  {
    match s.threads[t]
    case WriteCapture => if s.mtx.Some? then None else Some(Goto(s, t, WriteWait(Current(s.conn))))
    case WriteWait(gen) =>
      (match c
       case Tau => if s.queued == 0 then None else Some(Goto(s, t, WriteLoad).(queued := s.queued - 1))
       case Alt => if Closed(s.conn, gen) then Some(Goto(s, t, WriteDone)) else None
       case _ => None)
    case WriteLoad => if s.conn.sockets == 0 then None else Some(Goto(s, t, WriteMsg(Socket(s.conn))))
    case WriteMsg(_) =>
      (match c
       case Tau => Some(Goto(s, t, WriteCapture))
       case Fail => Some(Goto(s, t, DiscMtx(ByWriter)))
       case _ => None)
    case WriteDone => if s.queued > 0 then Some(s.(queued := s.queued - 1)) else Some(Done(s, t))
    case _ => None
  }

  function StepDisc(s: State, t: nat): Option<State>
    requires t < |s.threads| && s.conn.closes != []
  {
    match s.threads[t]
    case DiscMtx(who) =>
      if s.mtx.Some? then None
      else if s.conn.disconnected then Some(Goto(s, t, After(who)))
      else Some(Goto(s, t, DiscLock(who)).(conn := DoDisconnect(s.conn)))
    case DiscLock(who) =>
      if s.requestLock.Some? then None
      else if s.cfg.autoReconnect then Some(Goto(s, t, After(who)))
      else Some(Goto(s, t, DiscLoop(who, 0)).(requestLock := Some(t)))
    case DiscLoop(who, i) =>
      if i < |s.q.table.list| then SendThen(s, t, s.q.table.list[i], ErrDisconnect, DiscLoop(who, i + 1))
      else Some(Goto(s, t, DiscClear(who)))
    case DiscClear(who) => Some(Goto(s, t, DiscShutCheck(who)).(q := RemoveAll(s.q)))
    case DiscShutCheck(who) => Some(Goto(s, t, if s.conn.shutdown > 0 then DiscUnlock(who) else DiscShutClose(who)))
    case DiscShutClose(who) => Some(CloseShutdown(s, t, DiscUnlock(who)))
    case DiscUnlock(who) => Some(Goto(s, t, After(who)).(requestLock := None))
    case _ => None
  }

  function StepShut(s: State, t: nat): Option<State>
    requires t < |s.threads| && s.conn.closes != []
  {
    match s.threads[t]
    case ShutLock => if s.requestLock.Some? then None else Some(Goto(s, t, ShutCheck).(requestLock := Some(t)))
    case ShutCheck => Some(Goto(s, t, if s.conn.shutdown > 0 then ShutUnlock else ShutClose))
    case ShutClose => Some(CloseShutdown(s, t, ShutLoop(0)))
    case ShutLoop(i) =>
      if i < |s.q.table.list| then SendThen(s, t, s.q.table.list[i], ErrShutdown, ShutLoop(i + 1))
      else Some(Goto(s, t, ShutClear))
    case ShutClear => Some(Goto(s, t, ShutMtx).(q := RemoveAll(s.q)))
    case ShutMtx => if s.mtx.Some? then None else Some(Goto(s, t, ShutUnlock).(conn := DoDisconnect(s.conn)))
    case ShutUnlock => Some(Goto(s, t, Finished).(requestLock := None))
    case _ => None
  }

  function StepHand(s: State, t: nat, c: Choice): Option<State>
    requires t < |s.threads| && s.conn.closes != []
  {
    match s.threads[t]
    case HandWait =>
      if c == Tau && Closed(s.conn, Current(s.conn)) then Some(Goto(s, t, HandCheck))
      else if c == Alt && s.conn.shutdown > 0 then Some(Goto(s, t, HandDone))
      else None
    case HandCheck => Some(Goto(s, t, if s.conn.shutdown > 0 then HandDone else HandDial))
    case HandDial =>
      if c == Tau then Some(Goto(s, t, HandReset).(conn := Dial(s.conn)))
      else if c == Fail then Some(Goto(s, t, HandCheck))
      else None
    case HandReset => if s.mtx.Some? then None else Some(Goto(s, t, HandStart).(conn := Reset(s.conn)))
    case HandStart => Some(Start(Goto(s, t, HandResend)))
    case HandResend => Some(Spawn(Goto(s, t, HandWait), ResendSnap))
    case HandDone => Some(Done(s, t))
    case _ => None
  }

  function StepResend(s: State, t: nat, c: Choice): Option<State>
    requires t < |s.threads| && s.conn.closes != []
  {
    match s.threads[t]
    case ResendSnap =>
      if s.requestLock.Some? then None
      else Some(Goto(s, t, ResendCheck(Kept(s.q.table.list, s.q.methods))).(q := DropIgnored(s.q)))
    case ResendCheck(reqs) =>
      if reqs == [] then Some(Goto(s, t, Finished))
      else if s.mtx.Some? then None
      else Some(Goto(s, t, if s.conn.established > 0 && s.conn.disconnected then Finished else ResendCapture(reqs)))
    case ResendCapture(reqs) => if s.mtx.Some? then None else Some(Goto(s, t, ResendWait(reqs, Current(s.conn))))
    case ResendWait(reqs, gen) =>
      if reqs == [] then None
      else if c == Tau && s.queued < SEND_BUFFER then Some(Push(Goto(s, t, ResendCheck(reqs[1..]))))
      else if c == Alt && Closed(s.conn, gen) then Some(Goto(s, t, ResendCheck(reqs[1..])))
      else None
    case _ => None
  }

  function Establish(s: State, t: nat, next: Pc): State
    requires t < |s.threads|
  {
    Goto(s, t, next).(conn := s.conn.(established := s.conn.established + 1))
  }

  function StepConnect(s: State, t: nat, c: Choice): Option<State>
    requires t < |s.threads| && s.conn.closes != []
  {
    match s.threads[t]
    case NewEst => Some(Establish(s, t, NewStart))
    case NewStart => Some(Start(Goto(s, t, NewHandler)))
    case NewHandler => Some(StartHandler(Goto(s, t, Finished)))
    case ConnLock(tries) =>
      if s.mtx.Some? then None
      else Some(Goto(s, t, if s.conn.sockets > 0 then ConnUnlock else ConnDial(tries, 0)).(mtx := Some(t)))
    case ConnDial(tries, i) =>
      if !(tries == 0 || i < tries) then Some(Goto(s, t, ConnUnlock))
      else if c == Tau then Some(Goto(s, t, ConnEst).(conn := Dial(s.conn)))
      else if c == Fail then Some(Goto(s, t, ConnDial(tries, i + 1)))
      else None
    case ConnEst => Some(Establish(s, t, ConnStart))
    case ConnStart => Some(Start(Goto(s, t, ConnHandler)))
    case ConnHandler => Some(StartHandler(Goto(s, t, ConnUnlock)))
    case ConnUnlock => Some(Goto(s, t, Finished).(mtx := None))
    case _ => None
  }

  datatype Kind = KSend | KRead | KWrite | KDisc | KShut | KHand | KResend | KConnect | KNone

  function KindOf(pc: Pc): Kind {
    match pc
    case SendCheck(_) => KSend case SendReject(_, _) => KSend case SendAdd(_) => KSend case SendCapture => KSend
    case SendWait(_) => KSend
    case ReadCheck => KRead case ReadLoad => KRead case ReadWait(_) => KRead case ReadLookup(_) => KRead
    case ReadDeliver(_, _) => KRead case ReadDone => KRead
    case WriteCapture => KWrite case WriteWait(_) => KWrite case WriteLoad => KWrite case WriteMsg(_) => KWrite
    case WriteDone => KWrite
    case DiscMtx(_) => KDisc case DiscLock(_) => KDisc case DiscLoop(_, _) => KDisc case DiscClear(_) => KDisc
    case DiscShutCheck(_) => KDisc case DiscShutClose(_) => KDisc case DiscUnlock(_) => KDisc
    case ShutLock => KShut case ShutCheck => KShut case ShutClose => KShut case ShutLoop(_) => KShut
    case ShutClear => KShut
    case ShutMtx => KShut case ShutUnlock => KShut
    case HandWait => KHand case HandCheck => KHand case HandDial => KHand case HandReset => KHand
    case HandStart => KHand
    case HandResend => KHand case HandDone => KHand
    case ResendSnap => KResend case ResendCheck(_) => KResend case ResendCapture(_) => KResend
    case ResendWait(_, _) => KResend
    case NewEst => KConnect case NewStart => KConnect case NewHandler => KConnect
    case ConnLock(_) => KConnect case ConnDial(_, _) => KConnect case ConnEst => KConnect case ConnStart => KConnect
    case ConnHandler => KConnect case ConnUnlock => KConnect
    case Finished => KNone
  }

  function StepThread(s: State, t: nat, c: Choice): Option<State>
    requires t < |s.threads| && s.conn.closes != []
  {
    match KindOf(s.threads[t])
    case KSend => StepSend(s, t, c)
    case KRead => StepRead(s, t, c)
    case KWrite => StepWrite(s, t, c)
    case KDisc => StepDisc(s, t)
    case KShut => StepShut(s, t)
    case KHand => StepHand(s, t, c)
    case KResend => StepResend(s, t, c)
    case KConnect => StepConnect(s, t, c)
    case KNone => None
  }

  /** A caller takes an id and enters sendRequest, or fails to marshal. */
  function NewRequest(q: Requests, name: string, t: nat): Requests {
    q.(methods := q.methods + [name], where := q.where + [WithSender(t)])
  }

  /** One step of the system, or None when `a` is not enabled. */
  function Step(s: State, a: Action): Option<State> {
    match a
    case Call(name, marshals) =>
      if !Returned(s) then None else
      var r := |s.q.methods|;
      var pc := if marshals then SendCheck(r) else SendReject(r, ErrMarshal);
      Some(Spawn(s, pc).(q := NewRequest(s.q, name, |s.threads|)))
    case Receive(r) => if r in s.q.full then Some(s.(q := s.q.(full := s.q.full - {r}))) else None
    case CallDisconnect => if Returned(s) then Some(Spawn(s, DiscMtx(ByUser))) else None
    case CallShutdown => if Returned(s) then Some(Spawn(s, ShutLock)) else None
    case CallConnect(tries) => if Returned(s) then Some(Spawn(s, ConnLock(tries))) else None
    case Run(t, c) => if t < |s.threads| && s.conn.closes != [] then StepThread(s, t, c) else None
  }

  /** The state after a run, or None when some action was not enabled. */
  function Exec(s: State, run: seq<Action>): Option<State>
    decreases |run|
  {
    if run == [] then Some(s) else
    match Exec(s, run[..|run|-1])
    case None => None
    case Some(u) => Step(u, run[|run|-1])
  }

  /** `s` can be reached, under some schedule, by a client configured as it says. */
  ghost predicate Reachable(s: State) {
    exists run :: Exec(Init(s.cfg), run) == Some(s)
  }

  /** Answering the requests of `list`, in order, with `o`. */
  function Failures(list: seq<nat>, o: Outcome): seq<Delivery> {
    seq(|list|, i requires 0 <= i < |list| => Delivery(list[i], o))
  }
}

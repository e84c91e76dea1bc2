/** What every step of the client keeps. */
module ClientInvariant {
  import opened Basics
  import opened RequestTable
  import opened ClientProtocol

  // ----- Classifying program counters

  predicate HoldsRequestLock(pc: Pc) {
    match pc
    case DiscLoop(_, _) => true case DiscClear(_) => true case DiscShutCheck(_) => true case DiscShutClose(_) => true
    case DiscUnlock(_) => true case ShutCheck => true case ShutClose => true case ShutLoop(_) => true
    case ShutClear => true case ShutMtx => true case ShutUnlock => true
    case _ => false
  }

  predicate HoldsMtx(pc: Pc) {
    match pc
    case ConnDial(_, _) => true case ConnEst => true case ConnStart => true case ConnHandler => true
    case ConnUnlock => true
    case _ => false
  }

  predicate IsHandler(pc: Pc) {
    match pc
    case HandWait => true case HandCheck => true case HandDial => true case HandReset => true
    case HandStart => true case HandResend => true case HandDone => true
    case _ => false
  }

  /** The request this sendRequest has neither registered nor refused yet. */
  function SendOf(pc: Pc): Option<nat> {
    match pc
    case SendCheck(r) => Some(r) case SendReject(r, _) => Some(r) case SendAdd(r) => Some(r)
    case _ => None
  }

  /** The request this reader has removed from the table and not yet answered. */
  function DeliveryOf(pc: Pc): Option<nat> {
    match pc case ReadDeliver(r, _) => Some(r) case _ => None
  }

  /** How many requests of the list this thread has failed, if it is failing them all. */
  function Failed(pc: Pc, len: nat): nat {
    match pc
    case DiscLoop(_, i) => i
    case ShutLoop(i) => i
    case DiscClear(_) => len
    case ShutClear => len
    case _ => 0
  }

  /** A wsInHandler that has yet to run the critical section of its final doDisconnect. */
  predicate LiveReader(pc: Pc) {
    match pc
    case ReadCheck => true case ReadLoad => true case ReadWait(_) => true case ReadLookup(_) => true
    case ReadDeliver(_, _) => true
    case DiscMtx(who) => who == ByReader
    case _ => false
  }

  /** New or Connect is announcing the connection or starting its goroutines. */
  predicate Launching(pc: Pc) {
    match pc
    case NewEst => true case NewStart => true case NewHandler => true
    case ConnEst => true case ConnStart => true case ConnHandler => true
    case _ => false
  }

  function Counted(who: Caller): nat {
    if who == ByUser then 0 else 1
  }

  /** Whether the WaitGroup counts the goroutine. */
  function Counts(pc: Pc): nat {
    match pc
    case ReadCheck => 1 case ReadLoad => 1 case ReadWait(_) => 1 case ReadLookup(_) => 1 case ReadDeliver(_, _) => 1
    case ReadDone => 1
    case WriteCapture => 1 case WriteWait(_) => 1 case WriteLoad => 1 case WriteMsg(_) => 1 case WriteDone => 1
    case DiscMtx(who) => Counted(who) case DiscLock(who) => Counted(who) case DiscLoop(who, _) => Counted(who)
    case DiscClear(who) => Counted(who) case DiscShutCheck(who) => Counted(who)
    case DiscShutClose(who) => Counted(who) case DiscUnlock(who) => Counted(who)
    case HandWait => 1 case HandCheck => 1 case HandDial => 1 case HandReset => 1 case HandStart => 1
    case HandResend => 1 case HandDone => 1
    case _ => 0
  }

  function Total(threads: seq<Pc>): nat {
    if threads == [] then 0 else Total(threads[..|threads|-1]) + Counts(threads[|threads|-1])
  }

  // ----- What a single thread may rely on

  /** The shared facts threads rely on. */
  datatype Facts = Facts(
    empty: bool, shut: bool, generations: nat, disconnected: bool,
    onNew: bool, sockets: nat, established: bool, handler: Option<nat>,
    requestLock: Option<nat>, mtx: Option<nat>)

  function FactsOf(s: State): Facts {
    Facts(s.q.table == EMPTY, s.conn.shutdown > 0, |s.conn.closes|, s.conn.disconnected,
          s.cfg.connectOnNew, s.conn.sockets, s.conn.established > 0, s.conn.handler, s.requestLock, s.mtx)
  }

  predicate Local(f: Facts, t: nat, pc: Pc) {
    match pc
    case DiscShutCheck(_) => f.empty
    case DiscShutClose(_) => f.empty && !f.shut
    case DiscUnlock(_) => f.empty && f.shut
    case ShutClose => !f.shut
    case ShutLoop(_) => f.shut
    case ShutClear => f.shut
    case ShutMtx => f.empty && f.shut
    case ShutUnlock => f.empty && f.shut
    case HandDone => f.shut
    case HandCheck => f.disconnected
    case HandDial => f.disconnected
    case HandReset => f.disconnected
    case SendAdd(_) => f.established
    case SendCapture => f.established
    case SendWait(g) => f.established && g < f.generations
    case ReadWait(k) => k < f.sockets
    case WriteWait(g) => g < f.generations
    case WriteMsg(k) => k < f.sockets
    case ResendSnap => f.established
    case ResendCheck(_) => f.established
    case ResendCapture(reqs) => f.established && reqs != []
    case ResendWait(reqs, g) => f.established && g < f.generations && reqs != []
    case NewEst => t == 0 && f.onNew && f.sockets > 0 && !f.established
    case NewStart => t == 0 && f.onNew && f.sockets > 0 && f.established && f.handler == None
    case NewHandler => t == 0 && f.onNew && f.sockets > 0 && f.established && f.handler == None
    case ConnDial(_, _) => !f.onNew && f.sockets == 0
    case ConnEst => !f.onNew && f.sockets > 0 && !f.established
    case ConnStart => !f.onNew && f.sockets > 0 && f.established && f.handler == None
    case ConnHandler => !f.onNew && f.sockets > 0 && f.established && f.handler == None
    case ReadDeliver(r, id) => IdOf(r) == id
    case SendReject(_, why) => !why.Reply?
    case _ => true
  }

  predicate ThreadOk(f: Facts, t: nat, pc: Pc) {
    && (HoldsRequestLock(pc) <==> f.requestLock == Some(t))
    && (HoldsMtx(pc) <==> f.mtx == Some(t))
    && (IsHandler(pc) ==> f.handler == Some(t))
    && (Counts(pc) > 0 ==> f.sockets > 0)
    && Local(f, t, pc)
  }

  // ----- The invariant

  ghost predicate InvThreads(s: State) {
    && (s.requestLock.Some? ==> s.requestLock.value < |s.threads|)
    && (s.mtx.Some? ==> s.mtx.value < |s.threads|)
    && forall t: nat :: t < |s.threads| ==> ThreadOk(FactsOf(s), t, s.threads[t])
  }

  ghost predicate InvTable(q: Requests) {
    && |q.where| == |q.methods|
    && WF(q.table)
    && (forall r <- q.table.list :: r < |q.methods|)
    && (|q.methods| <= ID_SPACE ==> Exact(q.table))
  }

  /** How many requests of the list have been failed already. */
  function Cursor(s: State): nat {
    if s.requestLock.Some? && s.requestLock.value < |s.threads|
    then Failed(s.threads[s.requestLock.value], |s.q.table.list|) else 0
  }

  /** The list holds the pending requests, after those already failed under the lock. */
  ghost predicate InvPending(q: Requests, cursor: nat) {
    && cursor <= |q.table.list|
    && (forall j :: 0 <= j < |q.table.list| ==> q.table.list[j] < |q.where|)
    && (forall j :: 0 <= j < cursor ==> q.where[q.table.list[j]].Answered?)
    && (forall j :: cursor <= j < |q.table.list| ==> q.where[q.table.list[j]] == Pending)
    && (forall r: nat :: r < |q.where| && q.where[r] == Pending ==> r in q.table.list)
  }

  /** A request with a sender or in a reader's hand belongs to exactly that thread. */
  ghost predicate InvOwners(where: seq<Where>, threads: seq<Pc>) {
    && (forall t: nat :: t < |threads| && SendOf(threads[t]).Some? ==>
          SendOf(threads[t]).value < |where| && where[SendOf(threads[t]).value] == WithSender(t))
    && (forall t: nat :: t < |threads| && DeliveryOf(threads[t]).Some? ==>
          DeliveryOf(threads[t]).value < |where| && where[DeliveryOf(threads[t]).value] == InHand(t))
    && (forall r: nat :: r < |where| && where[r].WithSender? ==>
          where[r].t < |threads| && SendOf(threads[where[r].t]) == Some(r))
    && (forall r: nat :: r < |where| && where[r].InHand? ==>
          where[r].t < |threads| && DeliveryOf(threads[where[r].t]) == Some(r))
  }

  ghost predicate InvLog(q: Requests) {
    && |q.where| == |q.methods|
    && (forall k: nat :: k < |q.log| ==> q.log[k].r < |q.where| && q.where[q.log[k].r] == Answered(k))
    && (forall r: nat :: r < |q.where| && q.where[r].Answered? ==> q.where[r].k < |q.log| && q.log[q.where[r].k].r == r)
    && (forall k: nat :: k < |q.log| && q.log[k].outcome.Reply? ==> q.log[k].outcome.id == IdOf(q.log[k].r))
    && (forall r <- q.full :: r < |q.where| && q.where[r].Answered?)
    && (forall r: nat :: r < |q.where| && q.where[r] == Dropped ==> Ignored(q.methods, r))
  }

  ghost predicate FailingAll(s: State) {
    && s.requestLock.Some?
    && s.requestLock.value < |s.threads|
    && (s.threads[s.requestLock.value].ShutLoop? || s.threads[s.requestLock.value].ShutClear?)
  }

  /** Whoever closed `shutdown` with requests pending holds the lock and is failing them. */
  ghost predicate InvShutdown(s: State) {
    s.conn.shutdown <= 1 && (s.conn.shutdown > 0 ==> s.q.table == EMPTY || FailingAll(s))
  }

  /** Each channel generation is closed at most once, the current one exactly when the flag is set. */
  ghost predicate InvConn(k: Conn, onNew: bool) {
    && k.closes != []
    && (forall g :: 0 <= g < Current(k) ==> k.closes[g] == 1)
    && k.closes[Current(k)] == (if k.disconnected then 1 else 0)
    && k.established <= 1
    && (k.established > 0 || onNew ==> k.sockets > 0)
    && (k.handler.Some? ==> k.established > 0)
  }

  /** The handler that was started is running, or it saw the shutdown. */
  ghost predicate InvHandler(s: State) {
    s.conn.handler.Some? ==>
      && s.conn.handler.value < |s.threads|
      && (IsHandler(s.threads[s.conn.handler.value])
          || (s.threads[s.conn.handler.value] == Finished && s.conn.shutdown > 0))
  }

  ghost predicate HasReader(s: State) {
    s.conn.reader < |s.threads| && LiveReader(s.threads[s.conn.reader])
  }

  /** The reconnect handler is between resetting the connection state and `start`. */
  ghost predicate Restarting(s: State) {
    s.conn.handler.Some? && s.conn.handler.value < |s.threads| && s.threads[s.conn.handler.value] == HandStart
  }

  /** The thread New runs on, and the one Connect runs on, if any. */
  function First(threads: seq<Pc>): Pc {
    if threads == [] then Finished else threads[0]
  }

  function Holder(threads: seq<Pc>, lock: Option<nat>): Pc {
    if lock.Some? && lock.value < |threads| then threads[lock.value] else Finished
  }

  predicate BeforeStartAt(pc: Pc) {
    match pc case NewEst => true case NewStart => true case ConnEst => true case ConnStart => true case _ => false
  }

  /** New or Connect has announced the connection, or is about to, and has yet to start the reader and the writer. */
  predicate BeforeStart(s: State) {
    BeforeStartAt(First(s.threads)) || BeforeStartAt(Holder(s.threads, s.mtx))
  }

  predicate BeforeHandlerAt(pc: Pc) {
    match pc case NewHandler => true case ConnHandler => true case _ => false
  }

  /** New or Connect has yet to start the reconnect handler. */
  predicate BeforeHandler(s: State) {
    BeforeHandlerAt(First(s.threads)) || BeforeHandlerAt(Holder(s.threads, s.mtx))
  }

  /** The established connection has a reader that has yet to disconnect it, and the handler it should have. */
  ghost predicate InvLife(s: State) {
    && (s.cfg.connectOnNew ==> |s.threads| > 0)
    && (s.conn.established > 0 && !BeforeStart(s) ==>
          && (s.conn.disconnected || HasReader(s) || Restarting(s))
          && (BeforeHandler(s) || !s.cfg.autoReconnect || s.conn.handler.Some?))
  }

  ghost predicate InvWg(s: State) {
    s.conn.wg == Total(s.threads)
  }

  ghost predicate InvRequests(s: State) {
    InvTable(s.q) && InvPending(s.q, Cursor(s)) && InvOwners(s.q.where, s.threads) && InvLog(s.q)
  }

  ghost predicate InvLifecycle(s: State) {
    InvShutdown(s) && InvConn(s.conn, s.cfg.connectOnNew) && InvHandler(s) && InvLife(s) && InvWg(s)
  }

  ghost predicate Inv(s: State) {
    InvThreads(s) && InvRequests(s) && InvLifecycle(s)
  }

  // ----- Counting goroutines

  lemma {:induction false} TotalUpdate(threads: seq<Pc>, t: nat, pc: Pc)
    requires t < |threads|
    ensures Total(threads[t := pc]) == Total(threads) - Counts(threads[t]) + Counts(pc)
  {
    var n := |threads| - 1;
    if t == n {
      assert threads[t := pc][..n] == threads[..n];
    } else {
      TotalUpdate(threads[..n], t, pc);
      assert threads[t := pc][..n] == threads[..n][t := pc];
    }
  }

  lemma TotalAppend(threads: seq<Pc>, pc: Pc)
    ensures Total(threads + [pc]) == Total(threads) + Counts(pc)
  {
    assert (threads + [pc])[..|threads|] == threads;
  }

  lemma {:induction false} TotalZero(threads: seq<Pc>, t: nat)
    requires Total(threads) == 0 && t < |threads|
    ensures Counts(threads[t]) == 0
  {
    var n := |threads| - 1;
    if t < n { TotalZero(threads[..n], t); }
  }

  lemma InitRequests(cfg: Config)
    ensures InvThreads(Init(cfg)) && InvRequests(Init(cfg))
  {
  }

  lemma TotalLaunch()
    ensures Total([NewEst]) == 0
  {
    assert [NewEst][..0] == [];
  }

  lemma InitWg(cfg: Config)
    ensures InvWg(Init(cfg))
  {
    TotalLaunch();
  }

  lemma InitLifecycle(cfg: Config)
    ensures InvLifecycle(Init(cfg))
  {
    hide InvWg, Total, Counts;
    InitWg(cfg);
  }

  lemma InitInv(cfg: Config)
    ensures Inv(Init(cfg))
  {
    InitRequests(cfg);
    InitLifecycle(cfg);
  }

  // ----- Frames

  predicate Within(lock: Option<nat>, t: nat) {
    lock == None || lock == Some(t)
  }

  /** New, run by the first thread, or Connect, run by the holder of `mtx`. */
  predicate Launches(f: Facts, t: nat) {
    if f.onNew then t == 0 else f.mtx == Some(t)
  }

  /** A change of facts, made by thread `t`, that no other thread can object to. */
  predicate Harmless(f: Facts, g: Facts, t: nat) {
    && (f.empty && !g.empty ==> Within(f.requestLock, t))
    && (f.shut ==> g.shut) && (f.shut != g.shut ==> Within(f.requestLock, t))
    && f.generations <= g.generations
    && (f.disconnected && !g.disconnected ==> f.handler == Some(t))
    && f.onNew == g.onNew
    && f.sockets <= g.sockets && (f.sockets == 0 && g.sockets > 0 ==> Launches(f, t))
    && (f.established ==> g.established) && (f.established != g.established ==> Launches(f, t))
    && (f.handler != g.handler ==> f.handler == None && Launches(f, t))
    && (f.requestLock == g.requestLock || (Within(f.requestLock, t) && Within(g.requestLock, t)))
    && (f.mtx == g.mtx || (Within(f.mtx, t) && Within(g.mtx, t)))
  }

  lemma ThreadAt(s: State, t: nat)
    requires InvThreads(s) && t < |s.threads|
    ensures ThreadOk(FactsOf(s), t, s.threads[t])
    ensures (s.requestLock.Some? ==> s.requestLock.value < |s.threads|) && (s.mtx.Some? ==> s.mtx.value < |s.threads|)
  {
    hide ThreadOk;
  }

  lemma OthersUnaffected(f: Facts, g: Facts, t: nat, i: nat, pc: Pc)
    requires ThreadOk(f, i, pc) && Harmless(f, g, t) && i != t
    ensures ThreadOk(g, i, pc)
  {
  }

  lemma ThreadsStep(s: State, u: State, t: nat)
    requires InvThreads(s) && |s.threads| <= |u.threads| && t < |u.threads|
    requires Harmless(FactsOf(s), FactsOf(u), t) && ThreadOk(FactsOf(u), t, u.threads[t])
    requires forall i: nat :: i < |s.threads| && i != t ==> u.threads[i] == s.threads[i]
    requires forall i: nat :: |s.threads| <= i < |u.threads| ==> ThreadOk(FactsOf(u), i, u.threads[i])
    ensures InvThreads(u)
  {
    forall i: nat | i < |u.threads| ensures ThreadOk(FactsOf(u), i, u.threads[i]) {
      if i < |s.threads| && i != t {
        OthersUnaffected(FactsOf(s), FactsOf(u), t, i, s.threads[i]);
      }
    }
  }

  /** Thread `t` moves to `next` and does nothing else to the connection than to stop being counted. */
  ghost predicate Calm(s: State, u: State, t: nat, next: Pc)
    requires t < |s.threads|
  {
    var pc := s.threads[t];
    && u.threads == s.threads[t := next] && u.cfg == s.cfg
    && u.conn == s.conn.(wg := s.conn.wg - Counts(pc) + Counts(next))
    && ThreadOk(FactsOf(u), t, next) && Harmless(FactsOf(s), FactsOf(u), t)
    && !Launching(pc) && !Launching(next) && pc != HandStart && pc != Finished
    && (LiveReader(pc) ==> LiveReader(next) || s.conn.disconnected)
    && (IsHandler(pc) ==> IsHandler(next) || (next == Finished && s.conn.shutdown > 0))
  }

  lemma CalmHandler(s: State, u: State, t: nat, next: Pc)
    requires InvHandler(s) && t < |s.threads| && Calm(s, u, t, next)
    ensures InvHandler(u)
  {
  }

  lemma CalmThreads(s: State, u: State, t: nat, next: Pc)
    requires InvThreads(s) && t < |s.threads| && Calm(s, u, t, next)
    ensures InvThreads(u)
  {
    ThreadsStep(s, u, t);
  }

  /** A thread that is not launching does not change who is. */
  lemma SameLaunch(threads: seq<Pc>, t: nat, next: Pc, before: Option<nat>, after: Option<nat>)
    requires t < |threads| && !Launching(threads[t]) && !Launching(next)
    requires before == after || (Within(before, t) && Within(after, t))
    ensures BeforeStartAt(First(threads[t := next])) == BeforeStartAt(First(threads))
    ensures BeforeHandlerAt(First(threads[t := next])) == BeforeHandlerAt(First(threads))
    ensures BeforeStartAt(Holder(threads[t := next], after)) == BeforeStartAt(Holder(threads, before))
    ensures BeforeHandlerAt(Holder(threads[t := next], after)) == BeforeHandlerAt(Holder(threads, before))
  {
  }

  lemma CalmLife(s: State, u: State, t: nat, next: Pc)
    requires InvLife(s) && t < |s.threads| && Calm(s, u, t, next)
    ensures InvLife(u)
  {
    hide ThreadOk, Counts, IsHandler, BeforeStartAt, BeforeHandlerAt, First, Holder, Launching;
    SameLaunch(s.threads, t, next, s.mtx, u.mtx);
  }

  lemma CalmKeeps(s: State, u: State, t: nat, next: Pc)
    requires InvThreads(s) && InvLifecycle(s) && t < |s.threads| && Calm(s, u, t, next) && InvShutdown(u)
    ensures InvThreads(u) && InvLifecycle(u)
  {
    hide InvThreads, InvShutdown, InvLife, InvHandler, HoldsRequestLock, HoldsMtx, IsHandler, LiveReader, Launching,
        Counts, ThreadOk, Harmless;
    CalmThreads(s, u, t, next);
    CalmLife(s, u, t, next);
    CalmHandler(s, u, t, next);
    TotalUpdate(s.threads, t, next);
  }

  /** Thread `t` moves to `next` without touching any request. */
  ghost predicate Quiet(s: State, u: State, t: nat, next: Pc)
    requires t < |s.threads|
  {
    && u.q == s.q && u.threads == s.threads[t := next]
    && SendOf(next) == SendOf(s.threads[t]) && DeliveryOf(next) == DeliveryOf(s.threads[t])
    && Cursor(u) == Cursor(s)
    && u.conn.shutdown == s.conn.shutdown && (FailingAll(s) ==> FailingAll(u) || s.q.table == EMPTY)
  }

  lemma OwnersMove(where: seq<Where>, threads: seq<Pc>, t: nat, next: Pc)
    requires InvOwners(where, threads) && t < |threads|
    requires SendOf(next) == SendOf(threads[t]) && DeliveryOf(next) == DeliveryOf(threads[t])
    ensures InvOwners(where, threads[t := next])
  {
  }

  lemma QuietKeeps(s: State, u: State, t: nat, next: Pc)
    requires InvRequests(s) && InvShutdown(s) && t < |s.threads| && Quiet(s, u, t, next)
    ensures InvRequests(u) && InvShutdown(u)
  {
    OwnersMove(s.q.where, s.threads, t, next);
  }

  /** A move between program counters that are alike in everything the invariant looks at. */
  predicate Still(f: Facts, t: nat, pc: Pc, next: Pc, len: nat) {
    && HoldsRequestLock(next) == HoldsRequestLock(pc) && HoldsMtx(next) == HoldsMtx(pc)
    && SendOf(next) == SendOf(pc) && DeliveryOf(next) == DeliveryOf(pc) && Failed(next, len) == Failed(pc, len)
    && Counts(next) == Counts(pc) && IsHandler(next) == IsHandler(pc)
    && !Launching(pc) && !Launching(next) && pc != HandStart && pc != Finished
    && (LiveReader(pc) ==> LiveReader(next) || f.disconnected)
    && (pc.ShutLoop? || pc.ShutClear? ==> next.ShutLoop? || next.ShutClear?)
    && Local(f, t, next)
  }

  lemma MoveQuiet(s: State, t: nat, next: Pc)
    requires t < |s.threads| && Still(FactsOf(s), t, s.threads[t], next, |s.q.table.list|)
    ensures Quiet(s, Goto(s, t, next), t, next)
  {
    hide HoldsRequestLock, HoldsMtx, IsHandler, LiveReader, Launching, Counts, Local;
  }

  lemma MoveCalm(s: State, t: nat, next: Pc)
    requires t < |s.threads| && Still(FactsOf(s), t, s.threads[t], next, |s.q.table.list|)
    requires ThreadOk(FactsOf(s), t, s.threads[t])
    ensures Calm(s, Goto(s, t, next), t, next)
  {
    hide HoldsRequestLock, HoldsMtx, IsHandler, LiveReader, Launching, Counts, Local;
    assert FactsOf(Goto(s, t, next)) == FactsOf(s);
  }

  lemma MoveKeeps(s: State, t: nat, next: Pc)
    requires Inv(s) && t < |s.threads| && Still(FactsOf(s), t, s.threads[t], next, |s.q.table.list|)
    ensures Inv(Goto(s, t, next))
  {
    hide InvTable, InvPending, InvOwners, InvLog, InvShutdown, InvConn, InvHandler, InvLife, InvWg;
    var u := Goto(s, t, next);
    assert ThreadOk(FactsOf(s), t, s.threads[t]);
    MoveQuiet(s, t, next);
    MoveCalm(s, t, next);
    QuietKeeps(s, u, t, next);
    CalmKeeps(s, u, t, next);
  }

  /** How much waits in `sendChan` is of no concern here. */
  lemma QueueAside(s: State, n: nat)
    requires Inv(s)
    ensures Inv(s.(queued := n))
  {
  }

  lemma MoveQueues(s: State, t: nat, next: Pc, n: nat)
    requires Inv(s) && t < |s.threads| && Still(FactsOf(s), t, s.threads[t], next, |s.q.table.list|)
    ensures Inv(Goto(s, t, next).(queued := n))
  {
    hide Inv, Still;
    MoveKeeps(s, t, next);
    QueueAside(Goto(s, t, next), n);
  }

  /** The move takes or gives back a lock and is otherwise a small one. */
  predicate Relocks(f: Facts, g: Facts, t: nat, pc: Pc, next: Pc, len: nat) {
    && Harmless(f, g, t) && ThreadOk(g, t, next)
    && SendOf(next) == SendOf(pc) == None && DeliveryOf(next) == DeliveryOf(pc) == None
    && Failed(next, len) == Failed(pc, len) == 0 && !pc.ShutLoop?
    && Counts(next) == Counts(pc) && !IsHandler(pc)
    && !Launching(pc) && !Launching(next) && pc != Finished && !LiveReader(pc)
    && (f.requestLock == g.requestLock || f.requestLock == None || g.requestLock == None)
    && (f.requestLock == Some(t) ==> f.empty)
  }

  lemma LockQuiet(s: State, t: nat, next: Pc, requestLock: Option<nat>, mtx: Option<nat>)
    requires t < |s.threads|
    requires Relocks(FactsOf(s), FactsOf(s).(requestLock := requestLock, mtx := mtx), t, s.threads[t], next,
        |s.q.table.list|)
    ensures Quiet(s, Goto(s, t, next).(requestLock := requestLock, mtx := mtx), t, next)
  {
  }

  lemma LockCalm(s: State, t: nat, next: Pc, requestLock: Option<nat>, mtx: Option<nat>)
    requires t < |s.threads|
    requires Relocks(FactsOf(s), FactsOf(s).(requestLock := requestLock, mtx := mtx), t, s.threads[t], next,
        |s.q.table.list|)
    ensures Calm(s, Goto(s, t, next).(requestLock := requestLock, mtx := mtx), t, next)
  {
    var u := Goto(s, t, next).(requestLock := requestLock, mtx := mtx);
    assert FactsOf(u) == FactsOf(s).(requestLock := requestLock, mtx := mtx);
    hide HoldsRequestLock, HoldsMtx, Local, Harmless, IsHandler, LiveReader, Launching, Counts;
  }

  lemma LockKeeps(s: State, t: nat, next: Pc, requestLock: Option<nat>, mtx: Option<nat>)
    requires Inv(s) && t < |s.threads|
    requires Relocks(FactsOf(s), FactsOf(s).(requestLock := requestLock, mtx := mtx), t, s.threads[t], next,
        |s.q.table.list|)
    ensures Inv(Goto(s, t, next).(requestLock := requestLock, mtx := mtx))
  {
    hide InvTable, InvPending, InvOwners, InvLog, InvShutdown, InvConn, InvHandler, InvLife, InvWg;
    var u := Goto(s, t, next).(requestLock := requestLock, mtx := mtx);
    LockQuiet(s, t, next, requestLock, mtx);
    LockCalm(s, t, next, requestLock, mtx);
    QuietKeeps(s, u, t, next);
    CalmKeeps(s, u, t, next);
  }

  // ----- Moves, thread kind by thread kind

  lemma SendMoves(s: State, t: nat, c: Choice)
    requires Inv(s) && t < |s.threads| && StepSend(s, t, c).Some?
    requires s.threads[t].SendCheck? || s.threads[t].SendCapture? || s.threads[t].SendWait?
    ensures Inv(StepSend(s, t, c).value)
  {
    hide InvRequests, InvHandler, InvLife, InvWg;
    match s.threads[t]
    case SendCheck(r) => MoveKeeps(s, t, if s.conn.established > 0 then SendAdd(r) else SendReject(r, ErrNotConnected));
    case SendCapture => MoveKeeps(s, t, SendWait(Current(s.conn)));
    case SendWait(_) => MoveQueues(s, t, Finished, StepSend(s, t, c).value.queued);
  }

  lemma ReadMoves(s: State, t: nat, c: Choice)
    requires Inv(s) && t < |s.threads| && StepRead(s, t, c).Some? && !s.threads[t].ReadDone?
    requires !s.threads[t].ReadLookup? && !s.threads[t].ReadDeliver?
    ensures Inv(StepRead(s, t, c).value)
  {
    hide InvRequests, InvHandler, InvLife, InvWg;
    match s.threads[t]
    case ReadCheck => MoveKeeps(s, t, if s.conn.shutdown > 0 then DiscMtx(ByReader) else ReadLoad);
    case ReadLoad => MoveKeeps(s, t, ReadWait(Socket(s.conn)));
    case ReadWait(_) => MoveKeeps(s, t, StepRead(s, t, c).value.threads[t]);
  }

  lemma WriteMoves(s: State, t: nat, c: Choice)
    requires Inv(s) && t < |s.threads| && StepWrite(s, t, c).Some? && !s.threads[t].WriteDone?
    ensures Inv(StepWrite(s, t, c).value)
  {
    hide InvRequests, InvHandler, InvLife, InvWg;
    match s.threads[t]
    case WriteCapture => MoveKeeps(s, t, WriteWait(Current(s.conn)));
    case WriteWait(_) => MoveQueues(s, t, StepWrite(s, t, c).value.threads[t], StepWrite(s, t, c).value.queued);
    case WriteLoad => MoveKeeps(s, t, WriteMsg(Socket(s.conn)));
    case WriteMsg(_) => MoveKeeps(s, t, StepWrite(s, t, c).value.threads[t]);
  }

  lemma DiscReturns(s: State, t: nat)
    requires Inv(s) && t < |s.threads| && StepDisc(s, t).Some? && s.threads[t].DiscMtx? && s.conn.disconnected
    ensures Inv(StepDisc(s, t).value)
  {
    hide InvRequests, InvHandler, InvLife, InvWg;
    assert ThreadOk(FactsOf(s), t, s.threads[t]);
    MoveKeeps(s, t, After(s.threads[t].who));
  }

  lemma DiscMoves(s: State, t: nat)
    requires Inv(s) && t < |s.threads| && StepDisc(s, t).Some?
    requires s.threads[t].DiscShutCheck? || (s.threads[t].DiscLoop? && s.threads[t].i >= |s.q.table.list|)
    ensures Inv(StepDisc(s, t).value)
  {
    hide InvTable, InvOwners, InvLog, InvHandler, InvLife, InvWg;
    assert ThreadOk(FactsOf(s), t, s.threads[t]);
    match s.threads[t]
    case DiscLoop(who, _) => MoveKeeps(s, t, DiscClear(who));
    case DiscShutCheck(who) => MoveKeeps(s, t, if s.conn.shutdown > 0 then DiscUnlock(who) else DiscShutClose(who));
  }

  lemma DiscLocks(s: State, t: nat)
    requires Inv(s) && t < |s.threads| && StepDisc(s, t).Some? && s.threads[t].DiscLock?
    ensures Inv(StepDisc(s, t).value)
  {
    hide InvRequests, InvHandler, InvLife, InvWg;
    assert ThreadOk(FactsOf(s), t, s.threads[t]);
    var who := s.threads[t].who;
    if s.cfg.autoReconnect { MoveKeeps(s, t, After(who)); } else { LockKeeps(s, t, DiscLoop(who, 0), Some(t), s.mtx); }
  }

  lemma DiscUnlocks(s: State, t: nat)
    requires Inv(s) && t < |s.threads| && StepDisc(s, t).Some? && s.threads[t].DiscUnlock?
    ensures Inv(StepDisc(s, t).value)
  {
    hide InvRequests, InvHandler, InvLife, InvWg;
    assert ThreadOk(FactsOf(s), t, s.threads[t]);
    LockKeeps(s, t, After(s.threads[t].who), None, s.mtx);
  }

  lemma ShutMoves(s: State, t: nat)
    requires Inv(s) && t < |s.threads| && StepShut(s, t).Some?
    requires (s.threads[t].ShutCheck? || (s.threads[t].ShutMtx? && s.conn.disconnected)
        || (s.threads[t].ShutLoop? && s.threads[t].i >= |s.q.table.list|))
    ensures Inv(StepShut(s, t).value)
  {
    hide InvTable, InvOwners, InvLog, InvHandler, InvLife, InvWg;
    assert ThreadOk(FactsOf(s), t, s.threads[t]);
    match s.threads[t]
    case ShutCheck => MoveKeeps(s, t, if s.conn.shutdown > 0 then ShutUnlock else ShutClose);
    case ShutLoop(_) => MoveKeeps(s, t, ShutClear);
    case ShutMtx => MoveKeeps(s, t, ShutUnlock);
  }

  lemma ShutLocks(s: State, t: nat)
    requires Inv(s) && t < |s.threads| && StepShut(s, t).Some? && (s.threads[t].ShutLock? || s.threads[t].ShutUnlock?)
    ensures Inv(StepShut(s, t).value)
  {
    hide InvRequests, InvHandler, InvLife, InvWg;
    assert ThreadOk(FactsOf(s), t, s.threads[t]);
    match s.threads[t]
    case ShutLock => LockKeeps(s, t, ShutCheck, Some(t), s.mtx);
    case ShutUnlock => LockKeeps(s, t, Finished, None, s.mtx);
  }

  lemma HandMoves(s: State, t: nat, c: Choice)
    requires Inv(s) && t < |s.threads| && StepHand(s, t, c).Some? && (s.threads[t].HandWait? || s.threads[t].HandCheck?)
    ensures Inv(StepHand(s, t, c).value)
  {
    hide InvRequests, InvHandler, InvLife, InvWg;
    assert ThreadOk(FactsOf(s), t, s.threads[t]);
    match s.threads[t]
    case HandWait => MoveKeeps(s, t, if c == Tau then HandCheck else HandDone);
    case HandCheck => MoveKeeps(s, t, if s.conn.shutdown > 0 then HandDone else HandDial);
  }

  lemma HandDials(s: State, t: nat, c: Choice)
    requires Inv(s) && t < |s.threads| && StepHand(s, t, c).Some? && s.threads[t].HandDial? && c == Fail
    ensures Inv(StepHand(s, t, c).value)
  {
    hide InvRequests, InvHandler, InvLife, InvWg;
    assert ThreadOk(FactsOf(s), t, s.threads[t]);
    MoveKeeps(s, t, HandCheck);
  }

  lemma ResendChecks(s: State, t: nat, c: Choice)
    requires Inv(s) && t < |s.threads| && StepResend(s, t, c).Some? && s.threads[t].ResendCheck?
    ensures Inv(StepResend(s, t, c).value)
  {
    hide InvRequests, InvHandler, InvLife, InvWg;
    MoveKeeps(s, t, StepResend(s, t, c).value.threads[t]);
  }

  lemma ResendMoves(s: State, t: nat, c: Choice)
    requires Inv(s) && t < |s.threads| && StepResend(s, t, c).Some?
    requires s.threads[t].ResendCapture? || s.threads[t].ResendWait?
    ensures Inv(StepResend(s, t, c).value)
  {
    hide InvRequests, InvHandler, InvLife, InvWg;
    assert ThreadOk(FactsOf(s), t, s.threads[t]);
    match s.threads[t]
    case ResendCapture(reqs) => MoveKeeps(s, t, ResendWait(reqs, Current(s.conn)));
    case ResendWait(reqs, _) => MoveQueues(s, t, ResendCheck(reqs[1..]), StepResend(s, t, c).value.queued);
  }

  lemma ConnectLocks(s: State, t: nat, c: Choice)
    requires Inv(s) && t < |s.threads| && StepConnect(s, t, c).Some? && s.threads[t].ConnLock?
    ensures Inv(StepConnect(s, t, c).value)
  {
    hide InvRequests, InvHandler, InvLife, InvWg;
    assert ThreadOk(FactsOf(s), t, s.threads[t]);
    LockKeeps(s, t, if s.conn.sockets > 0 then ConnUnlock else ConnDial(s.threads[t].tries, 0), s.requestLock, Some(t));
  }

  lemma ConnectUnlocks(s: State, t: nat, c: Choice)
    requires Inv(s) && t < |s.threads| && StepConnect(s, t, c).Some? && s.threads[t].ConnUnlock?
    ensures Inv(StepConnect(s, t, c).value)
  {
    hide InvRequests, InvHandler, InvLife, InvWg;
    assert ThreadOk(FactsOf(s), t, s.threads[t]);
    LockKeeps(s, t, Finished, s.requestLock, None);
  }

  lemma ConnectRetries(s: State, t: nat, c: Choice)
    requires Inv(s) && t < |s.threads| && StepConnect(s, t, c).Some? && s.threads[t].ConnDial?
    requires !StepConnect(s, t, c).value.threads[t].ConnEst?
    ensures Inv(StepConnect(s, t, c).value)
  {
    hide InvRequests, InvHandler, InvLife, InvWg;
    assert ThreadOk(FactsOf(s), t, s.threads[t]);
    MoveKeeps(s, t, StepConnect(s, t, c).value.threads[t]);
  }
}

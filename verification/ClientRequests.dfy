/** The steps that pass a request from one owner to the next keep the invariant. */
module ClientRequests {
  import opened Basics
  import opened RequestTable
  import opened ClientProtocol
  import opened ClientInvariant

  // ----- Owners

  /** Thread `t` moves to `next` while request `r` moves to `w`; nobody else had `r`. */
  lemma OwnersPass(where: seq<Where>, threads: seq<Pc>, t: nat, next: Pc, r: nat, w: Where)
    requires InvOwners(where, threads) && t < |threads| && r < |where|
    requires SendOf(threads[t]) == None || SendOf(threads[t]) == Some(r)
    requires DeliveryOf(threads[t]) == None || DeliveryOf(threads[t]) == Some(r)
    requires where[r].WithSender? || where[r].InHand? ==> where[r].t == t
    requires w == Pending || w.Answered? || w == InHand(t)
    requires SendOf(next) == None && DeliveryOf(next) == if w == InHand(t) then Some(r) else None
    ensures InvOwners(where[r := w], threads[t := next])
  {
  }

  // ----- The log

  lemma LogAccept(q: Requests, u: Requests, r: nat, w: Where)
    requires InvLog(q) && r < |q.where| && !q.where[r].Answered? && (w == Pending || w.InHand?)
    requires u.where == q.where[r := w] && u.methods == q.methods && u.log == q.log && u.full == q.full
    ensures InvLog(u)
  {
  }

  lemma LogAnswer(q: Requests, r: nat, o: Outcome)
    requires InvLog(q) && r < |q.where| && !q.where[r].Answered? && (o.Reply? ==> o.id == IdOf(r))
    ensures r !in q.full && Send(q, r, o).Some? && InvLog(Send(q, r, o).value)
  {
  }

  // ----- The pending requests

  lemma PendingOutside(q: Requests, u: Requests, cursor: nat, r: nat, w: Where)
    requires InvPending(q, cursor) && r < |q.where|
    requires u.table == q.table && u.where == q.where[r := w]
    requires q.where[r] != Pending && !q.where[r].Answered? && w != Pending
    ensures InvPending(u, cursor)
  {
  }

  lemma PendingFailed(q: Requests, u: Requests, cursor: nat, k: nat)
    requires InvPending(q, cursor) && InvTable(q) && cursor < |q.table.list|
    requires u.table == q.table && u.where == q.where[q.table.list[cursor] := Answered(k)]
    ensures InvPending(u, cursor + 1)
  {
  }

  lemma PendingAdd(q: Requests, r: nat)
    requires InvPending(q, 0) && r < |q.where|
    ensures InvPending(Register(q, r), 0)
  {
  }

  lemma PendingRemove(q: Requests, u: Requests, r: nat, w: Where)
    requires InvPending(q, 0) && r in q.table.list && u.where == q.where[r := w] && w != Pending
    requires forall x :: x in u.table.list <==> x in q.table.list && x != r
    ensures InvPending(u, 0)
  {
    forall j | 0 <= j < |u.table.list| ensures u.table.list[j] < |u.where| && u.where[u.table.list[j]] == Pending {
      assert u.table.list[j] in u.table.list && u.table.list[j] in q.table.list;
    }
  }

  lemma TableAdd(q: Requests, r: nat)
    requires InvTable(q) && r < |q.where| && r !in q.table.list
    ensures InvTable(Register(q, r))
  {
    AddKeeps(q.table, r);
    if |q.methods| <= ID_SPACE {
      forall x | x in q.table.list ensures IdOf(x) != IdOf(r) {
        assert x < |q.methods| && r < |q.methods| && x != r;
        UniqueIds(x, r);
      }
    }
  }

  // ----- The steps

  lemma AnswerCalm(s: State, u: State, t: nat, next: Pc)
    requires InvThreads(s) && InvShutdown(s) && t < |s.threads|
    requires (s.threads[t].SendReject? && next == Finished) || (s.threads[t].ReadDeliver? && next == ReadCheck)
    requires u == Goto(s, t, next).(q := u.q) && u.q.table == s.q.table
    ensures Calm(s, u, t, next) && Cursor(u) == Cursor(s) && InvShutdown(u)
  {
    assert ThreadOk(FactsOf(s), t, s.threads[t]);
  }

  /** `t` sends the answer of a request it owns. */
  lemma AnswerKeeps(s: State, t: nat, r: nat, o: Outcome, next: Pc)
    requires Inv(s) && t < |s.threads| && (o.Reply? ==> o.id == IdOf(r))
    requires (s.threads[t].SendReject? && next == Finished) || (s.threads[t].ReadDeliver? && next == ReadCheck)
    requires s.threads[t].r == r
    ensures SendThen(s, t, r, o, next).Some? && Inv(SendThen(s, t, r, o, next).value)
  {
    assert SendOf(s.threads[t]) == Some(r) || DeliveryOf(s.threads[t]) == Some(r);
    LogAnswer(s.q, r, o);
    var u := SendThen(s, t, r, o, next).value;
    OwnersPass(s.q.where, s.threads, t, next, r, Answered(|s.q.log|));
    PendingOutside(s.q, u.q, Cursor(s), r, Answered(|s.q.log|));
    AnswerCalm(s, u, t, next);
    assert InvRequests(u);
    CalmKeeps(s, u, t, next);
  }

  lemma FailCalm(s: State, u: State, t: nat, i: nat, next: Pc)
    requires InvThreads(s) && InvShutdown(s) && t < |s.threads|
    requires (s.threads[t].DiscLoop? && s.threads[t].i == i && next == DiscLoop(s.threads[t].who, i + 1))
             || (s.threads[t] == ShutLoop(i) && next == ShutLoop(i + 1))
    requires u == Goto(s, t, next).(q := u.q) && u.q.table == s.q.table
    ensures Calm(s, u, t, next) && Cursor(u) == i + 1 && InvShutdown(u)
  {
    assert ThreadOk(FactsOf(s), t, s.threads[t]);
  }

  /** `t`, holding the request lock, fails the next pending request. */
  lemma FailKeeps(s: State, t: nat, i: nat, o: Outcome, next: Pc)
    requires Inv(s) && t < |s.threads| && i < |s.q.table.list| && !o.Reply?
    requires (s.threads[t].DiscLoop? && s.threads[t].i == i && next == DiscLoop(s.threads[t].who, i + 1))
             || (s.threads[t] == ShutLoop(i) && next == ShutLoop(i + 1))
    ensures SendThen(s, t, s.q.table.list[i], o, next).Some? && Inv(SendThen(s, t, s.q.table.list[i], o, next).value)
  {
    var r := s.q.table.list[i];
    assert ThreadOk(FactsOf(s), t, s.threads[t]);
    assert Cursor(s) == i;
    LogAnswer(s.q, r, o);
    var u := SendThen(s, t, r, o, next).value;
    OwnersPass(s.q.where, s.threads, t, next, r, Answered(|s.q.log|));
    PendingFailed(s.q, u.q, i, |s.q.log|);
    FailCalm(s, u, t, i, next);
    assert InvRequests(u);
    CalmKeeps(s, u, t, next);
  }

  lemma RegisterCalm(s: State, u: State, t: nat, r: nat)
    requires InvThreads(s) && t < |s.threads| && s.threads[t] == SendAdd(r) && s.requestLock == None
    requires s.conn.shutdown == 0
    requires u == Goto(s, t, SendCapture).(q := u.q)
    ensures Calm(s, u, t, SendCapture) && InvShutdown(u)
  {
    assert ThreadOk(FactsOf(s), t, s.threads[t]);
  }

  lemma RegisterKeeps(s: State, t: nat, r: nat)
    requires Inv(s) && t < |s.threads| && s.threads[t] == SendAdd(r) && s.requestLock == None && s.conn.shutdown == 0
    ensures r < |s.q.where| && Inv(Goto(s, t, SendCapture).(q := Register(s.q, r)))
  {
    assert SendOf(s.threads[t]) == Some(r);
    var u := Goto(s, t, SendCapture).(q := Register(s.q, r));
    TableAdd(s.q, r);
    PendingAdd(s.q, r);
    OwnersPass(s.q.where, s.threads, t, SendCapture, r, Pending);
    LogAccept(s.q, u.q, r, Pending);
    RegisterCalm(s, u, t, r);
    CalmKeeps(s, u, t, SendCapture);
  }

  lemma TakeOutCalm(s: State, u: State, t: nat, id: nat, r: nat)
    requires InvThreads(s) && InvShutdown(s) && t < |s.threads| && s.threads[t] == ReadLookup(id)
    requires s.requestLock == None
    requires u == Goto(s, t, ReadDeliver(r, id)).(q := u.q) && r in s.q.table.list && IdOf(r) == id
    ensures Calm(s, u, t, ReadDeliver(r, id)) && InvShutdown(u)
  {
    assert ThreadOk(FactsOf(s), t, s.threads[t]);
  }

  lemma TakeOutKeeps(s: State, t: nat, id: nat)
    requires Inv(s) && t < |s.threads| && s.threads[t] == ReadLookup(id) && s.requestLock == None
    ensures match Remove(s.q.table, id).1
            case None => true
            case Some(r) => r < |s.q.where| && Inv(Goto(s, t, ReadDeliver(r, id)).(q := TakeOut(s.q, id, r, t)))
  {
    RemoveKeeps(s.q.table, id);
    match Remove(s.q.table, id).1
    case None =>
    case Some(r) =>
      var next := ReadDeliver(r, id);
      var u := Goto(s, t, next).(q := TakeOut(s.q, id, r, t));
      assert s.q.where[r] == Pending;
      assert InvTable(u.q) by { assert forall x <- u.q.table.list :: x in s.q.table.list; }
      PendingRemove(s.q, u.q, r, InHand(t));
      OwnersPass(s.q.where, s.threads, t, next, r, InHand(t));
      LogAccept(s.q, u.q, r, InHand(t));
      TakeOutCalm(s, u, t, id, r);
      CalmKeeps(s, u, t, next);
  }

  lemma RemoveAllCalm(s: State, t: nat, next: Pc)
    requires InvThreads(s) && InvShutdown(s) && t < |s.threads|
    requires (s.threads[t].DiscClear? && next == DiscShutCheck(s.threads[t].who))
        || (s.threads[t].ShutClear? && next == ShutMtx)
    ensures var u := Goto(s, t, next).(q := RemoveAll(s.q)); Calm(s, u, t, next) && InvShutdown(u) && Cursor(u) == 0
  {
    assert ThreadOk(FactsOf(s), t, s.threads[t]);
  }

  lemma RemoveAllKeeps(s: State, t: nat, next: Pc)
    requires Inv(s) && t < |s.threads|
    requires (s.threads[t].DiscClear? && next == DiscShutCheck(s.threads[t].who))
        || (s.threads[t].ShutClear? && next == ShutMtx)
    ensures Inv(Goto(s, t, next).(q := RemoveAll(s.q)))
  {
    var u := Goto(s, t, next).(q := RemoveAll(s.q));
    assert ThreadOk(FactsOf(s), t, s.threads[t]);
    assert Cursor(s) == |s.q.table.list|;
    OwnersMove(s.q.where, s.threads, t, next);
    RemoveAllCalm(s, t, next);
    assert InvRequests(u);
    CalmKeeps(s, u, t, next);
  }

  lemma DropLog(q: Requests)
    requires InvTable(q) && InvPending(q, 0) && InvLog(q)
    ensures InvLog(DropIgnored(q))
  {
    assert forall r <- q.table.list :: q.where[r] == Pending;
  }

  lemma DropRequests(q: Requests)
    requires InvTable(q) && InvPending(q, 0) && InvLog(q)
    ensures InvTable(DropIgnored(q)) && InvPending(DropIgnored(q), 0) && InvLog(DropIgnored(q))
  {
    var u := DropIgnored(q);
    KeepKeeps(q.table, q.methods);
    assert InvTable(u) by { assert forall x <- u.table.list :: x in q.table.list; }
    forall j | 0 <= j < |u.table.list| ensures u.table.list[j] < |u.where| && u.where[u.table.list[j]] == Pending {
      assert u.table.list[j] in u.table.list && u.table.list[j] in q.table.list;
    }
    assert InvLog(u) by { DropLog(q); }
  }

  lemma DropOwners(q: Requests, threads: seq<Pc>, t: nat, next: Pc)
    requires InvPending(q, 0) && InvOwners(q.where, threads) && t < |threads| && threads[t] == ResendSnap
    requires next.ResendCheck?
    ensures InvOwners(DropIgnored(q).where, threads[t := next])
  {
    assert forall r <- q.table.list :: q.where[r] == Pending;
  }

  lemma DropCalm(s: State, u: State, t: nat, next: Pc)
    requires InvThreads(s) && InvShutdown(s) && t < |s.threads| && s.threads[t] == ResendSnap && s.requestLock == None
    requires next.ResendCheck? && u == Goto(s, t, next).(q := DropIgnored(s.q))
    ensures Calm(s, u, t, next) && InvShutdown(u)
  {
    assert ThreadOk(FactsOf(s), t, s.threads[t]);
    assert s.q.table == EMPTY ==> u.q.table == EMPTY;
  }

  lemma DropKeeps(s: State, t: nat)
    requires Inv(s) && t < |s.threads| && s.threads[t] == ResendSnap && s.requestLock == None
    ensures Inv(Goto(s, t, ResendCheck(Kept(s.q.table.list, s.q.methods))).(q := DropIgnored(s.q)))
  {
    var next := ResendCheck(Kept(s.q.table.list, s.q.methods));
    var u := Goto(s, t, next).(q := DropIgnored(s.q));
    KeepKeeps(s.q.table, s.q.methods);
    DropRequests(s.q);
    DropOwners(s.q, s.threads, t, next);
    DropCalm(s, u, t, next);
    CalmKeeps(s, u, t, next);
  }
}

/**
 * `queueHandler`: an unbounded queue between two channels.  A nil channel blocks for
 * ever, so setting `dequeue` and `skipQueue` to nil or to `out` turns sends off and on.
 */
module QueueHandler {
  import opened Basics

  /** What the select picks; `ready` tells whether a reader waits on `out` just then. */
  datatype Event<T> = Receive(n: T, ready: bool) | InClosed | Send | Quit

  /** `dequeue` and `skipQueue` say which channel variables are not nil; `received` and `sent` are the history. */
  datatype State<T> = State(
    q: seq<T>, dequeue: bool, skipQueue: bool, next: Option<T>, exited: bool, closes: nat, received: seq<T>,
        sent: seq<T>)

  function Init<T>(): State<T> {
    State([], false, true, None, false, 0, [], [])
  }

  function Step<T>(s: State<T>, e: Event<T>): State<T> {
    if s.exited then s else
    match e
    case Receive(n, ready) =>
      if s.skipQueue && ready then s.(received := s.received + [n], sent := s.sent + [n])
      else
        var q := s.q + [n];
        s.(received := s.received + [n], q := q, dequeue := true, skipQueue := false, next := Some(q[0]))
    case Send =>
      if !s.dequeue || s.next == None || s.q == [] then s
      else
        var q, out := s.q[1..], s.sent + [s.next.value];
        if q == [] then s.(sent := out, q := q, dequeue := false, skipQueue := true)
        else s.(sent := out, q := q, next := Some(q[0]))
    case InClosed => s.(exited := true, closes := s.closes + 1)
    case Quit => s.(exited := true, closes := s.closes + 1)
  }

  function Run<T>(events: seq<Event<T>>): State<T> {
    if events == [] then Init() else Step(Run(events[..|events|-1]), events[|events|-1])
  }

  /**
   * Sent and queued make up what was received; the channel variables
   * follow the queue; `out` is closed on exit only.
   */
  ghost predicate Inv<T>(s: State<T>) {
    && s.sent + s.q == s.received
    && (s.q == [] <==> s.skipQueue) && (s.q == [] <==> !s.dequeue)
    && (s.q != [] ==> s.next == Some(s.q[0]))
    && s.closes == if s.exited then 1 else 0
  }

  /** In every reachable state nothing is lost, duplicated or reordered. */
  lemma {:induction false} RunKeeps<T>(events: seq<Event<T>>)
    ensures Inv(Run(events))
  {
    if events != [] {
      RunKeeps(events[..|events|-1]);
      var s := Run(events[..|events|-1]);
      if s.q != [] {
        assert s.sent + s.q == (s.sent + [s.q[0]]) + s.q[1..];
      }
      assert forall n: T :: s.sent + (s.q + [n]) == s.received + [n];
      assert forall n: T :: s.q == [] ==> (s.sent + [n]) + s.q == s.received + [n];
    }
  }

  /** What arrives on `in` before it is closed or quit is. */
  function Arrivals<T>(events: seq<Event<T>>): seq<T> {
    if events == [] then [] else
    match events[0]
    case Receive(n, _) => [n] + Arrivals(events[1..])
    case Send => Arrivals(events[1..])
    case InClosed => []
    case Quit => []
  }

  /** The handler has returned. */
  ghost predicate Closes<T>(events: seq<Event<T>>) {
    exists i :: 0 <= i < |events| && (events[i].InClosed? || events[i].Quit?)
  }

  lemma ClosesTail<T>(events: seq<Event<T>>)
    requires events != [] && (events[0].Receive? || events[0].Send?)
    ensures Closes(events) <==> Closes(events[1..])
  {
    if i :| 0 <= i < |events| && (events[i].InClosed? || events[i].Quit?) {
      assert events[1..][i-1] == events[i];
    }
    if Closes(events[1..]) {
      var i :| 0 <= i < |events[1..]| && (events[1..][i].InClosed? || events[1..][i].Quit?);
      assert events[i+1] == events[1..][i];
    }
  }

  lemma {:induction false} ArrivalsSnoc<T>(events: seq<Event<T>>, e: Event<T>)
    ensures Arrivals(events + [e]) == Arrivals(events) + if e.Receive? && !Closes(events) then [e.n] else []
  {
    if events == [] {
      assert [] + [e] == [e] && Arrivals([e][1..]) == [];
    } else {
      ArrivalsSnoc(events[1..], e);
      assert (events + [e])[1..] == events[1..] + [e];
      assert events == [events[0]] + events[1..];
      if events[0].Receive? || events[0].Send? {
        assert Closes(events) <==> Closes(events[1..]) by { ClosesTail(events); }
      }
    }
  }

  lemma ClosesSnoc<T>(events: seq<Event<T>>, e: Event<T>)
    ensures Closes(events + [e]) <==> Closes(events) || e.InClosed? || e.Quit?
  {
    var all := events + [e];
    if Closes(events) {
      var i :| 0 <= i < |events| && (events[i].InClosed? || events[i].Quit?);
      assert all[i] == events[i];
    }
    if e.InClosed? || e.Quit? { assert all[|events|] == e; }
  }

  /** Every message that arrives is received, in order, until the handler returns. */
  lemma {:induction false} ReceivedExact<T>(events: seq<Event<T>>)
    ensures Run(events).received == Arrivals(events) && (Run(events).exited <==> Closes(events))
  {
    if events != [] {
      var init, e := events[..|events|-1], events[|events|-1];
      assert events == init + [e];
      ReceivedExact(init);
      ArrivalsSnoc(init, e);
      ClosesSnoc(init, e);
    }
  }

  /** The queue without its channel variables: what went out, what waits, and whether it is still served. */
  datatype Line<T> = Line(out: seq<T>, waiting: seq<T>, open: bool)

  function Serve<T>(l: Line<T>, e: Event<T>): Line<T> {
    if !l.open then l else
    match e
    case Receive(n, ready) =>
      if ready && l.waiting == [] then Line(l.out + [n], [], true) else Line(l.out, l.waiting + [n], true)
    case Send => if l.waiting == [] then l else Line(l.out + [l.waiting[0]], l.waiting[1..], true)
    case InClosed => l.(open := false)
    case Quit => l.(open := false)
  }

  function Served<T>(events: seq<Event<T>>): Line<T> {
    if events == [] then Line([], [], true) else Serve(Served(events[..|events|-1]), events[|events|-1])
  }

  /** The channel variables refine that queue: a message goes out at once only past an empty queue. */
  lemma {:induction false} RunIsLine<T>(events: seq<Event<T>>)
    ensures Served(events) == Line(Run(events).sent, Run(events).q, !Run(events).exited)
  {
    if events != [] {
      RunIsLine(events[..|events|-1]);
      RunKeeps(events[..|events|-1]);
    }
  }

  /** The output is a prefix of the input, whatever still waits in the queue at exit. */
  lemma OutputIsPrefix<T>(events: seq<Event<T>>)
    ensures IsPrefix(Run(events).sent, Run(events).received)
  {
    RunKeeps(events);
  }

  /** From every state it has not exited in, as many sends as the queue is long deliver all that was received. */
  lemma {:induction false} Drains<T>(events: seq<Event<T>>, n: nat)
    requires !Run(events).exited && |Run(events).q| == n
    ensures var s := Run(events + seq(n, i => Send)); s.sent == s.received == Run(events).received && s.skipQueue
    decreases n
  {
    RunKeeps(events);
    if n == 0 {
      assert events + seq(n, i => Send) == events;
    } else {
      assert (events + [Send])[..|events|] == events;
      assert events + seq(n, i => Send) == (events + [Send]) + seq(n - 1, i => Send);
      Drains(events + [Send], n - 1);
    }
  }

  /** The slice `q`: a buffer and the length in use.  Slots given up are cleared. */
  class Slice<T> {
    var buf: array<Option<T>>
    var len: nat

    ghost predicate Valid()
      reads this, buf
    {
      len <= buf.Length && forall i :: 0 <= i < len ==> buf[i].Some?
    }

    ghost function Contents(): (s: seq<T>)
      requires Valid()
      reads this, buf
      ensures |s| == len
    {
      seq(len, i requires 0 <= i < len reads this, buf requires Valid() => buf[i].value)
    }

    constructor ()
      ensures Valid() && fresh(buf) && Contents() == []
    {
      buf, len := new Option<T>[0], 0;
    }

    method Append(n: T)
      requires Valid()
      modifies this, buf
      ensures Valid() && (buf == old(buf) || fresh(buf)) && Contents() == old(Contents()) + [n]
    {
      if len == buf.Length {
        var grown := new Option<T>[2 * len + 1](i => None);
        for i := 0 to len
          invariant forall k :: 0 <= k < i ==> grown[k] == old(buf[k])
          invariant buf == old(buf) && len == old(len) && forall k :: 0 <= k < len ==> buf[k] == old(buf[k])
        {
          grown[i] := buf[i];
        }
        buf := grown;
      }
      buf[len] := Some(n);
      len := len + 1;
    }

    method Head() returns (n: T)
      requires Valid() && len > 0
      ensures n == Contents()[0]
    {
      n := buf[0].value;
    }

    /** The elements move down by one in place, and the last slot is cleared. */
    method Shift()
      requires Valid() && len > 0
      modifies this, buf
      ensures Valid() && buf == old(buf) && Contents() == old(Contents()[1..])
      ensures buf[len] == None
    {
      for i := 0 to len - 1
        invariant buf == old(buf) && len == old(len)
        invariant forall k :: 0 <= k < i ==> buf[k] == old(buf[k+1])
        invariant forall k :: i <= k < len ==> buf[k] == old(buf[k])
      {
        buf[i] := buf[i+1];
      }
      buf[len-1] := None;
      len := len - 1;
    }
  }

  lemma {:induction false} ExitStays<T>(events: seq<Event<T>>, n: nat)
    requires n <= |events| && Run(events[..n]).exited
    ensures Run(events) == Run(events[..n])
    decreases |events| - n
  {
    if n == |events| {
      assert events[..n] == events;
    } else {
      assert events[..n+1][..n] == events[..n];
      ExitStays(events, n + 1);
    }
  }

  /** The handler on any schedule of its select; after the schedule, quit is closed. */
  method HandleQueue<T>(events: seq<Event<T>>) returns (received: seq<T>, sent: seq<T>, closes: nat)
    ensures closes == 1
    ensures received == Run(events).received && sent == Run(events).sent
    ensures received == Arrivals(events) && sent == Served(events).out
    ensures IsPrefix(sent, received)
  {
    var q := new Slice<T>();
    var dequeue, skipQueue, next: Option<T> := false, true, None;
    received, sent, closes := [], [], 0;
    var i := 0;
    ghost var s: State<T> := Init();
    while i < |events|
      invariant 0 <= i <= |events| && s == Run(events[..i]) && !s.exited
      invariant q.Valid() && fresh(q) && fresh(q.buf) && q.Contents() == s.q
      invariant s == State(q.Contents(), dequeue, skipQueue, next, false, closes, received, sent)
    {
      RunKeeps(events[..i]);
      assert events[..i+1][..i] == events[..i];
      s := Step(s, events[i]);
      match events[i] {
        case Receive(n, ready) =>
          received := received + [n];
          if skipQueue && ready {
            sent := sent + [n];
          } else {
            q.Append(n);
            dequeue, skipQueue := true, false;
            var head := q.Head();
            next := Some(head);
          }
        case Send =>
          if dequeue {
            sent := sent + [next.value];
            q.Shift();
            if q.len == 0 {
              dequeue, skipQueue := false, true;
            } else {
              var head := q.Head();
              next := Some(head);
            }
          }
        case InClosed | Quit =>
          ExitStays(events, i + 1);
          break;
      }
      i := i + 1;
    }
    if i == |events| { assert events[..i] == events; }
    RunKeeps(events);
    OutputIsPrefix(events);
    ReceivedExact(events);
    RunIsLine(events);
    closes := closes + 1;
  }
}

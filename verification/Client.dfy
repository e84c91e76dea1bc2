/**
 * The methods of the websocket client that work on the request table, as the code
 * runs them while it holds `requestLock`, proved against the table steps of the
 * transition system.
 */
module Client {
  import opened Basics
  import opened RequestTable
  import opened ClientProtocol

  lemma WalkStart(list: seq<nat>, methods: seq<string>)
    ensures Kept(list[..0], methods) == [] && IgnoredIds(list[..0], methods) == {}
  {
  }

  /** One more request of the list walked. */
  lemma WalkStep(list: seq<nat>, k: nat, methods: seq<string>)
    requires k < |list|
    ensures Kept(list[..k+1], methods)
      == if Ignored(methods, list[k]) then Kept(list[..k], methods) else Kept(list[..k], methods) + [list[k]]
    ensures IgnoredIds(list[..k+1], methods)
      == IgnoredIds(list[..k], methods) + if Ignored(methods, list[k]) then {IdOf(list[k])} else {}
  {
    assert list[..k+1] == list[..k] + [list[k]];
  }

  /** Behind the requests kept so far, the next one is unlinked or stepped over. */
  lemma Unlink(all: seq<nat>, kept: seq<nat>, list: seq<nat>, done: nat)
    requires done < |list| && all == kept + list[done..]
    ensures all[|kept|] == list[done]
    ensures all[..|kept|] + all[|kept|+1..] == kept + list[done+1..]
    ensures all == (kept + [list[done]]) + list[done+1..]
  {
  }

  lemma DeleteOne(index: map<nat, nat>, ids: set<nat>, id: nat)
    ensures index - ids - {id} == index - (ids + {id})
  {
  }

  class Client {
    const disableAutoReconnect: bool

    var id: nat
    var methods: seq<string>
    var requestMap: map<nat, nat>
    var requestList: seq<nat>
    var full: set<nat>
    var log: seq<Delivery>
    var disconnectClosed: bool
    var disconnected: bool
    var shutdown: bool

    /** The table these fields hold. */
    function Table(): Table
      reads this
    {
      RequestTable.Table(requestList, requestMap)
    }

    /** Between critical sections: ids are the serial numbers, and pending requests have unused channels. */
    ghost predicate Valid()
      reads this
    {
      && id == |methods| % ID_SPACE
      && WF(Table())
      && (forall r <- requestList :: r < |methods|)
      && (forall r <- requestList :: r !in full)
      && (disconnected <==> disconnectClosed)
    }

    constructor (disableAutoReconnect: bool)
      ensures Valid() && Table() == EMPTY && methods == [] && log == [] && !disconnected && !shutdown
      ensures this.disableAutoReconnect == disableAutoReconnect
    {
      this.disableAutoReconnect := disableAutoReconnect;
      id, methods := 0, [];
      requestMap, requestList := map[], [];
      full, log := {}, [];
      disconnectClosed, disconnected, shutdown := false, false, false;
    }

    /** The counter wraps at 2^64; what it returns is the id of the request it numbers. */
    method NextID(name: string) returns (r: nat, next: nat)
      requires Valid()
      modifies this`id, this`methods
      ensures Valid() && r == old(|methods|) && next == IdOf(r) && id == next && methods == old(methods) + [name]
    {
      r := |methods|;
      id := if id + 1 == ID_SPACE then 0 else id + 1;
      methods := methods + [name];
      next := id;
    }

    method AddRequest(r: nat) returns (err: Option<Outcome>)
      requires Valid() && r < |methods| && r !in requestList && r !in full
      modifies this`requestList, this`requestMap
      ensures Valid()
      ensures shutdown ==> err == Some(ErrShutdown) && Table() == old(Table())
      ensures !shutdown ==> err == None && Table() == Add(old(Table()), r)
    {
      if shutdown {
        return Some(ErrShutdown);
      }
      AddKeeps(Table(), r);
      requestList := requestList + [r];
      requestMap := requestMap[IdOf(r) := r];
      err := None;
    }

    method RemoveRequest(id: nat) returns (request: Option<nat>)
      requires Valid()
      modifies this`requestList, this`requestMap
      ensures Valid()
      ensures (Table(), request) == Remove(old(Table()), id)
      ensures old(Exact(Table())) ==> request == Search(old(requestList), id)
    {
      RemoveKeeps(Table(), id);
      if id in requestMap {
        if Exact(Table()) { RemoveIsSearch(Table(), id); }
        var element := requestMap[id];
        requestMap := requestMap - {id};
        requestList := Without(requestList, element);
        return Some(element);
      }
      if Exact(Table()) { RemoveIsSearch(Table(), id); }
      request := None;
    }

    /**
     * What is done with one message of the peer: `id` is the id member as a float64, and `converted` what
     * `uint64` makes of it, which the language fixes only for numbers in range.
     */
    method HandleMessage(id: Option<real>, converted: nat)
      requires Valid() && (id.Some? && 0.0 <= id.value < ID_SPACE as real ==> converted == id.value.Floor)
      modifies this`requestList, this`requestMap, this`full, this`log
      ensures Valid()
      ensures
        || id == None || id.value < 0.0 || id.value != id.value.Floor as real
        || Remove(old(Table()), converted).1 == None
        ==>
        Table() == old(Table()) && full == old(full) && log == old(log)
      ensures
        && id.Some? && id.value >= 0.0 && id.value == id.value.Floor as real
        && Remove(old(Table()), converted).1.Some?
        ==>
        var (t, r) := Remove(old(Table()), converted);
        && Table() == t && r.value in old(requestList) && r.value !in requestList && r.value !in old(full)
        && full == old(full) + {r.value} && log == old(log) + [Delivery(r.value, Reply(converted))]
            && IdOf(r.value) == converted
    {
      if id == None {
        return;
      }
      if id.value < 0.0 || id.value != id.value.Floor as real {
        return;
      }
      RemoveKeeps(Table(), converted);
      var request := RemoveRequest(converted);
      if request == None {
        return;
      }
      full := full + {request.value};
      log := log + [Delivery(request.value, Reply(converted))];
    }

    method RemoveAllRequests()
      modifies this`requestList, this`requestMap
      ensures Table() == EMPTY
    {
      requestMap := map[];
      requestList := [];
    }

    /** The locked part of resendRequests: walk the list, unlinking what is not reissued, copying the rest. */
    method CollectResends() returns (resend: seq<nat>)
      requires Valid()
      modifies this`requestList, this`requestMap
      ensures Valid() && Table() == Keep(old(Table()), methods)
      ensures resend == Kept(old(requestList), methods) == requestList
    {
      hide NoDup, WF, Exact, Kept, IgnoredIds, Ignored;
      ghost var list, index, done := requestList, requestMap, 0;
      KeepKeeps(Table(), methods);
      resend := [];
      var e := 0;
      WalkStart(list, methods);
      while e < |requestList|
        invariant 0 <= done <= |list| && e == |resend|
        invariant resend == Kept(list[..done], methods)
        invariant requestList == resend + list[done..]
        invariant requestMap == index - IgnoredIds(list[..done], methods)
        decreases |requestList| - e
      {
        var jReq := requestList[e];
        WalkStep(list, done, methods);
        Unlink(requestList, resend, list, done);
        if Ignored(methods, jReq) {
          requestMap := requestMap - {IdOf(jReq)};
          requestList := requestList[..e] + requestList[e+1..];
          DeleteOne(index, IgnoredIds(list[..done], methods), IdOf(jReq));
        } else {
          resend := resend + [jReq];
          e := e + 1;
        }
        done := done + 1;
      }
      assert list[..done] == list && requestList == resend;
      assert forall r <- requestList :: r in list;
    }

    /** The loop that answers every pending request with an error, in order. */
    method FailAll(o: Outcome)
      requires Valid()
      modifies this`full, this`log
      ensures log == old(log) + Failures(requestList, o)
      ensures forall r :: r in full <==> r in old(full) || r in requestList
    {
      var i := 0;
      while i < |requestList|
        invariant 0 <= i <= |requestList|
        invariant log == old(log) + Failures(requestList[..i], o)
        invariant forall r :: r in full <==> r in old(full) || r in requestList[..i]
      {
        var r := requestList[i];
        assert r !in requestList[..i] && r !in full;
        full := full + {r};
        log := log + [Delivery(r, o)];
        assert requestList[..i+1] == requestList[..i] + [r];
        i := i + 1;
      }
      assert requestList[..i] == requestList;
    }

    method DoDisconnect() returns (did: bool)
      requires Valid()
      modifies this`disconnected, this`disconnectClosed
      ensures Valid() && did == !old(disconnected) && disconnected
    {
      if disconnected {
        return false;
      }
      disconnectClosed := true;
      disconnected := true;
      did := true;
    }

    method DoShutdown() returns (did: bool)
      modifies this`shutdown
      ensures did == !old(shutdown) && shutdown
    {
      if shutdown {
        return false;
      }
      shutdown := true;
      did := true;
    }

    method Disconnect()
      requires Valid()
      modifies this
      ensures Valid() && disconnected && id == old(id) && methods == old(methods)
      ensures old(disconnected) || !disableAutoReconnect ==>
        Table() == old(Table()) && log == old(log) && full == old(full) && shutdown == old(shutdown)
      ensures !old(disconnected) && disableAutoReconnect ==>
        && Table() == EMPTY && log == old(log + Failures(requestList, ErrDisconnect)) && shutdown
        && forall r :: r in full <==> r in old(full) || r in old(requestList)
    {
      var did := DoDisconnect();
      if !did {
        return;
      }
      if disableAutoReconnect {
        FailAll(ErrDisconnect);
        RemoveAllRequests();
        var _ := DoShutdown();
      }
    }

    method Shutdown()
      requires Valid()
      modifies this
      ensures Valid() && shutdown && id == old(id) && methods == old(methods)
      ensures old(shutdown) ==>
        Table() == old(Table()) && log == old(log) && full == old(full) && disconnected == old(disconnected)
      ensures !old(shutdown) ==>
        && Table() == EMPTY && log == old(log + Failures(requestList, ErrShutdown)) && disconnected
        && forall r :: r in full <==> r in old(full) || r in old(requestList)
    {
      var did := DoShutdown();
      if !did {
        return;
      }
      FailAll(ErrShutdown);
      RemoveAllRequests();
      var _ := DoDisconnect();
    }
  }
}

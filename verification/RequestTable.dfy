/**
 * The request table of the websocket client: `requestList` holds the
 * outstanding requests in the order they were added, `requestMap` indexes them
 * by JSON-RPC id.
 *
 * A request is named by its serial number, the number of ids the client had
 * handed out before it.  Its id is what `NextID` returned, a 64-bit counter that
 * wraps, so two requests may share an id once 2^64 of them have been made.
 */
module RequestTable {
  import opened Basics

  const ID_SPACE: nat := 0x1_0000_0000_0000_0000

  /** Methods whose requests are not reissued after a reconnect. */
  const IGNORE_RESENDS: set<string> := {"rescan"}

  datatype Table = Table(list: seq<nat>, index: map<nat, nat>)

  const EMPTY := Table([], map[])

  /** The id `NextID` returned for request `r`. */
  function IdOf(r: nat): nat {
    (r + 1) % ID_SPACE
  }

  /** Two requests share an id exactly when a multiple of 2^64 ids was handed out from one to the other. */
  lemma UniqueIds(q: nat, r: nat)
    ensures IdOf(q) == IdOf(r) <==> (q - r) % ID_SPACE == 0
  {
  }

  predicate Ignored(methods: seq<string>, r: nat) {
    r < |methods| && methods[r] in IGNORE_RESENDS
  }

  function Add(t: Table, r: nat): Table {
    Table(t.list + [r], t.index[IdOf(r) := r])
  }

  /** The list with the first occurrence of `r` unlinked. */
  function Without(list: seq<nat>, r: nat): seq<nat> {
    if list == [] then [] else
    if list[0] == r then list[1..] else [list[0]] + Without(list[1..], r)
  }

  /** `removeRequest`: look the id up in the map, unlink what it points to. */
  function Remove(t: Table, id: nat): (Table, Option<nat>) {
    if id in t.index
    then (Table(Without(t.list, t.index[id]), t.index - {id}), Some(t.index[id]))
    else (t, None)
  }

  /** The requests of the list that are reissued, in order. */
  function Kept(list: seq<nat>, methods: seq<string>): seq<nat> {
    if list == [] then []
    else if Ignored(methods, list[|list|-1]) then Kept(list[..|list|-1], methods)
    else Kept(list[..|list|-1], methods) + [list[|list|-1]]
  }

  /** The ids deleted from the map while the list is walked for reissue. */
  function IgnoredIds(list: seq<nat>, methods: seq<string>): set<nat> {
    set r | r in list && Ignored(methods, r) :: IdOf(r)
  }

  function Keep(t: Table, methods: seq<string>): Table {
    Table(Kept(t.list, methods), t.index - IgnoredIds(t.list, methods))
  }

  // ----- What the table is for: every indexed request is outstanding, and,
  // ----- while ids are unique, the index is exactly the list keyed by id.

  ghost predicate WF(t: Table) {
    && NoDup(t.list)
    && forall id <- t.index :: t.index[id] in t.list && IdOf(t.index[id]) == id
  }

  ghost predicate Exact(t: Table) {
    && WF(t)
    && forall r <- t.list :: IdOf(r) in t.index && t.index[IdOf(r)] == r
  }

  /** The reference meaning of `removeRequest`: search the list for the id. */
  function Search(list: seq<nat>, id: nat): Option<nat> {
    if list == [] then None else
    if IdOf(list[0]) == id then Some(list[0]) else Search(list[1..], id)
  }

  lemma {:induction false} WithoutMembers(list: seq<nat>, r: nat)
    requires NoDup(list)
    ensures NoDup(Without(list, r))
    ensures forall x :: x in Without(list, r) <==> x in list && x != r
    ensures |Without(list, r)| == if r in list then |list| - 1 else |list|
  {
    if list == [] || list[0] == r {
    } else {
      WithoutMembers(list[1..], r);
      assert list == [list[0]] + list[1..];
      var rest := Without(list[1..], r);
      assert list[0] !in list[1..] && list[0] !in rest;
      assert forall i :: 0 < i < |Without(list, r)| ==> Without(list, r)[i] == rest[i-1];
    }
  }

  lemma {:induction false} KeptMembers(list: seq<nat>, methods: seq<string>)
    requires NoDup(list)
    ensures NoDup(Kept(list, methods))
    ensures forall x :: x in Kept(list, methods) <==> x in list && !Ignored(methods, x)
  {
    if list != [] {
      var init, last := list[..|list|-1], list[|list|-1];
      KeptMembers(init, methods);
      assert list == init + [last];
    }
  }

  /** The positions in `list` of the elements of `kept`, in increasing order. */
  ghost predicate Positions(list: seq<nat>, kept: seq<nat>, at: seq<nat>) {
    && |at| == |kept|
    && (forall i :: 0 <= i < |at| ==> at[i] < |list| && kept[i] == list[at[i]])
    && (forall i, j :: 0 <= i < j < |at| ==> at[i] < at[j])
  }

  lemma PositionsSnoc(list: seq<nat>, x: nat, kept: seq<nat>, at: seq<nat>)
    requires Positions(list, kept, at)
    ensures Positions(list + [x], kept, at) && Positions(list + [x], kept + [x], at + [|list|])
  {
  }

  /** Reissued requests keep their order: what comes first in the kept list came first in the list. */
  lemma {:induction false} KeptInOrder(list: seq<nat>, methods: seq<string>) returns (at: seq<nat>)
    ensures Positions(list, Kept(list, methods), at)
  {
    hide Ignored;
    if list == [] {
      at := [];
    } else {
      var init, last := list[..|list|-1], list[|list|-1];
      at := KeptInOrder(init, methods);
      assert list == init + [last];
      PositionsSnoc(init, last, Kept(init, methods), at);
      if !Ignored(methods, last) {
        at := at + [|init|];
      }
    }
  }

  lemma AddKeeps(t: Table, r: nat)
    requires WF(t) && r !in t.list
    ensures WF(Add(t, r))
    ensures Exact(t) && (forall x <- t.list :: IdOf(x) != IdOf(r)) ==> Exact(Add(t, r))
  {
    var u := Add(t, r);
    forall id | id in u.index ensures u.index[id] in u.list && IdOf(u.index[id]) == id {
      assert id != IdOf(r) ==> id in t.index && u.index[id] == t.index[id];
    }
  }

  lemma RemoveKeeps(t: Table, id: nat)
    requires WF(t)
    ensures WF(Remove(t, id).0)
    ensures Exact(t) ==> Exact(Remove(t, id).0)
    ensures match Remove(t, id).1
            case None => Remove(t, id).0 == t
            case Some(r) => && r in t.list && IdOf(r) == id
                            && forall x :: x in Remove(t, id).0.list <==> x in t.list && x != r
  {
    if id in t.index {
      var r := t.index[id];
      WithoutMembers(t.list, r);
      var u := Remove(t, id).0;
      forall k | k in u.index ensures u.index[k] in u.list && IdOf(u.index[k]) == k {
        assert k in t.index && k != id;
      }
    }
  }

  lemma {:induction false} WithoutAt(list: seq<nat>, r: nat) returns (j: nat)
    requires r in list
    ensures j < |list| && list[j] == r && r !in list[..j]
    ensures Without(list, r) == list[..j] + list[j+1..]
  {
    j := 0;
    if list[0] != r {
      j := WithoutAt(list[1..], r);
      j := j + 1;
    }
  }

  /** A request found is unlinked where it stands, and its id deleted; all else stays. */
  ghost predicate Unlinked(t: Table, u: Table, r: nat) {
    && (exists j :: 0 <= j < |t.list| && t.list[j] == r && u.list == t.list[..j] + t.list[j+1..])
    && u.index.Keys == t.index.Keys - {IdOf(r)} && forall id <- u.index :: u.index[id] == t.index[id]
  }

  lemma RemoveUnlinks(t: Table, id: nat)
    requires WF(t) && Remove(t, id).1.Some?
    ensures Unlinked(t, Remove(t, id).0, Remove(t, id).1.value)
  {
    var j := WithoutAt(t.list, t.index[id]);
  }

  lemma KeepKeeps(t: Table, methods: seq<string>)
    requires WF(t)
    ensures WF(Keep(t, methods))
    ensures Exact(t) ==> Exact(Keep(t, methods))
    ensures forall x :: x in Keep(t, methods).list <==> x in t.list && !Ignored(methods, x)
  {
    KeptMembers(t.list, methods);
    var u := Keep(t, methods);
    forall k | k in u.index ensures u.index[k] in u.list && IdOf(u.index[k]) == k {
      assert k in t.index && k !in IgnoredIds(t.list, methods);
    }
  }

  lemma {:induction false} SearchFinds(list: seq<nat>, id: nat)
    ensures match Search(list, id)
            case None => forall x <- list :: IdOf(x) != id
            case Some(r) => r in list && IdOf(r) == id
  {
    if list == [] || IdOf(list[0]) == id {
    } else {
      SearchFinds(list[1..], id);
      assert list == [list[0]] + list[1..];
    }
  }

  /** With an exact index, `removeRequest` is linear search. */
  lemma RemoveIsSearch(t: Table, id: nat)
    requires Exact(t)
    ensures Remove(t, id).1 == Search(t.list, id)
    ensures Remove(t, id).0.list == match Search(t.list, id) case None => t.list case Some(r) => Without(t.list, r)
  {
    SearchFinds(t.list, id);
  }
}

/**
 * `MethodUsageText` among concurrent callers and registrations.  It reads a method's
 * info in one critical section and writes it back, with the usage text added, in
 * another; what it writes may be stale, but never wrong.
 */
module UsageCache {
  import opened Basics
  import opened GoValues
  import opened Registry
  import opened CmdCodec
  import opened UsageText

  /** Where a call of MethodUsageText is. */
  datatype Pc =
    | Called(name: string)
    | Generating(name: string, typ: Type, info: MethodInfo)
    | Answered(name: string, text: string)
    | Unregistered(name: string)

  datatype State = State(maps: Maps, calls: seq<Pc>)

  /** One critical section of one goroutine, or a new call. */
  datatype Action =
    | RegisterCmd(name: string, cmd: Type, flags: nat) | Call(name: string) | LookUp(t: nat) | WriteBack(t: nat)

  function Fresh(f: Formats, r: Maps, name: string): string
    requires name in r.types && name in r.infos
  {
    Text(f, r.types[name], r.infos[name].defaults, name)
  }

  function Step(f: Formats, s: State, a: Action): State {
    match a
    case RegisterCmd(name, cmd, flags) =>
      (match Register(s.maps, name, cmd, flags) case Ok(u) => s.(maps := u) case Err(_) => s)
    case Call(name) => s.(calls := s.calls + [Called(name)])
    case LookUp(t) =>
      if t < |s.calls| && s.calls[t].Called? then
        var name := s.calls[t].name;
        if name in s.maps.types && name in s.maps.infos then
          var info := s.maps.infos[name];
          s.(calls := s.calls[t := if info.usage != "" then Answered(name, info.usage)
              else Generating(name, s.maps.types[name], info)])
        else s.(calls := s.calls[t := Unregistered(name)])
      else s
    case WriteBack(t) =>
      if t < |s.calls| && s.calls[t].Generating? then
        var c := s.calls[t];
        var usage := Text(f, c.typ, c.info.defaults, c.name);
        s.(maps := s.maps.(infos := s.maps.infos[c.name := c.info.(usage := usage)]),
            calls := s.calls[t := Answered(c.name, usage)])
      else s
  }

  function Run(f: Formats, actions: seq<Action>): State
    decreases |actions|
  {
    if actions == [] then State(NOTHING, []) else
    Step(f, Run(f, actions[..|actions|-1]), actions[|actions|-1])
  }

  // ----- The invariant

  /** An info as registered: all of it but the usage text. */
  function Registered(info: MethodInfo): MethodInfo {
    info.(usage := "")
  }

  ghost predicate CallOk(f: Formats, r: Maps, c: Pc)
    requires r.types.Keys == r.infos.Keys
  {
    match c
    case Generating(name, typ, info) => name in r.types && typ == r.types[name]
        && Registered(info) == Registered(r.infos[name])
    case Answered(name, text) => name in r.types && text == Fresh(f, r, name)
    case _ => true
  }

  ghost predicate CacheOk(f: Formats, r: Maps) {
    && RegInv(r)
    && forall m <- r.infos :: m in r.types && (r.infos[m].usage == "" || r.infos[m].usage == Fresh(f, r, m))
  }

  ghost predicate Inv(f: Formats, s: State) {
    CacheOk(f, s.maps) && forall c <- s.calls :: CallOk(f, s.maps, c)
  }

  /** Nothing registered changes, apart from usage texts. */
  ghost predicate Preserves(r: Maps, u: Maps) {
    forall m <- r.types :: m in r.infos ==>
      m in u.types && m in u.infos && u.types[m] == r.types[m] && Registered(u.infos[m]) == Registered(r.infos[m])
  }

  lemma UsageOnly(f: Formats, r: Maps, name: string, usage: string)
    requires CacheOk(f, r) && name in r.infos && usage == Fresh(f, r, name)
    ensures var u := r.(infos := r.infos[name := r.infos[name].(usage := usage)]);
      CacheOk(f, u) && Preserves(r, u) && forall m <- r.types :: Fresh(f, u, m) == Fresh(f, r, m)
  {
    hide Text, Scan;
  }

  lemma RegistrationKeeps(f: Formats, r: Maps, name: string, cmd: Type, flags: nat)
    requires CacheOk(f, r) && Register(r, name, cmd, flags).Ok?
    ensures var u := Register(r, name, cmd, flags).value; CacheOk(f, u) && Preserves(r, u)
  {
    hide Text, Scan, IsLayoutOf;
    RegisterKeeps(r, name, cmd, flags);
  }

  lemma CallsKeep(f: Formats, r: Maps, u: Maps, c: Pc)
    requires CacheOk(f, r) && CacheOk(f, u) && Preserves(r, u) && CallOk(f, r, c)
    ensures CallOk(f, u, c)
  {
    hide Text, Scan, IsLayoutOf;
  }

  lemma SameKeys(r: Maps)
    requires RegInv(r)
    ensures r.types.Keys == r.infos.Keys
  {
  }

  /** Every step keeps the caches right and everything registered as it was. */
  lemma StepKeeps(f: Formats, s: State, a: Action)
    requires Inv(f, s)
    ensures Inv(f, Step(f, s, a)) && Preserves(s.maps, Step(f, s, a).maps)
  {
    hide Text, Scan, IsLayoutOf, Register, RegInv;
    SameKeys(s.maps);
    var s' := Step(f, s, a);
    match a {
      case RegisterCmd(name, cmd, flags) =>
        if Register(s.maps, name, cmd, flags).Ok? { RegistrationKeeps(f, s.maps, name, cmd, flags); }
      case WriteBack(t) =>
        if t < |s.calls| && s.calls[t].Generating? {
          var c := s.calls[t];
          assert CallOk(f, s.maps, c);
          assert c.info.(usage := Fresh(f, s.maps, c.name)) == s.maps.infos[c.name].(usage := Fresh(f, s.maps, c.name));
          UsageOnly(f, s.maps, c.name, Fresh(f, s.maps, c.name));
        }
      case Call(_) =>
      case LookUp(_) =>
    }
    SameKeys(s'.maps);
    forall i | 0 <= i < |s'.calls| ensures CallOk(f, s'.maps, s'.calls[i]) {
      if i < |s.calls| && s'.calls[i] == s.calls[i] {
        assert s.calls[i] in s.calls;
        CallsKeep(f, s.maps, s'.maps, s.calls[i]);
      }
    }
  }

  lemma {:induction false} RunKeeps(f: Formats, actions: seq<Action>)
    ensures Inv(f, Run(f, actions))
    decreases |actions|
  {
    if actions != [] {
      RunKeeps(f, actions[..|actions|-1]);
      StepKeeps(f, Run(f, actions[..|actions|-1]), actions[|actions|-1]);
    }
  }

  /** A call finds its method or not, and is answered by its two critical sections, or after the first one. */
  lemma CallExact(f: Formats, s: State, t: nat)
    requires Inv(f, s) && t < |s.calls| && s.calls[t].Called?
    ensures s.maps.types.Keys == s.maps.infos.Keys
    ensures var name, u := s.calls[t].name, Step(f, Step(f, s, LookUp(t)), WriteBack(t));
      && |u.calls| == |s.calls|
      && u.calls[t] == (if name in s.maps.types then Answered(name, Fresh(f, s.maps, name)) else Unregistered(name))
      && forall i :: 0 <= i < |s.calls| && i != t ==> u.calls[i] == s.calls[i]
  {
    hide Text, Scan, IsLayoutOf, RegInv;
    SameKeys(s.maps);
  }

  /** Every answer, cached or not, is what recomputing it now gives. */
  lemma AnswersAreFresh(f: Formats, actions: seq<Action>, t: nat)
    requires t < |Run(f, actions).calls| && Run(f, actions).calls[t].Answered?
    ensures var s := Run(f, actions); var c := s.calls[t];
      c.name in s.maps.types && c.name in s.maps.infos && c.text == Fresh(f, s.maps, c.name)
  {
    RunKeeps(f, actions);
    assert CallOk(f, Run(f, actions).maps, Run(f, actions).calls[t]);
  }

  /** Stale write-backs never undo a registration: from any point of a run on, what was registered stays. */
  lemma {:induction false} RegistrationsStay(f: Formats, actions: seq<Action>, n: nat)
    requires n <= |actions|
    ensures Preserves(Run(f, actions[..n]).maps, Run(f, actions).maps)
    decreases |actions| - n
  {
    if n == |actions| {
      assert actions[..n] == actions;
    } else {
      RegistrationsStay(f, actions, n + 1);
      RunKeeps(f, actions[..n]);
      assert actions[..n+1][..n] == actions[..n];
      StepKeeps(f, Run(f, actions[..n]), actions[n]);
      RunKeeps(f, actions[..n+1]);
    }
  }

  /** One call on its own. */
  method MethodUsageText(f: Formats, c: Commands, name: string) returns (res: Result<string, ErrorCode>)
    requires c.Valid() && CacheOk(f, c.Contents())
    modifies c
    ensures c.Valid() && CacheOk(f, c.Contents()) && Preserves(old(c.Contents()), c.Contents())
    ensures c.methodToConcreteType == old(c.methodToConcreteType)
    ensures c.concreteTypeToMethod == old(c.concreteTypeToMethod)
    ensures c.methodToInfo.Keys == old(c.methodToInfo.Keys)
    ensures res == if name in c.methodToConcreteType && name in c.methodToInfo then Ok(Fresh(f, c.Contents(), name))
        else Err(ErrUnregisteredMethod)
  {
    hide Text, Scan, IsLayoutOf;
    SameKeys(c.Contents());
    if name !in c.methodToConcreteType {
      return Err(ErrUnregisteredMethod);
    }
    var rtp, info := c.methodToConcreteType[name], c.methodToInfo[name];
    if info.usage != "" {
      return Ok(info.usage);
    }
    var usage := MethodUsageLine(f, rtp, info.defaults, name);
    UsageOnly(f, c.Contents(), name, usage);
    info := info.(usage := usage);
    c.methodToInfo := c.methodToInfo[name := info];
    res := Ok(usage);
  }
}

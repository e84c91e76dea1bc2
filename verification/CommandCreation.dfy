/**
 * `NewCmd`: building a command from loose arguments, and that command's way over the
 * wire: one parameter per argument, and the same command back with its tail filled in.
 */
module CommandCreation {
  import opened Basics
  import opened GoValues
  import opened JsonCodec
  import opened Registry
  import opened CmdCodec
  import opened CmdTheorems
  import opened Assignment
  import opened AssignmentTheorems

  /** An `interface{}` argument. */
  datatype Arg = UntypedNil | Arg(typ: Type, val: Value)

  datatype Creation = Created(cmd: Command) | Refused(error: ErrorCode) | Crashed

  /** The fields assigned so far, or that an argument was refused or made the call panic. */
  datatype Progress = Going(vals: seq<Value>) | Ended(panicked: bool)

  function AssignArg(lib: Library, dest: Type, a: Arg): Outcome
    requires WidthsFit(Base(dest))
  {
    if a.UntypedNil? then Panicked else Assign(lib, dest, a.typ, a.val)
  }

  predicate AllFit(fs: seq<Field>) {
    forall i :: 0 <= i < |fs| ==> WidthsFit(Base(fs[i].typ))
  }

  /** What the field holds after a call that came back without an error. */
  function FieldAfter(dest: Type, o: Outcome): Value {
    if o.Assigned? then o.v else Chain(Depth(dest), Zero(Base(dest)))
  }

  function AssignArgs(lib: Library, fs: seq<Field>, args: seq<Arg>, n: nat): Progress
    requires n <= |args| <= |fs| && AllFit(fs)
  {
    if n == 0 then Going([]) else
    match AssignArgs(lib, fs, args, n - 1)
    case Ended(p) => Ended(p)
    case Going(vs) =>
      match AssignArg(lib, fs[n-1].typ, args[n-1])
      case Failed => Ended(false)
      case Panicked => Ended(true)
      case o => Going(vs + [FieldAfter(fs[n-1].typ, o)])
  }

  function Zeros(fs: seq<Field>, n: nat): seq<Value>
    requires n <= |fs|
  {
    seq(|fs| - n, i requires 0 <= i < |fs| - n => Zero(fs[n + i].typ))
  }

  lemma {:induction false} ArgsAssigned(lib: Library, fs: seq<Field>, args: seq<Arg>, n: nat)
    requires n <= |args| <= |fs| && AllFit(fs) && AssignArgs(lib, fs, args, n).Going?
    ensures |AssignArgs(lib, fs, args, n).vals| == n
    ensures forall i :: 0 <= i < n ==>
      && (AssignArg(lib, fs[i].typ, args[i]).Assigned? || AssignArg(lib, fs[i].typ, args[i]).Unset?)
      && AssignArgs(lib, fs, args, n).vals[i] == FieldAfter(fs[i].typ, AssignArg(lib, fs[i].typ, args[i]))
  {
    hide Assign, FieldAfter;
    if n > 0 { ArgsAssigned(lib, fs, args, n - 1); }
  }

  function New(r: Maps, lib: Library, name: string, args: seq<Arg>): Creation
    requires r.types.Keys == r.infos.Keys
    requires forall m <- r.types :: r.infos[m].maxParams <= |FieldsOf(r.types[m])| && AllFit(FieldsOf(r.types[m]))
  {
    if name !in r.types then Refused(ErrUnregisteredMethod)
    else if !CheckNumParams(|args|, r.infos[name]) then Refused(ErrNumParams)
    else
      var fs := FieldsOf(r.types[name]);
      match AssignArgs(lib, fs, args, |args|)
      case Ended(panicked) => if panicked then Crashed else Refused(ErrInvalidType)
      case Going(vs) =>
        ArgsAssigned(lib, fs, args, |args|);
        Created(Command(r.types[name], Some(vs + Zeros(fs, |args|))))
  }

  lemma {:induction false} ArgsEnded(lib: Library, fs: seq<Field>, args: seq<Arg>, k: nat, n: nat)
    requires k <= n <= |args| <= |fs| && AllFit(fs) && AssignArgs(lib, fs, args, k).Ended?
    ensures AssignArgs(lib, fs, args, n) == AssignArgs(lib, fs, args, k)
  {
    hide Assign;
    if k < n { ArgsEnded(lib, fs, args, k, n - 1); }
  }

  lemma {:induction false} WellFormedBase(t: Type)
    requires WellFormed(t)
    ensures WellFormed(Base(t)) && WidthsFit(Base(t))
  {
    if t.TPtr? { WellFormedBase(t.elem); }
  }

  lemma RegistryFits(r: Maps)
    requires RegInv(r) && TypesWellFormed(r)
    ensures r.types.Keys == r.infos.Keys
    ensures forall m <- r.types :: r.infos[m].maxParams <= |FieldsOf(r.types[m])| && AllFit(FieldsOf(r.types[m]))
  {
    hide HasType, Scan;
    forall m | m in r.types ensures AllFit(FieldsOf(r.types[m])) {
      assert WellFormed(r.types[m].elem);
      forall i | 0 <= i < |FieldsOf(r.types[m])| ensures WidthsFit(Base(FieldsOf(r.types[m])[i].typ)) {
        WellFormedBase(FieldsOf(r.types[m])[i].typ);
      }
    }
  }

  method NewCmd(c: Commands, lib: Library, name: string, args: seq<Arg>) returns (res: Creation)
    requires c.Valid()
    ensures c.Contents().types.Keys == c.Contents().infos.Keys
    ensures forall m <- c.Contents().types ::
      c.Contents().infos[m].maxParams <= |FieldsOf(c.Contents().types[m])| && AllFit(FieldsOf(c.Contents().types[m]))
    ensures res == New(c.Contents(), lib, name, args)
  {
    hide Assign, WellFormed, RegInv, TypesWellFormed, Zero;
    RegistryFits(c.Contents());
    InfosFit(c.Contents());
    if name !in c.methodToConcreteType {
      return Refused(ErrUnregisteredMethod);
    }
    var rtp, info := c.methodToConcreteType[name], c.methodToInfo[name];
    var numParams := |args|;
    if numParams < info.numReqParams || numParams > info.maxParams {
      return Refused(ErrNumParams);
    }
    var fs := FieldsOf(rtp);
    var rv := Zeros(fs, 0);
    for i := 0 to numParams
      invariant |rv| == |fs| && AssignArgs(lib, fs, args, i) == Going(rv[..i])
      invariant rv[i..] == Zeros(fs, i)
    {
      var o := Panicked;
      if args[i].Arg? {
        o := AssignField(lib, fs[i].typ, args[i].typ, args[i].val);
      }
      if o.Failed? || o.Panicked? {
        ArgsEnded(lib, fs, args, i + 1, numParams);
        return if o.Failed? then Refused(ErrInvalidType) else Crashed;
      }
      var tail := rv[i..];
      rv := rv[i := FieldAfter(fs[i].typ, o)];
      assert rv[..i+1] == rv[..i] + [rv[i]];
      assert rv[i+1..] == tail[1..] == Zeros(fs, i + 1);
    }
    assert rv == rv[..numParams] + Zeros(fs, numParams);
    res := Created(Command(rtp, Some(rv)));
  }

  // ----- NewCmd, in every case

  /** The argument can be put into the field, or is passed over. */
  predicate Fits(lib: Library, dest: Type, a: Arg)
    requires WidthsFit(Base(dest))
  {
    a.Arg? && (Assign(lib, dest, a.typ, a.val).Assigned? || Assign(lib, dest, a.typ, a.val) == Unset)
  }

  /** What a field is after that: the assigned value, or a chain of fresh pointers to zero. */
  predicate Put(lib: Library, dest: Type, a: Arg, v: Value)
    requires WidthsFit(Base(dest)) && a.Arg?
  {
    match Assign(lib, dest, a.typ, a.val)
    case Assigned(w) => v == w
    case _ => v == Chain(Depth(dest), Zero(Base(dest)))
  }

  /** The first argument that does not fit decides. */
  lemma {:induction false} ArgsExact(lib: Library, fs: seq<Field>, args: seq<Arg>, n: nat)
    requires n <= |args| <= |fs| && AllFit(fs)
    ensures AssignArgs(lib, fs, args, n).Going? <==> forall i :: 0 <= i < n ==> Fits(lib, fs[i].typ, args[i])
    ensures AssignArgs(lib, fs, args, n).Ended? ==>
      exists k :: 0 <= k < n && (forall i :: 0 <= i < k ==> Fits(lib, fs[i].typ, args[i]))
        && !Fits(lib, fs[k].typ, args[k])
        && (AssignArgs(lib, fs, args, n).panicked <==>
              args[k].UntypedNil? || Assign(lib, fs[k].typ, args[k].typ, args[k].val) == Panicked)
  {
    hide Assign;
    if n > 0 {
      ArgsExact(lib, fs, args, n - 1);
      if AssignArgs(lib, fs, args, n - 1).Going? && AssignArgs(lib, fs, args, n).Ended? {
        assert !Fits(lib, fs[n-1].typ, args[n-1]);
      }
    }
  }

  /**
   * NewCmd creates a command exactly for a registered method with a fitting number of arguments that all fit their
   * fields; each fault has its error, in this order, and a panic is the first unfit argument's.  The command holds
   * the arguments, and zero in the fields after them.
   */
  lemma NewExact(r: Maps, lib: Library, name: string, args: seq<Arg>)
    requires RegInv(r) && TypesWellFormed(r)
    ensures r.types.Keys == r.infos.Keys
    ensures forall m <- r.types :: r.infos[m].maxParams <= |FieldsOf(r.types[m])| && AllFit(FieldsOf(r.types[m]))
    ensures New(r, lib, name, args) == Refused(ErrUnregisteredMethod) <==> name !in r.types
    ensures New(r, lib, name, args) == Refused(ErrNumParams) <==>
      name in r.types && !(r.infos[name].numReqParams <= |args| && |args| <= r.infos[name].maxParams)
    ensures name in r.types && r.infos[name].numReqParams <= |args| && |args| <= r.infos[name].maxParams ==>
      var fs := FieldsOf(r.types[name]);
      && |args| <= |fs|
      && match New(r, lib, name, args)
         case Created(cmd) =>
           && cmd.typ == r.types[name] && cmd.val.Some? && |cmd.val.value| == |fs|
           && (forall i :: 0 <= i < |args| ==>
                 Fits(lib, fs[i].typ, args[i]) && Put(lib, fs[i].typ, args[i], cmd.val.value[i]))
           && forall i :: |args| <= i < |fs| ==> cmd.val.value[i] == Zero(fs[i].typ)
         case other =>
           exists k :: 0 <= k < |args| && (forall i :: 0 <= i < k ==> Fits(lib, fs[i].typ, args[i]))
             && !Fits(lib, fs[k].typ, args[k])
             && other == if args[k].UntypedNil? || Assign(lib, fs[k].typ, args[k].typ, args[k].val) == Panicked
                then Crashed else Refused(ErrInvalidType)
  {
    hide Assign, RegInv, TypesWellFormed, WellFormed, Zero;
    RegistryFits(r);
    InfosFit(r);
    if name in r.types && r.infos[name].numReqParams <= |args| && |args| <= r.infos[name].maxParams {
      var fs := FieldsOf(r.types[name]);
      ArgsExact(lib, fs, args, |args|);
      if AssignArgs(lib, fs, args, |args|).Going? { ArgsAssigned(lib, fs, args, |args|); }
    }
  }

  // ----- Through the wire

  /** An argument whose pointers all lead somewhere. */
  ghost predicate NonNil(a: Arg) {
    a.Arg? && HasType(a.typ, a.val) && Deref(a.val, Depth(a.typ)).Some?
  }

  /** Every argument became its field's value, and the fields after them are zero. */
  ghost predicate Holds(lib: Library, fs: seq<Field>, args: seq<Arg>, vs: seq<Value>)
    requires AllFit(fs)
  {
    && Typed(fs, vs) && |args| <= |vs|
    && (forall i :: 0 <= i < |args| ==>
          && args[i].Arg? && Assign(lib, fs[i].typ, args[i].typ, args[i].val) == Assigned(vs[i])
          && Deref(vs[i], Depth(fs[i].typ)).Some?)
    && (forall i :: |args| <= i < |vs| ==> vs[i] == Zero(fs[i].typ))
  }

  lemma ArgArrives(lib: Library, dest: Type, a: Arg)
    requires WellFormed(dest) && NonNil(a)
    ensures WidthsFit(Base(dest))
    ensures a.Arg?
    ensures AssignArg(lib, dest, a).Assigned? || AssignArg(lib, dest, a).Unset? ==>
      var o := Assign(lib, dest, a.typ, a.val);
      && o.Assigned? && FieldAfter(dest, AssignArg(lib, dest, a)) == o.v
      && Deref(o.v, Depth(dest)).Some? && HasType(dest, o.v)
  {
    hide HasType, Assign;
    WellFormedBase(dest);
    SuccessMeansAssigned(lib, dest, a.typ, a.val);
    if Assign(lib, dest, a.typ, a.val).Assigned? {
      AssignTyped(lib, dest, a.typ, a.val);
    }
  }

  lemma FieldsHold(lib: Library, fs: seq<Field>, args: seq<Arg>)
    requires |args| <= |fs| && AllFit(fs) && (forall i :: 0 <= i < |fs| ==> WellFormed(fs[i].typ))
    requires AssignArgs(lib, fs, args, |args|).Going? && forall i :: 0 <= i < |args| ==> NonNil(args[i])
    ensures Holds(lib, fs, args, AssignArgs(lib, fs, args, |args|).vals + Zeros(fs, |args|))
  {
    hide Assign, HasType, Zero, FieldAfter, NonNil, AssignArgs, WellFormed;
    ArgsAssigned(lib, fs, args, |args|);
    var vs := AssignArgs(lib, fs, args, |args|).vals;
    forall i | 0 <= i < |args|
      ensures args[i].Arg? && Assign(lib, fs[i].typ, args[i].typ, args[i].val) == Assigned(vs[i])
      ensures Deref(vs[i], Depth(fs[i].typ)).Some? && HasType(fs[i].typ, vs[i])
    {
      ArgArrives(lib, fs[i].typ, args[i]);
    }
    forall i | |args| <= i < |fs| ensures HasType(fs[i].typ, Zero(fs[i].typ)) {
      ZeroHasType(fs[i].typ);
    }
  }

  /** A created command is of the method's type and holds the arguments. */
  lemma CreatedHolds(r: Maps, lib: Library, name: string, args: seq<Arg>)
    requires RegInv(r) && TypesWellFormed(r) && forall i :: 0 <= i < |args| ==> NonNil(args[i])
    ensures r.types.Keys == r.infos.Keys
    ensures forall m <- r.types :: r.infos[m].maxParams <= |FieldsOf(r.types[m])| && AllFit(FieldsOf(r.types[m]))
    ensures New(r, lib, name, args).Created? ==>
      var c := New(r, lib, name, args).cmd;
      && name in r.types && c.typ == r.types[name] && c.val.Some? && CheckNumParams(|args|, r.infos[name])
      && Holds(lib, FieldsOf(c.typ), args, c.val.value)
  {
    hide Holds, NonNil, AssignArgs, RegInv, Zeros;
    RegistryFits(r);
    InfosFit(r);
    if New(r, lib, name, args).Created? {
      assert WellFormed(r.types[name]) && WellFormed(r.types[name].elem);
      FieldsHold(lib, FieldsOf(r.types[name]), args);
    }
  }

  /** With non-nil values in front and zero ones behind, exactly those in front travel. */
  lemma ArgsTravel(fs: seq<Field>, info: MethodInfo, vs: seq<Value>, n: nat)
    requires LaidOut(fs, info) && |vs| == |fs| && info.numReqParams <= n <= |fs|
    requires forall i :: 0 <= i < n ==> Deref(vs[i], Depth(fs[i].typ)).Some?
    requires forall i :: n <= i < |fs| ==> vs[i] == Zero(fs[i].typ)
    ensures ParamCount(fs, vs, 0) == n
  {
    hide HasType;
    forall i | 0 <= i < n ensures !StopsAt(fs[i], vs[i]) {
      assert fs[i].typ.TPtr? ==> Depth(fs[i].typ) > 0;
    }
    CountBeyond(fs, vs, 0, n);
    if n < |fs| { assert StopsAt(fs[n], vs[n]); }
  }

  lemma SameDefaultsSameReturn(fs: seq<Field>, a: MethodInfo, b: MethodInfo, vs: seq<Value>)
    requires |fs| == |vs| && a.defaults == b.defaults
    ensures Returned(fs, a, vs) == Returned(fs, b, vs)
  {
    hide Norm, Zero;
    assert forall i :: 0 <= i < |fs| ==> Filled(fs, a, i) == Filled(fs, b, i);
    assert Returned(fs, a, vs) == Returned(fs, b, vs);
  }

  /**
   * `MarshalCmd` sends exactly one parameter per argument, in order, and `UnmarshalCmd` returns the same
   * command with the fields after the arguments filled with the defaults of the method asked for,
   * even when the type was registered under another method since.
   */
  lemma ThroughTheWire(r: Maps, lib: Library, name: string, args: seq<Arg>, id: Id, cmd: Command)
    requires RegInv(r) && TypesWellFormed(r) && forall i :: 0 <= i < |args| ==> NonNil(args[i])
    requires r.types.Keys == r.infos.Keys
    requires forall m <- r.types :: r.infos[m].maxParams <= |FieldsOf(r.types[m])| && AllFit(FieldsOf(r.types[m]))
    requires New(r, lib, name, args) == Created(cmd) && cmd.val.Some? && |cmd.val.value| == |FieldsOf(cmd.typ)|
    requires Marshal(r, id, cmd).Ok?
    ensures var fs, vs, params := FieldsOf(cmd.typ), cmd.val.value, Marshal(r, id, cmd).value.params;
      && name in r.infos && |params| == |args| <= |fs|
      && (forall i :: 0 <= i < |args| ==> Some(params[i]) == Encode(fs[i].typ, vs[i]))
      && Unmarshal(r, Marshal(r, id, cmd).value) == Ok(Command(cmd.typ, Some(Returned(fs, r.infos[name], vs))))
      && ((forall i :: 0 <= i < |args| ==> Lossless(fs[i].typ, vs[i])) ==>
            Returned(fs, r.infos[name], vs) == Fill(fs, r.infos[name], vs[..|args|]))
  {
    hide Assign, HasType, Scan, Encode, Norm, Lossless, WellFormed, IsLayoutOf, AssignArgs, Returned, NonNil;
    CreatedHolds(r, lib, name, args);
    RegisteredIsLaidOut(r, name);
    var fs, vs := FieldsOf(cmd.typ), cmd.val.value;
    ArgsTravel(fs, r.infos[name], vs, |args|);
    EncodedLength(fs, vs, |args|);
    WireRoundTrip(r, id, cmd);
    SameTypeSameLayout(r, name, r.methods[cmd.typ]);
    SameDefaultsSameReturn(fs, r.infos[name], r.infos[r.methods[cmd.typ]], vs);
    TripIsTruncFillIff(fs, r.infos[name], vs);
  }
}

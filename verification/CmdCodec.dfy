/**
 * Commands on the wire: the loops of `MarshalCmd`, `UnmarshalCmd` and `RegisterCmd`
 * over the registry, and what a command comes back as.
 */
module CmdCodec {
  import opened Basics
  import opened GoValues
  import opened JsonCodec
  import opened Registry
  import UsageFlags

  /** The id of a request: an `interface{}`. */
  datatype Id = NilId | IntId(n: int) | FloatId(r: real) | StringId(s: string) | BoolId(b: bool) | OtherId(j: Json)

  predicate IsValidIDType(id: Id) {
    !id.BoolId? && !id.OtherId?
  }

  datatype Request = Request(jsonrpc: string, method_: string, params: seq<Json>, id: Id)

  /** A command: a pointer to a struct, possibly nil. */
  datatype Command = Command(typ: Type, val: Option<seq<Value>>)

  function FieldsOf(typ: Type): seq<Field> {
    if typ.TPtr? && typ.elem.TStruct? then typ.elem.fields else []
  }

  ghost predicate Typed(fs: seq<Field>, vs: seq<Value>) {
    |vs| == |fs| && forall i :: 0 <= i < |fs| ==> HasType(fs[i].typ, vs[i])
  }

  ghost predicate TypesWellFormed(r: Maps) {
    forall m <- r.types :: WellFormed(r.types[m])
  }

  // ----- What the loops compute

  predicate StopsAt(f: Field, v: Value) {
    f.typ.TPtr? && v == VNil
  }

  /** `makeParams` from field `k` on: the first nil pointer ends the parameters. */
  function ParamCount(fs: seq<Field>, vs: seq<Value>, k: nat): (n: nat)
    requires k <= |fs| == |vs|
    ensures k <= n <= |fs|
    ensures forall i :: k <= i < n ==> !StopsAt(fs[i], vs[i])
    ensures n < |fs| ==> StopsAt(fs[n], vs[n])
    decreases |fs| - k
  {
    if k < |fs| && !StopsAt(fs[k], vs[k]) then ParamCount(fs, vs, k + 1) else k
  }

  function EncodeParams(fs: seq<Field>, vs: seq<Value>, n: nat): Option<seq<Json>>
    requires n <= |fs| == |vs|
  {
    if n == 0 then Some([]) else
    match (EncodeParams(fs, vs, n - 1), Encode(fs[n-1].typ, vs[n-1]))
    case (Some(js), Some(j)) => Some(js + [j])
    case _ => None
  }

  function Marshal(r: Maps, id: Id, cmd: Command): Result<Request, ErrorCode>
    requires cmd.val.Some? ==> |cmd.val.value| == |FieldsOf(cmd.typ)|
  {
    if cmd.typ !in r.methods then Err(ErrUnregisteredMethod)
    else if cmd.val == None then Err(ErrInvalidType)
    else if !IsValidIDType(id) then Err(ErrInvalidType)
    else
      var fs, vs := FieldsOf(cmd.typ), cmd.val.value;
      match EncodeParams(fs, vs, ParamCount(fs, vs, 0))
      case None => Err(ErrMarshal)
      case Some(js) => Ok(Request("1.0", r.methods[cmd.typ], js, id))
  }

  predicate CheckNumParams(n: nat, info: MethodInfo) {
    info.numReqParams <= n <= info.maxParams
  }

  /** The value of a field no parameter was given for. */
  function Filled(fs: seq<Field>, info: MethodInfo, i: nat): Value
    requires i < |fs|
  {
    if i in info.defaults then info.defaults[i] else Zero(fs[i].typ)
  }

  function DecodeParams(fs: seq<Field>, js: seq<Json>, n: nat): Result<seq<Value>, ErrorCode>
    requires n <= |js| <= |fs|
  {
    if n == 0 then Ok([]) else
    match (DecodeParams(fs, js, n - 1), Decode(fs[n-1].typ, js[n-1]))
    case (Ok(vs), Some(v)) => Ok(vs + [v])
    case _ => Err(ErrInvalidType)
  }

  function Fill(fs: seq<Field>, info: MethodInfo, vs: seq<Value>): seq<Value>
    requires |vs| <= |fs|
  {
    vs + seq(|fs| - |vs|, i requires 0 <= i < |fs| - |vs| => Filled(fs, info, |vs| + i))
  }

  lemma {:induction false} DecodedLength(fs: seq<Field>, js: seq<Json>, n: nat)
    requires n <= |js| <= |fs| && DecodeParams(fs, js, n).Ok?
    ensures |DecodeParams(fs, js, n).value| == n
    ensures forall i :: 0 <= i < n ==> Decode(fs[i].typ, js[i]) == Some(DecodeParams(fs, js, n).value[i])
  {
    if n > 0 { DecodedLength(fs, js, n - 1); }
  }

  function Unmarshal(r: Maps, req: Request): Result<Command, ErrorCode>
    requires r.types.Keys == r.infos.Keys
    requires forall m <- r.types :: r.infos[m].maxParams <= |FieldsOf(r.types[m])|
  {
    if req.method_ !in r.types then Err(ErrUnregisteredMethod)
    else
      var typ, info := r.types[req.method_], r.infos[req.method_];
      if !CheckNumParams(|req.params|, info) then Err(ErrNumParams)
      else
        match DecodeParams(FieldsOf(typ), req.params, |req.params|)
        case Err(e) => Err(e)
        case Ok(vs) =>
          DecodedLength(FieldsOf(typ), req.params, |req.params|);
          Ok(Command(typ, Some(Fill(FieldsOf(typ), info, vs))))
  }

  lemma {:induction false} DecodeFails(fs: seq<Field>, js: seq<Json>, k: nat, n: nat)
    requires k < n <= |js| <= |fs| && Decode(fs[k].typ, js[k]) == None
    ensures DecodeParams(fs, js, n) == Err(ErrInvalidType)
  {
    if k < n - 1 { DecodeFails(fs, js, k, n - 1); }
  }

  lemma {:induction false} EncodedLength(fs: seq<Field>, vs: seq<Value>, n: nat)
    requires n <= |fs| == |vs| && EncodeParams(fs, vs, n).Some?
    ensures |EncodeParams(fs, vs, n).value| == n
    ensures forall i :: 0 <= i < n ==> Encode(fs[i].typ, vs[i]) == Some(EncodeParams(fs, vs, n).value[i])
  {
    if n > 0 { EncodedLength(fs, vs, n - 1); }
  }

  lemma {:induction false} EncodeFails(fs: seq<Field>, vs: seq<Value>, k: nat, n: nat)
    requires k < n <= |fs| == |vs| && Encode(fs[k].typ, vs[k]) == None
    ensures EncodeParams(fs, vs, n) == None
  {
    if k < n - 1 { EncodeFails(fs, vs, k, n - 1); }
  }

  lemma InfosFit(r: Maps)
    requires RegInv(r)
    ensures r.types.Keys == r.infos.Keys
    ensures forall m <- r.types ::
      r.types[m].TPtr? && r.types[m].elem.TStruct? && r.infos[m].maxParams == |FieldsOf(r.types[m])|
  {
  }

  // ----- What is promised of them

  /** The number of parameters is one the method takes. */
  predicate CountFits(r: Maps, req: Request)
    requires req.method_ in r.infos
  {
    r.infos[req.method_].numReqParams <= |req.params| && |req.params| <= r.infos[req.method_].maxParams
  }

  /** Every parameter is a document of its field's type. */
  predicate ParamsFit(r: Maps, req: Request)
    requires req.method_ in r.types
  {
    var fs := FieldsOf(r.types[req.method_]);
    forall i :: 0 <= i < |req.params| ==> i < |fs| && Decode(fs[i].typ, req.params[i]).Some?
  }

  /** Every field holds its parameter, or without one its default, or without that zero. */
  ghost predicate HoldsParams(fs: seq<Field>, info: MethodInfo, params: seq<Json>, vs: seq<Value>) {
    && |vs| == |fs| && |params| <= |fs|
    && (forall i :: 0 <= i < |params| ==> Decode(fs[i].typ, params[i]) == Some(vs[i]))
    && (forall i :: |params| <= i < |fs| && i in info.defaults ==> vs[i] == info.defaults[i])
    && (forall i :: |params| <= i < |fs| && i !in info.defaults ==> vs[i] == Zero(fs[i].typ))
  }

  lemma {:induction false} ParamsDecode(fs: seq<Field>, js: seq<Json>, n: nat)
    requires n <= |js| <= |fs| && forall i :: 0 <= i < n ==> Decode(fs[i].typ, js[i]).Some?
    ensures DecodeParams(fs, js, n).Ok?
  {
    hide Decode;
    if n > 0 { ParamsDecode(fs, js, n - 1); }
  }

  lemma FillHolds(fs: seq<Field>, info: MethodInfo, params: seq<Json>, vs: seq<Value>)
    requires |vs| == |params| <= |fs| && forall i :: 0 <= i < |vs| ==> Decode(fs[i].typ, params[i]) == Some(vs[i])
    ensures HoldsParams(fs, info, params, Fill(fs, info, vs))
  {
    hide Decode, Zero;
    var ws := Fill(fs, info, vs);
    forall i | |params| <= i < |fs|
      ensures ws[i] == if i in info.defaults then info.defaults[i] else Zero(fs[i].typ)
    {
      assert ws[i] == Filled(fs, info, |vs| + (i - |vs|));
    }
  }

  /**
   * UnmarshalCmd accepts exactly the requests of a registered method with a fitting number of parameters of fitting
   * types; each of the three faults has its error, the earlier one first; and what it accepts holds the parameters.
   */
  lemma UnmarshalExact(r: Maps, req: Request)
    requires RegInv(r)
    ensures r.types.Keys == r.infos.Keys
    ensures forall m <- r.types :: r.infos[m].maxParams <= |FieldsOf(r.types[m])|
    ensures Unmarshal(r, req) == Err(ErrUnregisteredMethod) <==> req.method_ !in r.types
    ensures Unmarshal(r, req) == Err(ErrNumParams) <==> req.method_ in r.types && !CountFits(r, req)
    ensures Unmarshal(r, req) == Err(ErrInvalidType)
       <==> req.method_ in r.types && CountFits(r, req) && !ParamsFit(r, req)
    ensures Unmarshal(r, req).Ok? <==> req.method_ in r.types && CountFits(r, req) && ParamsFit(r, req)
    ensures Unmarshal(r, req).Ok? ==>
      var cmd := Unmarshal(r, req).value;
      && cmd.typ == r.types[req.method_] && cmd.val.Some?
      && HoldsParams(FieldsOf(cmd.typ), r.infos[req.method_], req.params, cmd.val.value)
  {
    hide RegInv, Decode, Zero;
    InfosFit(r);
    if req.method_ in r.types && CountFits(r, req) {
      var fs := FieldsOf(r.types[req.method_]);
      if ParamsFit(r, req) {
        ParamsDecode(fs, req.params, |req.params|);
        DecodedLength(fs, req.params, |req.params|);
        FillHolds(fs, r.infos[req.method_], req.params, DecodeParams(fs, req.params, |req.params|).value);
      } else {
        var i :| 0 <= i < |req.params| && !(i < |fs| && Decode(fs[i].typ, req.params[i]).Some?);
        DecodeFails(fs, req.params, i, |req.params|);
      }
    }
  }

  /** No optional field up to this one is nil. */
  predicate Travels(fs: seq<Field>, vs: seq<Value>, i: int)
    requires |fs| == |vs|
  {
    0 <= i < |fs| && forall j :: 0 <= j <= i ==> !(fs[j].typ.TPtr? && vs[j] == VNil)
  }

  lemma {:induction false} ParamsEncodeAll(fs: seq<Field>, vs: seq<Value>, n: nat)
    requires n <= |fs| == |vs| && forall i :: 0 <= i < n ==> Encode(fs[i].typ, vs[i]).Some?
    ensures EncodeParams(fs, vs, n).Some?
  {
    hide Encode;
    if n > 0 { ParamsEncodeAll(fs, vs, n - 1); }
  }

  lemma TravelsCount(fs: seq<Field>, vs: seq<Value>)
    requires |fs| == |vs|
    ensures forall i :: 0 <= i < |fs| ==> (Travels(fs, vs, i) <==> i < ParamCount(fs, vs, 0))
  {
    var n := ParamCount(fs, vs, 0);
    forall i | 0 <= i < |fs| ensures Travels(fs, vs, i) <==> i < n {
      if i >= n { assert StopsAt(fs[n], vs[n]); }
    }
  }

  /**
   * MarshalCmd sends the method the type was last registered for and exactly the documents of the fields in front of
   * the first nil optional one; it fails for an unregistered type, a nil command or an id of another kind, or a field
   * on the way that has no document, and for nothing else.
   */
  lemma MarshalExact(r: Maps, id: Id, cmd: Command)
    requires cmd.val.Some? ==> |cmd.val.value| == |FieldsOf(cmd.typ)|
    ensures Marshal(r, id, cmd) == Err(ErrUnregisteredMethod) <==> cmd.typ !in r.methods
    ensures Marshal(r, id, cmd) == Err(ErrInvalidType)
       <==> cmd.typ in r.methods && (cmd.val == None || id.BoolId? || id.OtherId?)
    ensures Marshal(r, id, cmd) == Err(ErrMarshal)
       <==> && cmd.typ in r.methods && cmd.val.Some? && !id.BoolId? && !id.OtherId?
            && exists i :: Travels(FieldsOf(cmd.typ), cmd.val.value, i)
                 && Encode(FieldsOf(cmd.typ)[i].typ, cmd.val.value[i]) == None
    ensures Marshal(r, id, cmd).Err? ==>
      Marshal(r, id, cmd).error in {ErrUnregisteredMethod, ErrInvalidType, ErrMarshal}
    ensures Marshal(r, id, cmd).Ok? ==>
      && cmd.typ in r.methods && cmd.val.Some?
      && var fs, vs, req := FieldsOf(cmd.typ), cmd.val.value, Marshal(r, id, cmd).value;
         && req.jsonrpc == "1.0" && req.method_ == r.methods[cmd.typ] && req.id == id && |req.params| <= |fs|
         && (forall i :: 0 <= i < |fs| ==> (Travels(fs, vs, i) <==> i < |req.params|))
         && (forall i :: 0 <= i < |req.params| ==> Encode(fs[i].typ, vs[i]) == Some(req.params[i]))
  {
    hide Encode;
    if cmd.typ in r.methods && cmd.val.Some? && IsValidIDType(id) {
      var fs, vs := FieldsOf(cmd.typ), cmd.val.value;
      var n := ParamCount(fs, vs, 0);
      assert forall i :: 0 <= i < |fs| ==> (Travels(fs, vs, i) <==> i < n) by { TravelsCount(fs, vs); }
      if i :| Travels(fs, vs, i) && Encode(fs[i].typ, vs[i]) == None {
        EncodeFails(fs, vs, i, n);
      } else {
        assert forall i :: 0 <= i < n ==> Travels(fs, vs, i);
        ParamsEncodeAll(fs, vs, n);
        EncodedLength(fs, vs, n);
      }
    }
  }

  lemma RegisterTyped(r: Maps, name: string, cmd: Type, flags: nat)
    requires TypesWellFormed(r) && WellFormed(cmd) && Register(r, name, cmd, flags).Ok?
    ensures TypesWellFormed(Register(r, name, cmd, flags).value)
  {
    hide WellFormed, Scan, ScanField;
  }

  // ----- The loops

  method PopulateDefaults(numParams: nat, info: MethodInfo, fs: seq<Field>, rv: seq<Value>) returns (filled: seq<Value>)
    requires numParams <= info.maxParams == |fs| == |rv|
    requires forall k :: numParams <= k < |fs| ==> rv[k] == Zero(fs[k].typ)
    ensures filled == Fill(fs, info, rv[..numParams])
  {
    hide Zero;
    filled := rv;
    for i := numParams to info.maxParams
      invariant |filled| == |fs| && filled[..numParams] == rv[..numParams]
      invariant forall k :: numParams <= k < i ==> filled[k] == Filled(fs, info, k)
      invariant forall k :: i <= k < |fs| ==> filled[k] == Zero(fs[k].typ)
    {
      if i in info.defaults {
        filled := filled[i := info.defaults[i]];
      }
    }
    assert filled == Fill(fs, info, rv[..numParams]);
  }

  class Commands {
    var methodToConcreteType: map<string, Type>
    var methodToInfo: map<string, MethodInfo>
    var concreteTypeToMethod: map<Type, string>

    function Contents(): Maps
      reads this
    {
      Maps(methodToConcreteType, methodToInfo, concreteTypeToMethod)
    }

    ghost predicate Valid()
      reads this
    {
      RegInv(Contents()) && TypesWellFormed(Contents())
    }

    constructor ()
      ensures Valid() && Contents() == NOTHING
    {
      methodToConcreteType, methodToInfo, concreteTypeToMethod := map[], map[], map[];
    }

    method RegisterCmd(name: string, cmd: Type, flags: nat) returns (err: Option<ErrorCode>)
      requires Valid() && WellFormed(cmd)
      modifies this
      ensures Valid()
      ensures match Register(old(Contents()), name, cmd, flags)
              case Ok(u) => err == None && Contents() == u
              case Err(e) => err == Some(e) && Contents() == old(Contents())
    {
      hide Decode, WellFormed, RegInv, TypesWellFormed;
      if name in methodToConcreteType {
        return Some(ErrDuplicateMethod);
      }
      if flags >= UsageFlags.HIGHEST_USAGE_FLAG_BIT {
        return Some(ErrInvalidUsageFlags);
      }
      if !cmd.TPtr? || !cmd.elem.TStruct? {
        return Some(ErrInvalidType);
      }
      var fs := cmd.elem.fields;
      var numOptFields: nat, defaults: map<nat, Value> := 0, map[];
      var i: nat := 0;
      while i < |fs|
        invariant i <= |fs| && Contents() == old(Contents()) && Valid()
        invariant numOptFields <= i && Scan(fs, i) == Ok(Layout(numOptFields, defaults))
      {
        var f := fs[i];
        if Scan(fs, i + 1).Err? { ScanFails(fs, i + 1, |fs|); }
        if f.anonymous {
          return Some(ErrEmbeddedType);
        }
        if !f.exported {
          return Some(ErrUnexportedField);
        }
        var isOptional := f.typ.TPtr?;
        if !IsAcceptableKind(if isOptional then f.typ.elem else f.typ) {
          return Some(ErrUnsupportedFieldType);
        }
        if isOptional {
          numOptFields := numOptFields + 1;
        } else if numOptFields > 0 {
          return Some(ErrNonOptionalField);
        }
        if !f.default.NoDefault? {
          if !isOptional {
            return Some(ErrNonOptionalDefault);
          }
          var val := if f.default.NotJson? then None else Decode(f.typ.elem, f.default.json);
          if val == None {
            return Some(ErrMismatchedDefault);
          }
          defaults := defaults[i := VPtr(val.value)];
        }
        i := i + 1;
      }
      RegisterKeeps(Contents(), name, cmd, flags);
      RegisterTyped(Contents(), name, cmd, flags);
      methodToConcreteType := methodToConcreteType[name := cmd];
      methodToInfo := methodToInfo[name := MethodInfo(|fs|, |fs| - numOptFields, numOptFields, defaults, flags, "")];
      concreteTypeToMethod := concreteTypeToMethod[cmd := name];
      err := None;
    }

    method MarshalCmd(id: Id, cmd: Command) returns (res: Result<Request, ErrorCode>)
      requires cmd.val.Some? ==> |cmd.val.value| == |FieldsOf(cmd.typ)|
      ensures res == Marshal(Contents(), id, cmd)
    {
      if cmd.typ !in concreteTypeToMethod {
        return Err(ErrUnregisteredMethod);
      }
      if cmd.val == None {
        return Err(ErrInvalidType);
      }
      // makeParams
      var fs, vs := FieldsOf(cmd.typ), cmd.val.value;
      var n := 0;
      while n < |fs|
        invariant 0 <= n <= |fs| && ParamCount(fs, vs, n) == ParamCount(fs, vs, 0)
      {
        if fs[n].typ.TPtr? && vs[n] == VNil {
          break;
        }
        n := n + 1;
      }
      // NewRequest
      if !IsValidIDType(id) {
        return Err(ErrInvalidType);
      }
      var rawParams := [];
      var i := 0;
      while i < n
        invariant 0 <= i <= n <= |fs| && EncodeParams(fs, vs, i) == Some(rawParams)
      {
        var marshalled := Encode(fs[i].typ, vs[i]);
        if marshalled == None {
          EncodeFails(fs, vs, i, n);
          return Err(ErrMarshal);
        }
        rawParams := rawParams + [marshalled.value];
        i := i + 1;
      }
      res := Ok(Request("1.0", concreteTypeToMethod[cmd.typ], rawParams, id));
    }

    method UnmarshalCmd(req: Request) returns (res: Result<Command, ErrorCode>)
      requires Valid()
      ensures forall m <- Contents().types :: Contents().infos[m].maxParams <= |FieldsOf(Contents().types[m])|
      ensures res == Unmarshal(Contents(), req)
    {
      hide Decode, WellFormed, RegInv, TypesWellFormed, LaidOut, Zero;
      InfosFit(Contents());
      if req.method_ !in methodToConcreteType {
        return Err(ErrUnregisteredMethod);
      }
      var rtp, info := methodToConcreteType[req.method_], methodToInfo[req.method_];
      var fs := rtp.elem.fields;
      var numParams := |req.params|;
      if numParams < info.numReqParams || numParams > info.maxParams {
        return Err(ErrNumParams);
      }
      var rv := seq(|fs|, i requires 0 <= i < |fs| => Zero(fs[i].typ));
      var i: nat := 0;
      while i < numParams
        invariant i <= numParams && |rv| == |fs|
        invariant DecodeParams(fs, req.params, i) == Ok(rv[..i])
        invariant forall k :: i <= k < |fs| ==> rv[k] == Zero(fs[k].typ)
      {
        var val := Decode(fs[i].typ, req.params[i]);
        if val == None {
          DecodeFails(fs, req.params, i, numParams);
          return Err(ErrInvalidType);
        }
        rv := rv[i := val.value];
        assert rv[..i+1] == rv[..i] + [val.value];
        i := i + 1;
      }
      ghost var given := rv[..numParams];
      if numParams < info.maxParams {
        rv := PopulateDefaults(numParams, info, fs, rv);
      }
      assert rv == Fill(fs, info, given);
      res := Ok(Command(rtp, Some(rv)));
    }
  }
}

/**
 * What a command comes back as.  Cutting it off at the first nil optional field and
 * filling in defaults is a normal form; a trip over the wire yields that form, up to
 * the values JSON cannot tell from null.
 */
module CmdTheorems {
  import opened Basics
  import opened GoValues
  import opened JsonCodec
  import opened Registry
  import opened CmdCodec

  /** The fields up to the first nil optional one; after it, defaults or nil. */
  function TruncFill(fs: seq<Field>, info: MethodInfo, vs: seq<Value>): seq<Value>
    requires |fs| == |vs|
  {
    Fill(fs, info, vs[..ParamCount(fs, vs, 0)])
  }

  function NormFirst(fs: seq<Field>, vs: seq<Value>, n: nat): seq<Value>
    requires n <= |fs| == |vs|
  {
    seq(n, i requires 0 <= i < n => Norm(fs[i].typ, vs[i]))
  }

  /** The same, with each field that travels in the form it arrives in. */
  function Returned(fs: seq<Field>, info: MethodInfo, vs: seq<Value>): seq<Value>
    requires |fs| == |vs|
  {
    var k := ParamCount(fs, vs, 0);
    Fill(fs, info, NormFirst(fs, vs, k))
  }

  /** Every part of the type has a JSON image. */
  ghost predicate Portable(t: Type) {
    match t
    case TPtr(e) => Portable(e)
    case TSlice(_, e) => Portable(e)
    case TArray(_, _, e) => Portable(e)
    case TMap(_, e) => Portable(e)
    case TStruct(_, fs) => forall i :: 0 <= i < |fs| && fs[i].exported ==> !fs[i].anonymous && Portable(fs[i].typ)
    case TOther(_, _) => false
    case _ => true
  }

  /** No optional field that travels points at something JSON writes as null. */
  ghost predicate NoHiddenNull(fs: seq<Field>, vs: seq<Value>)
    requires |fs| == |vs|
  {
    forall i :: 0 <= i < ParamCount(fs, vs, 0) && fs[i].typ.TPtr? ==> !IsNull(vs[i])
  }

  // ----- Marshalling

  lemma {:induction false} PortableEncodes(t: Type, v: Value)
    requires Portable(t) && HasType(t, v)
    ensures Encode(t, v).Some?
    decreases t
  {
    match t
    case TPtr(e) => if v.VPtr? { PortableEncodes(e, v.v); }
    case TSlice(_, e) => if v.VSeq? { forall x | x in v.elems ensures Encode(e, x).Some? { PortableEncodes(e, x); } }
    case TArray(_, _, e) => forall x | x in v.elems ensures Encode(e, x).Some? { PortableEncodes(e, x); }
    case TMap(_, e) =>
      if v.VMap? {
        forall k | k in v.entries ensures Encode(e, v.entries[k]).Some? { PortableEncodes(e, v.entries[k]); }
      }
    case TStruct(_, fs) =>
      forall i | 0 <= i < |fs| && fs[i].exported ensures Encode(fs[i].typ, v.vals[i]).Some? {
        PortableEncodes(fs[i].typ, v.vals[i]);
      }
    case _ =>
  }

  lemma {:induction false} ParamsEncode(fs: seq<Field>, vs: seq<Value>, n: nat)
    requires n <= |fs| && Typed(fs, vs) && forall i :: 0 <= i < n ==> Portable(fs[i].typ)
    ensures EncodeParams(fs, vs, n).Some?
  {
    if n > 0 {
      PortableEncodes(fs[n-1].typ, vs[n-1]);
      ParamsEncode(fs, vs, n - 1);
    }
  }

  /** MarshalCmd succeeds on every non-nil registered command of portable types with a valid id. */
  lemma MarshalSucceeds(r: Maps, id: Id, cmd: Command)
    requires cmd.typ in r.methods && cmd.val.Some? && Typed(FieldsOf(cmd.typ), cmd.val.value) && IsValidIDType(id)
    requires forall i :: 0 <= i < |FieldsOf(cmd.typ)| ==> Portable(FieldsOf(cmd.typ)[i].typ)
    ensures Marshal(r, id, cmd).Ok?
  {
    ParamsEncode(FieldsOf(cmd.typ), cmd.val.value, ParamCount(FieldsOf(cmd.typ), cmd.val.value, 0));
  }

  /** Required fields always travel. */
  lemma RequiredTravel(fs: seq<Field>, info: MethodInfo, vs: seq<Value>)
    requires LaidOut(fs, info) && |vs| == |fs|
    ensures CheckNumParams(ParamCount(fs, vs, 0), info)
  {
  }

  // ----- The trip

  lemma {:induction false} ParamsReturn(fs: seq<Field>, vs: seq<Value>, js: seq<Json>, n: nat)
    requires n <= |js| <= |fs| && Typed(fs, vs) && forall i :: 0 <= i < |fs| ==> WellFormed(fs[i].typ)
    requires forall i :: 0 <= i < |js| ==> Encode(fs[i].typ, vs[i]) == Some(js[i])
    ensures DecodeParams(fs, js, n) == Ok(NormFirst(fs, vs, n))
  {
    hide Encode, Decode, Norm, HasType, WellFormed;
    if n > 0 {
      ParamsReturn(fs, vs, js, n - 1);
      RoundTrip(fs[n-1].typ, vs[n-1]);
      assert NormFirst(fs, vs, n) == NormFirst(fs, vs, n - 1) + [Norm(fs[n-1].typ, vs[n-1])];
    }
  }

  /** Whatever MarshalCmd produces, UnmarshalCmd accepts, and returns the command's normal form. */
  lemma WireRoundTrip(r: Maps, id: Id, cmd: Command)
    requires RegInv(r) && TypesWellFormed(r)
    requires cmd.val.Some? ==> Typed(FieldsOf(cmd.typ), cmd.val.value)
    requires Marshal(r, id, cmd).Ok?
    ensures cmd.typ in r.methods && cmd.val.Some? && r.methods[cmd.typ] in r.infos
    ensures forall m <- r.types :: r.infos[m].maxParams <= |FieldsOf(r.types[m])|
    ensures r.types.Keys == r.infos.Keys
    ensures var info := r.infos[r.methods[cmd.typ]];
      Unmarshal(r, Marshal(r, id, cmd).value)
      == Ok(Command(cmd.typ, Some(Returned(FieldsOf(cmd.typ), info, cmd.val.value))))
  {
    hide Encode, Decode, Norm, HasType, Scan, IsLayoutOf;
    InfosFit(r);
    var m := r.methods[cmd.typ];
    var fs, vs, info := FieldsOf(cmd.typ), cmd.val.value, r.infos[m];
    RegisteredIsLaidOut(r, m);
    RequiredTravel(fs, info, vs);
    var k := ParamCount(fs, vs, 0);
    EncodedLength(fs, vs, k);
    assert WellFormed(cmd.typ.elem);
    ParamsReturn(fs, vs, EncodeParams(fs, vs, k).value, k);
  }

  /** The trip is cut-and-fill exactly when the fields that travel are lossless. */
  lemma TripIsTruncFillIff(fs: seq<Field>, info: MethodInfo, vs: seq<Value>)
    requires Typed(fs, vs)
    ensures Returned(fs, info, vs) == TruncFill(fs, info, vs)
       <==> forall i :: 0 <= i < ParamCount(fs, vs, 0) ==> Lossless(fs[i].typ, vs[i])
  {
    hide HasType, Norm, Lossless, Filled;
    var k := ParamCount(fs, vs, 0);
    forall i | 0 <= i < k ensures Norm(fs[i].typ, vs[i]) == vs[i] <==> Lossless(fs[i].typ, vs[i]) {
      NormIff(fs[i].typ, vs[i]);
    }
    var a, b := Returned(fs, info, vs), TruncFill(fs, info, vs);
    assert forall i :: 0 <= i < k ==> a[i] == Norm(fs[i].typ, vs[i]) && b[i] == vs[i];
    if forall i :: 0 <= i < k ==> Lossless(fs[i].typ, vs[i]) {
      assert a == b;
    }
  }

  /**
   * From the registry's invariant alone: whatever a request holds, an
   * unmarshalled command fits its type, defaults included.
   */
  lemma UnmarshalledIsTyped(r: Maps, req: Request)
    requires RegInv(r) && TypesWellFormed(r)
    ensures r.types.Keys == r.infos.Keys && forall m <- r.types :: r.infos[m].maxParams <= |FieldsOf(r.types[m])|
    ensures Unmarshal(r, req).Ok? ==>
      var c := Unmarshal(r, req).value;
      req.method_ in r.types && c.typ == r.types[req.method_] && c.val.Some? && Typed(FieldsOf(c.typ), c.val.value)
  {
    hide Decode, HasType, Scan, IsLayoutOf, Zero;
    InfosFit(r);
    if Unmarshal(r, req).Ok? {
      var typ, info := r.types[req.method_], r.infos[req.method_];
      var fs, n := FieldsOf(typ), |req.params|;
      assert WellFormed(typ.elem);
      RegisteredIsLaidOut(r, req.method_);
      DecodedLength(fs, req.params, n);
      var vs := DecodeParams(fs, req.params, n).value;
      forall i | 0 <= i < |fs| ensures HasType(fs[i].typ, Fill(fs, info, vs)[i]) {
        if i < n {
          DecodeTyped(fs[i].typ, req.params[i]);
          assert Fill(fs, info, vs)[i] == vs[i];
        } else {
          ZeroHasType(fs[i].typ);
          assert Fill(fs, info, vs)[i] == Filled(fs, info, i);
        }
      }
    }
  }

  // ----- The normal form

  lemma {:induction false} CountBeyond(fs: seq<Field>, vs: seq<Value>, j: nat, k: nat)
    requires j <= k <= |fs| == |vs| && forall i :: j <= i < k ==> !StopsAt(fs[i], vs[i])
    ensures k <= ParamCount(fs, vs, j)
    decreases k - j
  {
    if j < k { CountBeyond(fs, vs, j + 1, k); }
  }

  /** A filled command is as long or longer, and keeps what was given. */
  lemma FillKeeps(fs: seq<Field>, info: MethodInfo, vs: seq<Value>)
    requires |fs| == |vs|
    ensures var ws := TruncFill(fs, info, vs); var k := ParamCount(fs, vs, 0);
      && |ws| == |fs| && (forall i :: 0 <= i < k ==> ws[i] == vs[i]) && k <= ParamCount(fs, ws, 0)
      && forall i :: k <= i < |fs| ==> ws[i] == Filled(fs, info, i)
  {
    hide Filled, Zero;
    var ws, k := TruncFill(fs, info, vs), ParamCount(fs, vs, 0);
    assert forall i :: 0 <= i < k ==> ws[i] == vs[i];
    CountBeyond(fs, ws, 0, k);
  }

  /** Cutting and filling twice is doing it once. */
  lemma TruncFillIdempotent(fs: seq<Field>, info: MethodInfo, vs: seq<Value>)
    requires |fs| == |vs|
    ensures TruncFill(fs, info, TruncFill(fs, info, vs)) == TruncFill(fs, info, vs)
  {
    FillKeeps(fs, info, vs);
    FillKeeps(fs, info, TruncFill(fs, info, vs));
    assert TruncFill(fs, info, TruncFill(fs, info, vs)) == TruncFill(fs, info, vs);
  }

  lemma {:induction false} SameFields(fs: seq<Field>, vs: seq<Value>, ws: seq<Value>, n: nat)
    requires n <= |fs| == |vs| == |ws|
    requires forall i :: 0 <= i < |fs| && fs[i].exported ==>
      Encode(fs[i].typ, vs[i]).Some? && Encode(fs[i].typ, ws[i]) == Encode(fs[i].typ, vs[i])
    ensures EncodeFields(fs, ws, n) == EncodeFields(fs, vs, n)
  {
    if n > 0 { SameFields(fs, vs, ws, n - 1); }
  }

  /** A value and its normal form are one document. */
  lemma {:induction false} NormEncodes(t: Type, v: Value)
    requires WellFormed(t) && HasType(t, v) && Encode(t, v).Some?
    ensures Encode(t, Norm(t, v)) == Encode(t, v)
    decreases t, 0
  {
    match t
    case TPtr(e) =>
      if v.VPtr? {
        NullIff(e, v.v);
        if !IsNull(v.v) { NormEncodes(e, v.v); }
      }
    case TSlice(_, e) => if v.VSeq? { ElementsNormEncode(e, v.elems); }
    case TArray(_, _, e) => ElementsNormEncode(e, v.elems);
    case TMap(_, e) =>
      if v.VMap? {
        forall k | k in v.entries ensures Encode(e, Norm(e, v.entries[k])) == Encode(e, v.entries[k]) {
          NormEncodes(e, v.entries[k]);
        }
        assert Encode(t, Norm(t, v)).value.members == Encode(t, v).value.members;
      }
    case TStruct(_, fs) =>
      forall i | 0 <= i < |fs| && fs[i].exported
        ensures Encode(fs[i].typ, Norm(fs[i].typ, v.vals[i])) == Encode(fs[i].typ, v.vals[i])
      {
        NormEncodes(fs[i].typ, v.vals[i]);
      }
      SameFields(fs, v.vals, Norm(t, v).vals, |fs|);
    case _ =>
  }

  lemma {:induction false} ElementsNormEncode(e: Type, vs: seq<Value>)
    requires WellFormed(e) && (forall x <- vs :: HasType(e, x)) && EncodeAll(e, vs).Some?
    ensures EncodeAll(e, NormAll(e, vs)) == EncodeAll(e, vs)
    decreases e, 1
  {
    var ws := NormAll(e, vs);
    forall i | 0 <= i < |vs| ensures Encode(e, ws[i]) == Encode(e, vs[i]) && Encode(e, vs[i]).Some? {
      assert vs[i] in vs;
      NormEncodes(e, vs[i]);
    }
    assert EncodeAll(e, ws).Some?;
    assert EncodeAll(e, ws).value.elems == EncodeAll(e, vs).value.elems;
  }

  // ----- A second trip

  /** What the returned command holds, and how many of its fields would travel. */
  lemma ReturnedHolds(fs: seq<Field>, info: MethodInfo, vs: seq<Value>)
    requires Typed(fs, vs)
    ensures var ws := Returned(fs, info, vs); var k := ParamCount(fs, vs, 0);
      && |ws| == |fs|
      && (forall i :: 0 <= i < k ==> ws[i] == Norm(fs[i].typ, vs[i]))
      && (forall i :: k <= i < |fs| ==> ws[i] == Filled(fs, info, i))
      && (NoHiddenNull(fs, vs) <==> k <= ParamCount(fs, ws, 0))
  {
    hide Filled;
    var ws, k := Returned(fs, info, vs), ParamCount(fs, vs, 0);
    assert forall i :: 0 <= i < k ==> ws[i] == Norm(fs[i].typ, vs[i]);
    if NoHiddenNull(fs, vs) {
      CountBeyond(fs, ws, 0, k);
    }
  }

  /**
   * Marshalling what came back only appends parameters, unless an
   * optional field was a hidden null: then it loses some.
   */
  lemma ReencodingExtendsIff(fs: seq<Field>, info: MethodInfo, vs: seq<Value>)
    requires Typed(fs, vs) && forall i :: 0 <= i < |fs| ==> WellFormed(fs[i].typ)
    requires EncodeParams(fs, vs, ParamCount(fs, vs, 0)).Some?
    ensures |Returned(fs, info, vs)| == |fs|
    ensures var ws := Returned(fs, info, vs);
      var first, second := EncodeParams(fs, vs, ParamCount(fs, vs, 0)), EncodeParams(fs, ws, ParamCount(fs, ws, 0));
      second.Some? ==> (IsPrefix(first.value, second.value) <==> NoHiddenNull(fs, vs))
  {
    hide HasType, WellFormed, Encode, Norm, Filled;
    var ws, k := Returned(fs, info, vs), ParamCount(fs, vs, 0);
    ReturnedHolds(fs, info, vs);
    var n := ParamCount(fs, ws, 0);
    EncodedLength(fs, vs, k);
    if EncodeParams(fs, ws, n).Some? {
      EncodedLength(fs, ws, n);
      var first, second := EncodeParams(fs, vs, k).value, EncodeParams(fs, ws, n).value;
      forall i | 0 <= i < k && i < n ensures first[i] == second[i] {
        NormEncodes(fs[i].typ, vs[i]);
      }
      if k <= n { assert first == second[..k]; }
    }
  }

  /**
   * Field `i` on the second trip: a default that travels now is
   * lossless, and one cut off now is filled with what it was.
   */
  ghost predicate SurvivesAt(fs: seq<Field>, info: MethodInfo, vs: seq<Value>, k: nat, n: nat, i: nat)
    requires i < |fs| == |vs|
  {
    && (k <= i < n && i in info.defaults ==> Lossless(fs[i].typ, info.defaults[i]))
    && (n <= i < k ==> Norm(fs[i].typ, vs[i]) == Filled(fs, info, i))
  }

  lemma ReturnedTyped(fs: seq<Field>, info: MethodInfo, vs: seq<Value>)
    requires LaidOut(fs, info) && Typed(fs, vs) && forall i :: 0 <= i < |fs| ==> WellFormed(fs[i].typ)
    ensures Typed(fs, Returned(fs, info, vs))
  {
    hide WellFormed, Norm, HasType;
    ReturnedHolds(fs, info, vs);
    var ws, k := Returned(fs, info, vs), ParamCount(fs, vs, 0);
    forall i | 0 <= i < |fs| ensures HasType(fs[i].typ, ws[i]) {
      if i < k { NormTyped(fs[i].typ, vs[i]); } else { ZeroHasType(fs[i].typ); }
    }
  }

  lemma SecondTripAt(fs: seq<Field>, info: MethodInfo, vs: seq<Value>, i: nat)
    requires LaidOut(fs, info) && Typed(fs, vs) && forall i :: 0 <= i < |fs| ==> WellFormed(fs[i].typ)
    requires i < |fs|
    ensures var ws := Returned(fs, info, vs);
      && |ws| == |fs| == |Returned(fs, info, ws)|
      && (Returned(fs, info, ws)[i] == ws[i] <==>
          SurvivesAt(fs, info, vs, ParamCount(fs, vs, 0), ParamCount(fs, ws, 0), i))
  {
    hide WellFormed, Norm, Lossless, HasType, Returned;
    var ws, k := Returned(fs, info, vs), ParamCount(fs, vs, 0);
    ReturnedHolds(fs, info, vs);
    ReturnedTyped(fs, info, vs);
    ReturnedHolds(fs, info, ws);
    var n := ParamCount(fs, ws, 0);
    if i < n {
      NormIff(fs[i].typ, ws[i]);
      if i < k { NormTyped(fs[i].typ, vs[i]); } else { assert fs[i].typ.TPtr?; }
    }
  }

  /** An optional field that is nil after one trip: a hidden null that travels, or one filled with nil behind those. */
  predicate ArrivesNil(fs: seq<Field>, info: MethodInfo, vs: seq<Value>, i: nat)
    requires i < |fs| == |vs|
  {
    fs[i].typ.TPtr? && if i < ParamCount(fs, vs, 0) then IsNull(vs[i]) else Filled(fs, info, i) == VNil
  }

  /** The first such field from `i` on, or the number of fields. */
  function FirstNil(fs: seq<Field>, info: MethodInfo, vs: seq<Value>, i: nat): (n: nat)
    requires i <= |fs| == |vs|
    ensures i <= n <= |fs|
    ensures forall j :: i <= j < n ==> !ArrivesNil(fs, info, vs, j)
    ensures n < |fs| ==> ArrivesNil(fs, info, vs, n)
    decreases |fs| - i
  {
    if i < |fs| && !ArrivesNil(fs, info, vs, i) then FirstNil(fs, info, vs, i + 1) else i
  }

  lemma ArrivesStops(fs: seq<Field>, info: MethodInfo, vs: seq<Value>, i: nat)
    requires Typed(fs, vs) && i < |fs|
    ensures |Returned(fs, info, vs)| == |fs|
    ensures StopsAt(fs[i], Returned(fs, info, vs)[i]) <==> ArrivesNil(fs, info, vs, i)
  {
    hide Filled;
    ReturnedHolds(fs, info, vs);
  }

  /** The parameters of the second trip end there. */
  lemma SecondCount(fs: seq<Field>, info: MethodInfo, vs: seq<Value>)
    requires Typed(fs, vs)
    ensures |Returned(fs, info, vs)| == |fs|
    ensures ParamCount(fs, Returned(fs, info, vs), 0) == FirstNil(fs, info, vs, 0)
  {
    hide HasType, Returned, StopsAt, ArrivesNil;
    ReturnedHolds(fs, info, vs);
    forall i | 0 <= i < |fs| ensures StopsAt(fs[i], Returned(fs, info, vs)[i]) <==> ArrivesNil(fs, info, vs, i) {
      ArrivesStops(fs, info, vs, i);
    }
  }

  /**
   * A second trip changes nothing exactly when each field survives it, the fields that travel
   * then ending before the first one that arrived as nil.
   */
  lemma SecondTripIff(fs: seq<Field>, info: MethodInfo, vs: seq<Value>)
    requires LaidOut(fs, info) && Typed(fs, vs) && forall i :: 0 <= i < |fs| ==> WellFormed(fs[i].typ)
    ensures |Returned(fs, info, vs)| == |fs|
    ensures var ws := Returned(fs, info, vs);
      Returned(fs, info, ws) == ws
      <==> forall i :: 0 <= i < |fs| ==> SurvivesAt(fs, info, vs, ParamCount(fs, vs, 0), FirstNil(fs, info, vs, 0), i)
  {
    hide WellFormed, HasType, SurvivesAt, LaidOut, Returned, ArrivesNil;
    SecondCount(fs, info, vs);
    ReturnedTyped(fs, info, vs);
    var ws := Returned(fs, info, vs);
    ReturnedHolds(fs, info, vs);
    ReturnedHolds(fs, info, ws);
    var us, k, n := Returned(fs, info, ws), ParamCount(fs, vs, 0), ParamCount(fs, ws, 0);
    forall i | 0 <= i < |fs| ensures us[i] == ws[i] <==> SurvivesAt(fs, info, vs, k, n, i) {
      SecondTripAt(fs, info, vs, i);
    }
    if forall i :: 0 <= i < |fs| ==> SurvivesAt(fs, info, vs, k, n, i) {
      assert us == ws;
    }
  }

  /** Without hidden nulls and with lossless defaults, once over the wire is as good as twice. */
  lemma TripIdempotent(fs: seq<Field>, info: MethodInfo, vs: seq<Value>)
    requires LaidOut(fs, info) && Typed(fs, vs) && forall i :: 0 <= i < |fs| ==> WellFormed(fs[i].typ)
    requires NoHiddenNull(fs, vs) && forall i <- info.defaults :: Lossless(fs[i].typ, info.defaults[i])
    ensures |Returned(fs, info, vs)| == |fs| && Returned(fs, info, Returned(fs, info, vs)) == Returned(fs, info, vs)
  {
    hide WellFormed, HasType, Returned, Lossless, ArrivesNil;
    ReturnedHolds(fs, info, vs);
    SecondCount(fs, info, vs);
    SecondTripIff(fs, info, vs);
  }

  /** A command of an optional slice and an optional flag, the slice given as a pointer to nil. */
  function TwoOptional(slice: Type, flag: Type): seq<Field> {
    [Field("A", TPtr(slice), false, true, NoDefault, ""), Field("B", TPtr(flag), false, true, NoDefault, "")]
  }

  const NO_DEFAULTS := MethodInfo(2, 0, 2, map[], 0, "")

  const HIDDEN_NULL := [VPtr(VNil), VPtr(VBool(true))]

  lemma HiddenNullFits(slice: Type, flag: Type)
    requires slice.TSlice? && flag.TBool?
    ensures LaidOut(TwoOptional(slice, flag), NO_DEFAULTS) && Typed(TwoOptional(slice, flag), HIDDEN_NULL)
  {
    assert HasType(slice, VNil) && HasType(flag, VBool(true));
  }

  /** The failing case: the first trip makes the slice nil, and the second then drops the flag after it. */
  lemma HiddenNullLosesParameters(slice: Type, flag: Type)
    requires slice.TSlice? && flag.TBool?
    ensures LaidOut(TwoOptional(slice, flag), NO_DEFAULTS) && Typed(TwoOptional(slice, flag), HIDDEN_NULL)
    ensures var once := Returned(TwoOptional(slice, flag), NO_DEFAULTS, HIDDEN_NULL);
      once == [VNil, VPtr(VBool(true))] && Returned(TwoOptional(slice, flag), NO_DEFAULTS, once) == [VNil, VNil]
  {
    hide HasType;
    HiddenNullFits(slice, flag);
    var fs, ws := TwoOptional(slice, flag), [VNil, VPtr(VBool(true))];
    CountBeyond(fs, HIDDEN_NULL, 0, 2);
    assert ParamCount(fs, ws, 0) == 0;
    assert Norm(fs[0].typ, VPtr(VNil)) == VNil;
    assert Norm(fs[1].typ, VPtr(VBool(true))) == VPtr(VBool(true));
    assert NormFirst(fs, HIDDEN_NULL, 2) == ws;
    assert Fill(fs, NO_DEFAULTS, ws) == ws;
    assert NormFirst(fs, ws, 0) == [];
    assert forall i :: 0 <= i < 2 ==> Filled(fs, NO_DEFAULTS, i) == VNil;
    assert Fill(fs, NO_DEFAULTS, []) == [VNil, VNil];
  }
}

/**
 * encoding/json on those types, at the level of documents rather than text, and
 * the law of the pair: decoding an encoded value gives the value back except where
 * a pointer points at something that encodes as null, or a field is unexported.
 */
module JsonCodec {
  import opened Basics
  import opened GoValues
  import Correlation

  /** json.Marshal, or None where it fails or the type has no image in this model. */
  function Encode(t: Type, v: Value): Option<Json>
    decreases t, 0
  {
    match t
    case TBool(_) => if v.VBool? then Some(JBool(v.b)) else None
    case TInt(_, _) => if v.VInt? then Some(JNum(Integer(v.n))) else None
    case TUint(_, _) => if v.VInt? then Some(JNum(Integer(v.n))) else None
    case TFloat(_, _) => if v.VFloat? then Some(JNum(Real(v.r))) else None
    case TString(_) => if v.VStr? then Some(JStr(v.s)) else None
    case TPtr(e) => if v == VNil then Some(JNull) else if v.VPtr? then Encode(e, v.v) else None
    case TSlice(_, e) => if v == VNil then Some(JNull) else if v.VSeq? then EncodeAll(e, v.elems) else None
    case TArray(_, _, e) => if v.VSeq? then EncodeAll(e, v.elems) else None
    case TMap(_, e) =>
      if v == VNil then Some(JNull)
      else if v.VMap? && forall k <- v.entries :: Encode(e, v.entries[k]).Some?
      then Some(JObj(map k | k in v.entries :: Encode(e, v.entries[k]).value))
      else None
    case TStruct(_, fs) =>
      if && v.VStruct? && |v.vals| == |fs|
         && forall i :: 0 <= i < |fs| && fs[i].exported ==> !fs[i].anonymous && Encode(fs[i].typ, v.vals[i]).Some?
      then Some(JObj(EncodeFields(fs, v.vals, |fs|)))
      else None
    case TOther(_, _) => None
  }

  function EncodeAll(e: Type, vs: seq<Value>): Option<Json>
    decreases e, 1
  {
    if forall x <- vs :: Encode(e, x).Some?
    then Some(JArr(seq(|vs|, i requires 0 <= i < |vs| => Encode(e, vs[i]).value)))
    else None
  }

  /** The members for the first `n` fields: exported ones only, under their names. */
  function EncodeFields(fs: seq<Field>, vals: seq<Value>, n: nat): map<string, Json>
    requires n <= |fs| == |vals|
    requires forall i :: 0 <= i < n && fs[i].exported ==> Encode(fs[i].typ, vals[i]).Some?
    decreases fs, n
  {
    if n == 0 then map[]
    else if fs[n-1].exported then EncodeFields(fs, vals, n - 1)[fs[n-1].name := Encode(fs[n-1].typ, vals[n-1]).value]
    else EncodeFields(fs, vals, n - 1)
  }

  /** The float64 an integer literal is read as. */
  function FloatOf(n: int): real {
    if n < 0 then -(Correlation.Round(-n) as real) else Correlation.Round(n) as real
  }

  function DecodeInt(t: Type, j: Json): Option<Value> {
    if j.JNum? && j.num.Integer? && InRange(t, j.num.n) then Some(VInt(j.num.n)) else None
  }

  /** json.Unmarshal into a fresh variable of type `t`: null leaves it zero. */
  function Decode(t: Type, j: Json): Option<Value>
    decreases t, 0
  {
    if j == JNull then Some(Zero(t)) else
    match t
    case TBool(_) => if j.JBool? then Some(VBool(j.b)) else None
    case TInt(_, _) => DecodeInt(t, j)
    case TUint(_, _) => DecodeInt(t, j)
    case TFloat(_, _) =>
      if j.JNum? then Some(VFloat(if j.num.Real? then j.num.r else FloatOf(j.num.n))) else None
    case TString(_) => if j.JStr? then Some(VStr(j.s)) else None
    case TPtr(e) => (match Decode(e, j) case Some(v) => Some(VPtr(v)) case None => None)
    case TSlice(_, e) => if j.JArr? then DecodeAll(e, j.elems) else None
    case TArray(_, len, e) =>
      if !j.JArr? then None else
      var n := if |j.elems| < len then |j.elems| else len;
      (match DecodeAll(e, j.elems[..n])
       case Some(v) => if v.VSeq? then Some(VSeq(v.elems + seq(len - n, i => Zero(e)))) else None
       case None => None)
    case TMap(_, e) =>
      if j.JObj? && forall k <- j.members :: Decode(e, j.members[k]).Some?
      then Some(VMap(map k | k in j.members :: Decode(e, j.members[k]).value))
      else None
    case TStruct(_, fs) =>
      if j.JObj? && forall i :: 0 <= i < |fs| && fs[i].exported && fs[i].name in j.members ==>
          Decode(fs[i].typ, j.members[fs[i].name]).Some?
      then Some(VStruct(seq(|fs|, i requires 0 <= i < |fs| =>
        if fs[i].exported && fs[i].name in j.members then Decode(fs[i].typ, j.members[fs[i].name]).value
            else Zero(fs[i].typ))))
      else None
    case TOther(_, _) => None
  }

  function DecodeAll(e: Type, js: seq<Json>): Option<Value>
    decreases e, 1
  {
    if forall x <- js :: Decode(e, x).Some?
    then Some(VSeq(seq(|js|, i requires 0 <= i < |js| => Decode(e, js[i]).value)))
    else None
  }

  // ----- What survives the trip

  /** Values that encode as null. */
  predicate IsNull(v: Value) {
    v == VNil || (v.VPtr? && IsNull(v.v))
  }

  /** What a value comes back as. */
  function Norm(t: Type, v: Value): Value
    decreases t, 0
  {
    match t
    case TPtr(e) => if v.VPtr? && !IsNull(v.v) then VPtr(Norm(e, v.v)) else VNil
    case TSlice(_, e) => if v.VSeq? then VSeq(NormAll(e, v.elems)) else v
    case TArray(_, _, e) => if v.VSeq? then VSeq(NormAll(e, v.elems)) else v
    case TMap(_, e) => if v.VMap? then VMap(map k | k in v.entries :: Norm(e, v.entries[k])) else v
    case TStruct(_, fs) =>
      if v.VStruct? && |v.vals| == |fs|
      then VStruct(seq(|fs|, i requires 0 <= i < |fs| => if fs[i].exported then Norm(fs[i].typ, v.vals[i])
          else Zero(fs[i].typ)))
      else v
    case _ => v
  }

  function NormAll(e: Type, vs: seq<Value>): (r: seq<Value>)
    ensures |r| == |vs|
    decreases e, 1
  {
    seq(|vs|, i requires 0 <= i < |vs| => Norm(e, vs[i]))
  }

  /** No pointer inside leads to something that encodes as null, and unexported fields are zero. */
  ghost predicate Lossless(t: Type, v: Value)
    decreases t
  {
    match t
    case TPtr(e) => v.VPtr? ==> !IsNull(v.v) && Lossless(e, v.v)
    case TSlice(_, e) => v.VSeq? ==> forall x <- v.elems :: Lossless(e, x)
    case TArray(_, _, e) => v.VSeq? ==> forall x <- v.elems :: Lossless(e, x)
    case TMap(_, e) => v.VMap? ==> forall k <- v.entries :: Lossless(e, v.entries[k])
    case TStruct(_, fs) => v.VStruct? && |v.vals| == |fs| ==>
      forall i :: 0 <= i < |fs| ==> if fs[i].exported then Lossless(fs[i].typ, v.vals[i])
          else v.vals[i] == Zero(fs[i].typ)
    case _ => true
  }

  /** The document of a value, kind by kind; null is a document of every type, the zero value. */
  lemma EncodeExact(t: Type, v: Value)
    requires HasType(t, v)
    ensures t.TBool? ==> Encode(t, v) == Some(JBool(v.b))
    ensures t.TInt? || t.TUint? ==> Encode(t, v) == Some(JNum(Integer(v.n)))
    ensures t.TFloat? ==> Encode(t, v) == Some(JNum(Real(v.r)))
    ensures t.TString? ==> Encode(t, v) == Some(JStr(v.s))
    ensures (t.TPtr? || t.TSlice? || t.TMap?) && v == VNil ==> Encode(t, v) == Some(JNull)
    ensures t.TPtr? && v.VPtr? ==> Encode(t, v) == Encode(t.elem, v.v)
    ensures (t.TSlice? || t.TArray?) && v.VSeq? && Encode(t, v).Some? ==>
      && Encode(t, v).value.JArr? && |Encode(t, v).value.elems| == |v.elems|
      && forall i :: 0 <= i < |v.elems| ==> Encode(t.elem, v.elems[i]) == Some(Encode(t, v).value.elems[i])
    ensures t.TMap? && v.VMap? && Encode(t, v).Some? ==>
      && Encode(t, v).value.JObj? && Encode(t, v).value.members.Keys == v.entries.Keys
      && forall k <- v.entries :: Encode(t.elem, v.entries[k]) == Some(Encode(t, v).value.members[k])
    ensures Decode(t, JNull) == Some(Zero(t))
  {
  }

  lemma {:induction false} NullIff(t: Type, v: Value)
    requires HasType(t, v) && Encode(t, v).Some?
    ensures Encode(t, v).value == JNull <==> IsNull(v)
  {
    match t
    case TPtr(e) => if v.VPtr? { NullIff(e, v.v); }
    case _ =>
  }

  lemma {:induction false} FieldsEncode(fs: seq<Field>, vals: seq<Value>, n: nat)
    requires n <= |fs| == |vals|
    requires forall i, j :: 0 <= i < j < |fs| ==> fs[i].name != fs[j].name
    requires forall i :: 0 <= i < n && fs[i].exported ==> Encode(fs[i].typ, vals[i]).Some?
    ensures var m := EncodeFields(fs, vals, n);
      && (forall i :: 0 <= i < n && fs[i].exported ==>
            fs[i].name in m && m[fs[i].name] == Encode(fs[i].typ, vals[i]).value)
      && (forall k <- m :: exists i :: 0 <= i < n && fs[i].exported && fs[i].name == k)
    decreases n
  {
    hide Encode;
    if n > 0 {
      FieldsEncode(fs, vals, n - 1);
      var m := EncodeFields(fs, vals, n);
      forall k | k in m ensures exists i :: 0 <= i < n && fs[i].exported && fs[i].name == k {
        if fs[n-1].exported && fs[n-1].name == k {
        } else {
          assert k in EncodeFields(fs, vals, n - 1);
        }
      }
    }
  }

  /** The codec law: what was encoded decodes to its normal form. */
  lemma {:induction false} RoundTrip(t: Type, v: Value)
    requires WellFormed(t) && HasType(t, v) && Encode(t, v).Some?
    ensures Decode(t, Encode(t, v).value) == Some(Norm(t, v))
    decreases t, 0
  {
    var j := Encode(t, v).value;
    NullIff(t, v);
    match t
    case TPtr(e) => if v.VPtr? && !IsNull(v.v) { RoundTrip(e, v.v); }
    case TSlice(_, e) => if v.VSeq? { ElementsRoundTrip(e, v.elems); }
    case TArray(_, len, e) =>
      ElementsRoundTrip(e, v.elems);
      assert j.elems[..len] == j.elems;
      assert NormAll(e, v.elems) + seq(0, i => Zero(e)) == NormAll(e, v.elems);
    case TMap(_, e) =>
      if v.VMap? {
        forall k | k in v.entries ensures Decode(e, j.members[k]) == Some(Norm(e, v.entries[k])) {
          RoundTrip(e, v.entries[k]);
        }
        assert Decode(t, j).value.entries == Norm(t, v).entries;
      }
    case TStruct(_, fs) => StructRoundTrip(t, v);
    case _ =>
  }

  lemma {:induction false} StructRoundTrip(t: Type, v: Value)
    requires t.TStruct? && WellFormed(t) && HasType(t, v) && Encode(t, v).Some?
    ensures Decode(t, Encode(t, v).value) == Some(Norm(t, v))
    decreases t.fields, 1
  {
    var fs, j := t.fields, Encode(t, v).value;
    FieldsEncode(fs, v.vals, |fs|);
    forall i | 0 <= i < |fs| && fs[i].exported
      ensures fs[i].name in j.members && Decode(fs[i].typ, j.members[fs[i].name]) == Some(Norm(fs[i].typ, v.vals[i]))
    {
      RoundTrip(fs[i].typ, v.vals[i]);
    }
    assert Decode(t, j).value.vals == Norm(t, v).vals;
  }

  lemma {:induction false} ElementsRoundTrip(e: Type, vs: seq<Value>)
    requires WellFormed(e) && (forall x <- vs :: HasType(e, x)) && EncodeAll(e, vs).Some?
    ensures EncodeAll(e, vs).value.JArr?
    ensures DecodeAll(e, EncodeAll(e, vs).value.elems) == Some(VSeq(NormAll(e, vs)))
    decreases e, 1
  {
    var js := EncodeAll(e, vs).value.elems;
    forall i | 0 <= i < |vs| ensures Decode(e, js[i]) == Some(Norm(e, vs[i])) {
      assert vs[i] in vs;
      RoundTrip(e, vs[i]);
    }
    assert DecodeAll(e, js).value.elems == NormAll(e, vs);
  }

  // ----- The normal form

  /** A value comes back unchanged exactly when nothing in it is lossy. */
  lemma {:induction false} NormIff(t: Type, v: Value)
    requires HasType(t, v)
    ensures Norm(t, v) == v <==> Lossless(t, v)
    decreases t, 0
  {
    match t
    case TPtr(e) => if v.VPtr? { NormIff(e, v.v); }
    case TSlice(_, e) => if v.VSeq? { ElementsNormIff(e, v.elems); }
    case TArray(_, _, e) => ElementsNormIff(e, v.elems);
    case TMap(_, e) =>
      if v.VMap? {
        forall k | k in v.entries ensures Norm(e, v.entries[k]) == v.entries[k] <==> Lossless(e, v.entries[k]) {
          NormIff(e, v.entries[k]);
        }
        if Norm(t, v) == v {
          assert forall k <- v.entries :: Norm(t, v).entries[k] == v.entries[k];
        } else {
          assert Norm(t, v).entries != v.entries;
        }
      }
    case TStruct(_, fs) =>
      forall i | 0 <= i < |fs| ensures Norm(fs[i].typ, v.vals[i]) == v.vals[i] <==> Lossless(fs[i].typ, v.vals[i]) {
        NormIff(fs[i].typ, v.vals[i]);
      }
      if Norm(t, v) == v {
        assert forall i :: 0 <= i < |fs| ==> Norm(t, v).vals[i] == v.vals[i];
      } else {
        assert Norm(t, v).vals != v.vals;
      }
    case _ =>
  }

  lemma {:induction false} ElementsNormIff(e: Type, vs: seq<Value>)
    requires forall x <- vs :: HasType(e, x)
    ensures NormAll(e, vs) == vs <==> forall x <- vs :: Lossless(e, x)
    decreases e, 1
  {
    forall i | 0 <= i < |vs| ensures Norm(e, vs[i]) == vs[i] <==> Lossless(e, vs[i]) {
      assert vs[i] in vs;
      NormIff(e, vs[i]);
    }
    if forall x <- vs :: Lossless(e, x) {
      assert forall i :: 0 <= i < |vs| ==> vs[i] in vs;
    } else {
      var x :| x in vs && !Lossless(e, x);
      var i :| 0 <= i < |vs| && vs[i] == x;
      assert NormAll(e, vs)[i] != vs[i];
    }
  }

  lemma {:induction false} NormNull(v: Value, t: Type)
    requires HasType(t, v)
    ensures IsNull(Norm(t, v)) <==> IsNull(v)
  {
    match t
    case TPtr(e) => if v.VPtr? && !IsNull(v.v) { NormNull(v.v, e); }
    case _ =>
  }

  /** The normal form has the type and is lossless. */
  lemma {:induction false} NormTyped(t: Type, v: Value)
    requires WellFormed(t) && HasType(t, v)
    ensures HasType(t, Norm(t, v)) && Lossless(t, Norm(t, v))
    decreases t, 0
  {
    match t
    case TPtr(e) => if v.VPtr? && !IsNull(v.v) { NormTyped(e, v.v); NormNull(v.v, e); }
    case TSlice(_, e) => if v.VSeq? { ElementsNormTyped(e, v.elems); }
    case TArray(_, _, e) => ElementsNormTyped(e, v.elems);
    case TMap(_, e) =>
      if v.VMap? {
        forall k | k in v.entries
          ensures HasType(e, Norm(e, v.entries[k])) && Lossless(e, Norm(e, v.entries[k]))
        {
          NormTyped(e, v.entries[k]);
        }
      }
    case TStruct(_, fs) =>
      forall i | 0 <= i < |fs|
        ensures HasType(fs[i].typ, Norm(fs[i].typ, v.vals[i])) && Lossless(fs[i].typ, Norm(fs[i].typ, v.vals[i]))
        ensures HasType(fs[i].typ, Zero(fs[i].typ))
      {
        NormTyped(fs[i].typ, v.vals[i]);
        ZeroHasType(fs[i].typ);
      }
    case _ =>
  }

  lemma {:induction false} ElementsNormTyped(e: Type, vs: seq<Value>)
    requires WellFormed(e) && forall x <- vs :: HasType(e, x)
    ensures forall x <- NormAll(e, vs) :: HasType(e, x) && Lossless(e, x)
    decreases e, 1
  {
    forall i | 0 <= i < |vs| ensures HasType(e, NormAll(e, vs)[i]) && Lossless(e, NormAll(e, vs)[i]) {
      assert vs[i] in vs;
      NormTyped(e, vs[i]);
    }
  }

  // ----- Decoding is well typed

  lemma {:induction false} DecodeTyped(t: Type, j: Json)
    requires WellFormed(t) && Decode(t, j).Some?
    ensures HasType(t, Decode(t, j).value)
    decreases t, 0
  {
    ZeroHasType(t);
    if j != JNull {
      match t
      case TPtr(e) => DecodeTyped(e, j);
      case TSlice(_, e) => ElementsTyped(e, j.elems);
      case TArray(_, len, e) =>
        ZeroHasType(e);
        ElementsTyped(e, j.elems[..if |j.elems| < len then |j.elems| else len]);
      case TMap(_, e) =>
        forall k | k in j.members ensures HasType(e, Decode(e, j.members[k]).value) {
          DecodeTyped(e, j.members[k]);
        }
      case TStruct(_, fs) =>
        forall i | 0 <= i < |fs| ensures HasType(fs[i].typ, Decode(t, j).value.vals[i]) {
          ZeroHasType(fs[i].typ);
          if fs[i].exported && fs[i].name in j.members { DecodeTyped(fs[i].typ, j.members[fs[i].name]); }
        }
      case _ =>
    }
  }

  lemma {:induction false} ElementsTyped(e: Type, js: seq<Json>)
    requires WellFormed(e) && DecodeAll(e, js).Some?
    ensures DecodeAll(e, js).value.VSeq? && |DecodeAll(e, js).value.elems| == |js|
    ensures forall x <- DecodeAll(e, js).value.elems :: HasType(e, x)
    decreases e, 1
  {
    forall i | 0 <= i < |js| ensures HasType(e, DecodeAll(e, js).value.elems[i]) {
      assert js[i] in js;
      DecodeTyped(e, js[i]);
    }
  }
}

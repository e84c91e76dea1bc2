/**
 * The part of Go's type system that commands are made of, as the reflect package
 * shows it: types with their kinds and names, and the values of those types.
 */
module GoValues {
  import opened Basics

  /** A JSON document.  A number is an integer literal, or the literal a float was written as. */
  datatype Json =
    | JNull | JBool(b: bool) | JNum(num: Number) | JStr(s: string)
    | JArr(elems: seq<Json>) | JObj(members: map<string, Json>)

  datatype Number = Integer(n: int) | Real(r: real)

  /** Kinds whose values have no JSON image here. */
  datatype OtherKind = Chan | Func | Complex64 | Complex128 | Interface | Uintptr | UnsafePointer

  /** A type.  Named types of one shape differ by name, as int, int64 and a type defined as int64 do. */
  datatype Type =
    | TBool(name: string) | TInt(name: string, bits: nat) | TUint(name: string, bits: nat)
    | TFloat(name: string, bits: nat) | TString(name: string)
    | TPtr(elem: Type) | TSlice(name: string, elem: Type) | TArray(name: string, len: nat, elem: Type)
    | TMap(name: string, elem: Type) | TStruct(name: string, fields: seq<Field>)
    | TOther(name: string, kind: OtherKind)

  /** The `jsonrpcdefault` tag of a field: absent, not JSON, or a JSON document. */
  datatype DefaultTag = NoDefault | NotJson | Default(json: Json)

  datatype Field = Field(name: string, typ: Type, anonymous: bool, exported: bool, default: DefaultTag, usage: string)

  /** A value.  VNil is the nil pointer, slice or map; VSeq a slice or an array. */
  datatype Value =
    | VBool(b: bool) | VInt(n: int) | VFloat(r: real) | VStr(s: string)
    | VNil | VPtr(v: Value) | VSeq(elems: seq<Value>) | VMap(entries: map<string, Value>)
    | VStruct(vals: seq<Value>) | VOpaque

  /** The integers an N-bit integer kind holds. */
  predicate InRange(t: Type, n: int) {
    match t
    case TInt(_, bits) => bits > 0 && -(Pow2(bits - 1) as int) <= n < Pow2(bits - 1)
    case TUint(_, bits) => 0 <= n < Pow2(bits)
    case _ => false
  }

  ghost predicate HasType(t: Type, v: Value)
    decreases t
  {
    match t
    case TBool(_) => v.VBool?
    case TInt(_, _) => v.VInt? && InRange(t, v.n)
    case TUint(_, _) => v.VInt? && InRange(t, v.n)
    case TFloat(_, _) => v.VFloat?
    case TString(_) => v.VStr?
    case TPtr(e) => v == VNil || (v.VPtr? && HasType(e, v.v))
    case TSlice(_, e) => v == VNil || (v.VSeq? && forall x <- v.elems :: HasType(e, x))
    case TArray(_, len, e) => v.VSeq? && |v.elems| == len && forall x <- v.elems :: HasType(e, x)
    case TMap(_, e) => v == VNil || (v.VMap? && forall k <- v.entries :: HasType(e, v.entries[k]))
    case TStruct(_, fs) => v.VStruct? && |v.vals| == |fs| && forall i :: 0 <= i < |fs| ==> HasType(fs[i].typ, v.vals[i])
    case TOther(_, _) => v == VOpaque
  }

  /** The value a freshly allocated variable holds. */
  function Zero(t: Type): Value {
    match t
    case TBool(_) => VBool(false)
    case TInt(_, _) => VInt(0)
    case TUint(_, _) => VInt(0)
    case TFloat(_, _) => VFloat(0.0)
    case TString(_) => VStr("")
    case TPtr(_) => VNil
    case TSlice(_, _) => VNil
    case TArray(_, len, e) => VSeq(seq(len, i => Zero(e)))
    case TMap(_, _) => VNil
    case TStruct(_, fs) => VStruct(seq(|fs|, i requires 0 <= i < |fs| => Zero(fs[i].typ)))
    case TOther(_, _) => VOpaque
  }

  /** A type the language can build: integers of at most 64 bits, and structs whose fields have different names. */
  ghost predicate WellFormed(t: Type) {
    match t
    case TInt(_, bits) => 0 < bits <= 64
    case TUint(_, bits) => 0 < bits <= 64
    case TPtr(e) => WellFormed(e)
    case TSlice(_, e) => WellFormed(e)
    case TArray(_, _, e) => WellFormed(e)
    case TMap(_, e) => WellFormed(e)
    case TStruct(_, fs) =>
      && (forall i :: 0 <= i < |fs| ==> WellFormed(fs[i].typ))
      && (forall i, j :: 0 <= i < j < |fs| ==> fs[i].name != fs[j].name)
    case _ => true
  }

  lemma {:induction false} ZeroHasType(t: Type)
    requires WellFormed(t)
    ensures HasType(t, Zero(t))
  {
    match t
    case TArray(_, len, e) => ZeroHasType(e);
    case TStruct(_, fs) =>
      forall i | 0 <= i < |fs| ensures HasType(fs[i].typ, Zero(fs[i].typ)) {
        ZeroHasType(fs[i].typ);
      }
    case _ =>
  }
}

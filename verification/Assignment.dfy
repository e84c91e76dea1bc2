/**
 * `assignField`: putting an argument of any type into a command field of any type.
 * Pointers are created or followed as needed; between different base types the value
 * is converted, and an integer that does not fit is refused.
 */
module Assignment {
  import opened Basics
  import opened GoValues
  import opened JsonCodec

  /**
   * What strconv, encoding/json and the float kinds do with a
   * value.  An integer parser answers with an int64 or a uint64.
   */
  datatype Library = Library(
    parseBool: string -> Option<bool>,
    parseInt: string -> Option<int>,
    parseUint: string -> Option<int>,
    parseFloat: string -> Option<real>,
    parseJson: string -> Option<Json>,
    overflowsFloat: (nat, real) -> bool,
    asFloat: (nat, real) -> real)

  ghost predicate Sound(lib: Library) {
    && (forall s :: lib.parseInt(s).Some? ==> -(Pow2(63) as int) <= lib.parseInt(s).value < Pow2(63))
    && (forall s :: lib.parseUint(s).Some? ==> 0 <= lib.parseUint(s).value < Pow2(64))
  }

  /** The destination got a value; an error came back; nil came back but nothing was converted; the call panicked. */
  datatype Outcome = Assigned(v: Value) | Failed | Unset | Panicked

  // ----- Pointers

  function Pointers(n: nat, t: Type): Type {
    if n == 0 then t else TPtr(Pointers(n - 1, t))
  }

  function Base(t: Type): Type {
    if t.TPtr? then Base(t.elem) else t
  }

  function Depth(t: Type): nat {
    if t.TPtr? then Depth(t.elem) + 1 else 0
  }

  function Chain(n: nat, v: Value): Value {
    if n == 0 then v else VPtr(Chain(n - 1, v))
  }

  function Elem(v: Value): Option<Value> {
    if v.VPtr? then Some(v.v) else None
  }

  /** Following `n` pointers, or None once a nil one is met. */
  function Deref(v: Value, n: nat): Option<Value> {
    if n == 0 then Some(v) else if v.VPtr? then Deref(v.v, n - 1) else None
  }

  lemma {:induction false} PointersOfBase(t: Type)
    ensures t == Pointers(Depth(t), Base(t)) && !Base(t).TPtr?
  {
    if t.TPtr? { PointersOfBase(t.elem); }
  }

  lemma {:induction false} BaseOfPointers(n: nat, t: Type)
    requires !t.TPtr?
    ensures Depth(Pointers(n, t)) == n && Base(Pointers(n, t)) == t
  {
    if n > 0 { BaseOfPointers(n - 1, t); }
  }

  lemma {:induction false} DerefStep(v: Value, n: nat)
    ensures Deref(v, n + 1) == match Deref(v, n) case None => None case Some(w) => Elem(w)
  {
    if n > 0 && v.VPtr? { DerefStep(v.v, n - 1); }
  }

  lemma {:induction false} DerefNone(v: Value, i: nat, n: nat)
    requires i <= n && Deref(v, i) == None
    ensures Deref(v, n) == None
  {
    if i > 0 && v.VPtr? { DerefNone(v.v, i - 1, n - 1); }
  }

  lemma {:induction false} ChainSnoc(n: nat, v: Value)
    ensures Chain(n, VPtr(v)) == Chain(n + 1, v)
  {
    if n > 0 { ChainSnoc(n - 1, v); }
  }

  /** A chain followed to its end is that many pointers; followed part of the way, the rest of them. */
  lemma {:induction false} ChainDeref(v: Value, m: nat, n: nat)
    requires n <= m && Deref(v, m).Some?
    ensures v == Chain(m, Deref(v, m).value)
    ensures Deref(v, m - n) == Some(Chain(n, Deref(v, m).value))
  {
    if m > 0 {
      ChainDeref(v.v, m - 1, if n < m then n else m - 1);
    }
  }

  lemma {:induction false} ChainHasType(n: nat, t: Type, v: Value)
    requires HasType(t, v)
    ensures HasType(Pointers(n, t), Chain(n, v))
  {
    if n > 0 { ChainHasType(n - 1, t, v); }
  }

  lemma {:induction false} DerefHasType(t: Type, v: Value, n: nat)
    requires n <= Depth(t) && HasType(t, v) && Deref(v, n).Some?
    ensures HasType(Pointers(Depth(t) - n, Base(t)), Deref(v, n).value)
  {
    PointersOfBase(t);
    if n > 0 { DerefHasType(t.elem, v.v, n - 1); }
  }

  // ----- Kinds

  predicate IsInteger(t: Type) {
    t.TInt? || t.TUint?
  }

  predicate IsNumeric(t: Type) {
    t.TInt? || t.TUint? || t.TFloat?
  }

  predicate IsAggregate(t: Type) {
    t.TArray? || t.TSlice? || t.TStruct? || t.TMap?
  }

  predicate MaybeCompatible(dest: Type, src: Type) {
    || dest == src
    || (IsNumeric(dest) && IsNumeric(src))
    || (src.TString? && (IsNumeric(dest) || dest.TBool? || dest.TString? || IsAggregate(dest)))
  }

  // ----- Fixed-width arithmetic

  /** reflect.Value.OverflowInt: shifting up and back down loses something. */
  predicate OverflowInt(bits: nat, x: int)
    requires bits <= 64
  {
    ToInt64(x * Pow2(64 - bits)) / Pow2(64 - bits) != x
  }

  predicate OverflowUint(bits: nat, x: nat)
    requires bits <= 64
  {
    (x * Pow2(64 - bits)) % Pow2(64) / Pow2(64 - bits) != x
  }

  lemma Below(m: nat, q: nat, p: nat)
    requires m < q && p > 0
    ensures m * p < p * q
  {
    assert (q - m) * p > 0;
  }

  lemma Multiple(k: int, b: int)
    requires k >= 1 && b > 0
    ensures k * b >= b
  {
  }

  lemma Remainder(a: int, d: int, b: int, m: int)
    requires b > 0 && 0 <= m < b && a == d * b + m
    ensures a % b == m
  {
    var e := a / b;
    assert a == e * b + a % b;
    assert (d - e) * b == a % b - m;
    if d > e { Multiple(d - e, b); } else if d < e { Multiple(e - d, b); }
  }

  lemma ModScales(x: int, p: nat, q: nat)
    requires p > 0 && q > 0 && p * q > 0
    ensures (x * p) % (p * q) == (x % q) * p
  {
    var d, m := x / q, x % q;
    assert x * p == d * (p * q) + m * p by { assert x == d * q + m; }
    assert 0 <= m * p < p * q by { Below(m, q, p); }
    Remainder(x * p, d, p * q, m * p);
  }

  lemma DivScales(m: int, p: nat)
    requires p > 0
    ensures (m * p) / p == m
  {
    Remainder(m * p, m, p, 0);
    var e := m * p / p;
    assert (m - e) * p == 0;
    if m > e { Multiple(m - e, p); } else if m < e { Multiple(e - m, p); }
  }

  lemma Distribute(a: int, b: int, p: int)
    ensures (a - b) * p == a * p - p * b
  {
  }

  lemma AtLeast(m: nat, h: nat, p: nat)
    requires m >= h
    ensures m * p >= p * h
  {
    assert (m - h) * p >= 0;
  }

  lemma WrapScaled(x: int, p: nat, h: nat)
    requires p > 0 && h > 0 && p * (2 * h) > 0
    ensures var m, t := x % (2 * h), (x * p) % (p * (2 * h));
      (t >= p * h <==> m >= h) && t / p == m && (t - p * (2 * h)) / p == m - 2 * h
  {
    ModScales(x, p, 2 * h);
    var m := x % (2 * h);
    if m >= h { AtLeast(m, h, p); } else { Below(m, h, p); }
    DivScales(m, p);
    DivScales(m - 2 * h, p);
    Distribute(m, 2 * h, p);
  }

  /** Shifting a number up to the top of a 64-bit word and back down leaves its low bits, as a signed number. */
  lemma ShiftedInt(bits: nat, x: int)
    requires 0 < bits <= 64
    ensures var h := Pow2(bits - 1); var m := x % (2 * h);
      ToInt64(x * Pow2(64 - bits)) / Pow2(64 - bits) == if m >= h then m - 2 * h else m
  {
    hide Pow2;
    var p, h := Pow2(64 - bits), Pow2(bits - 1);
    Pow2Adds(64 - bits, bits - 1);
    Pow2Step(63);
    assert p * (2 * h) == 2 * (p * h);
    WrapScaled(x, p, h);
  }

  lemma Residue(x: int, h: nat)
    requires h > 0
    ensures -(h as int) <= x < h <==> x == if x % (2 * h) >= h then x % (2 * h) - 2 * h else x % (2 * h)
  {
    if 0 <= x < h { Remainder(x, 0, 2 * h, x); }
    if -(h as int) <= x < 0 { Remainder(x, -1, 2 * h, x + 2 * h); }
  }

  /** The shifts agree with the width: an integer overflows an N-bit signed kind exactly when it is out of its range. */
  lemma OverflowIntExact(bits: nat, x: int)
    requires 0 < bits <= 64
    ensures OverflowInt(bits, x) <==> !InRange(TInt("", bits), x)
  {
    hide Pow2, ToInt64;
    ShiftedInt(bits, x);
    Residue(x, Pow2(bits - 1));
  }

  lemma OverflowUintExact(bits: nat, x: nat)
    requires 0 < bits <= 64
    ensures OverflowUint(bits, x) <==> !InRange(TUint("", bits), x)
  {
    var p, q := Pow2(64 - bits), Pow2(bits);
    Pow2Adds(64 - bits, bits);
    ModScales(x, p, q);
    DivScales(x % q, p);
    if x < q { Remainder(x, 0, q, x); }
  }

  // ----- The conversions

  function AssignInt(dest: Type, n: int): Outcome
    requires dest.TInt? && dest.bits <= 64
  {
    if OverflowInt(dest.bits, n) then Failed else Assigned(VInt(n))
  }

  function AssignUint(dest: Type, n: nat): Outcome
    requires dest.TUint? && dest.bits <= 64
  {
    if OverflowUint(dest.bits, n) then Failed else Assigned(VInt(n))
  }

  function AssignFloat(lib: Library, dest: Type, r: real): Outcome
    requires dest.TFloat?
  {
    if lib.overflowsFloat(dest.bits, r) then Failed else Assigned(VFloat(lib.asFloat(dest.bits, r)))
  }

  predicate WidthsFit(t: Type) {
    (t.TInt? || t.TUint?) ==> t.bits <= 64
  }

  function FromInt(dest: Type, n: int): Outcome
    requires WidthsFit(dest)
  {
    match dest
    case TInt(_, _) => AssignInt(dest, n)
    case TUint(_, _) => if n < 0 then Failed else AssignUint(dest, n)
    case _ => Failed
  }

  function FromUint(dest: Type, n: nat): Outcome
    requires WidthsFit(dest)
  {
    match dest
    case TInt(_, _) => if n > Pow2(63) - 1 then Failed else AssignInt(dest, n)
    case TUint(_, _) => AssignUint(dest, n)
    case _ => Failed
  }

  /** The string cases; a kind without a case leaves the destination alone.  A JSON null makes the final Set panic. */
  function FromString(lib: Library, dest: Type, s: string): Outcome
    requires WidthsFit(dest)
  {
    match dest
    case TBool(_) => (match lib.parseBool(s) case Some(b) => Assigned(VBool(b)) case None => Failed)
    case TInt(_, _) => (match lib.parseInt(s) case Some(n) => AssignInt(dest, n) case None => Failed)
    case TUint(_, _) =>
      (match lib.parseUint(s) case Some(n) => if n < 0 then Failed else AssignUint(dest, n) case None => Failed)
    case TFloat(_, _) => (match lib.parseFloat(s) case Some(r) => AssignFloat(lib, dest, r) case None => Failed)
    case TString(_) => Assigned(VStr(s))
    case _ =>
      if !IsAggregate(dest) then Unset else
      match lib.parseJson(s)
      case None => Failed
      case Some(j) =>
        if j == JNull then Panicked else
        match Decode(dest, j) case Some(v) => Assigned(v) case None => Failed
  }

  /** The two-level switch, between base types. */
  function Convert(lib: Library, dest: Type, src: Type, v: Value): Outcome
    requires WidthsFit(dest)
  {
    match src
    case TInt(_, _) => if v.VInt? then FromInt(dest, v.n) else Failed
    case TUint(_, _) => if v.VInt? && v.n >= 0 then FromUint(dest, v.n) else Failed
    case TFloat(_, _) => if dest.TFloat? && v.VFloat? then AssignFloat(lib, dest, v.r) else Failed
    case TString(_) => if v.VStr? then FromString(lib, dest, v.s) else Failed
    case _ => Unset
  }

  function Assign(lib: Library, dest: Type, src: Type, v: Value): Outcome
    requires WidthsFit(Base(dest))
  {
    var d, s, n, m := Base(dest), Base(src), Depth(dest), Depth(src);
    if !MaybeCompatible(d, s) then Failed
    else if d == s then
      if m < n then Assigned(Chain(n - m, v))
      else match Deref(v, m - n) case Some(w) => Assigned(w) case None => Panicked
    else
      match Deref(v, m)
      case None => Unset
      case Some(w) =>
        match Convert(lib, d, s, w)
        case Assigned(x) => Assigned(Chain(n, x))
        case other => other
  }

  /** `baseType`: the type under all pointers, and how many there were. */
  method BaseType(arg: Type) returns (base: Type, numIndirects: nat)
    ensures arg == Pointers(numIndirects, base) && !base.TPtr?
    ensures base == Base(arg) && numIndirects == Depth(arg)
  {
    PointersOfBase(arg);
    base, numIndirects := arg, 0;
    while base.TPtr?
      invariant Base(base) == Base(arg) && Depth(base) + numIndirects == Depth(arg)
      decreases base
    {
      base, numIndirects := base.elem, numIndirects + 1;
    }
  }

  /** `assignField`; `made` counts the pointers created in front of the destination. */
  method AssignField(lib: Library, destType: Type, srcType: Type, arg: Value) returns (o: Outcome)
    requires WidthsFit(Base(destType))
    ensures o == Assign(lib, destType, srcType, arg)
  {
    hide Convert;
    var destBase, destIndirects := BaseType(destType);
    var srcBase, srcIndirects := BaseType(srcType);
    if !MaybeCompatible(destBase, srcBase) {
      return Failed;
    }
    var src := Some(arg);
    if destBase == srcBase && srcIndirects >= destIndirects {
      for i := 0 to srcIndirects - destIndirects
        invariant src == Deref(arg, i)
      {
        DerefStep(arg, i);
        if src == None {
          DerefNone(arg, i, srcIndirects - destIndirects);
          return Panicked;
        }
        src := Elem(src.value);
      }
      return if src.Some? then Assigned(src.value) else Panicked;
    }
    var made: nat := 0;
    var destIndirectsRemaining := destIndirects;
    if destIndirects > srcIndirects {
      for i := 0 to destIndirects - srcIndirects
        invariant made == i && destIndirectsRemaining == destIndirects - i
      {
        made := made + 1;
        destIndirectsRemaining := destIndirectsRemaining - 1;
      }
    }
    if destBase == srcBase {
      return Assigned(Chain(made, arg));
    }
    for i := 0 to destIndirectsRemaining
      invariant made == destIndirects - destIndirectsRemaining + i
    {
      made := made + 1;
    }
    var kind := srcType;
    ghost var followed: nat := 0;
    while kind.TPtr? && src.Some?
      invariant followed + Depth(kind) == Depth(srcType) && src == Deref(arg, followed)
      decreases kind
    {
      DerefStep(arg, followed);
      kind, src, followed := kind.elem, Elem(src.value), followed + 1;
    }
    if src == None {
      DerefNone(arg, followed, srcIndirects);
      return Unset;
    }
    o := Convert(lib, destBase, srcBase, src.value);
    if o.Assigned? {
      o := Assigned(Chain(made, o.v));
    }
  }
}

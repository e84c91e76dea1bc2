/**
 * What `assignField` promises: integers arrive exactly or not at all, the destination
 * is built to its declared pointer depth, and the prefilter and the switch agree.
 */
module AssignmentTheorems {
  import opened Basics
  import opened GoValues
  import opened JsonCodec
  import opened Assignment
  import Correlation

  lemma ConvertExact(lib: Library, d: Type, s: Type, n: int)
    requires WellFormed(d) && WellFormed(s) && IsInteger(d) && IsInteger(s) && InRange(s, n)
    ensures Convert(lib, d, s, VInt(n)) == if InRange(d, n) then Assigned(VInt(n)) else Failed
  {
    hide Pow2, OverflowInt, OverflowUint;
    Correlation.Pow2Grows(s.bits, 64);
    if d.TInt? {
      OverflowIntExact(d.bits, n);
      Correlation.Pow2Grows(d.bits - 1, 63);
    } else if n >= 0 {
      OverflowUintExact(d.bits, n);
    }
  }

  lemma {:induction false} ChainAdds(a: nat, b: nat, v: Value)
    ensures Chain(a, Chain(b, v)) == Chain(a + b, v)
  {
    if a > 0 { ChainAdds(a - 1, b, v); }
  }

  /**
   * Between integers of any widths and signs, behind any number of
   * pointers: representable values arrive, others are refused.
   */
  lemma IntegersExact(lib: Library, dest: Type, src: Type, v: Value, n: int)
    requires WellFormed(Base(dest)) && WellFormed(Base(src)) && IsInteger(Base(dest)) && IsInteger(Base(src))
    requires HasType(src, v) && Deref(v, Depth(src)) == Some(VInt(n))
    ensures Assign(lib, dest, src, v)
         == if InRange(Base(dest), n) then Assigned(Chain(Depth(dest), VInt(n))) else Failed
  {
    hide Pow2, Convert, WellFormed;
    var d, s, k, m := Base(dest), Base(src), Depth(dest), Depth(src);
    DerefHasType(src, v, m);
    PointersOfBase(src);
    if d == s {
      if m < k {
        ChainDeref(v, m, 0);
        ChainAdds(k - m, m, VInt(n));
      } else {
        ChainDeref(v, m, k);
      }
    } else {
      ConvertExact(lib, d, s, n);
    }
  }

  // ----- Every pair of kinds

  lemma BaseValues(t: Type, v: Value)
    requires HasType(t, v)
    ensures t.TInt? ==> v.VInt?
    ensures t.TUint? ==> v.VInt? && v.n >= 0
    ensures t.TFloat? ==> v.VFloat?
    ensures t.TString? ==> v.VStr?
  {
  }

  /** A string read as a document of type `d`; setting the result of a null panics. */
  function Document(lib: Library, d: Type, t: string): Outcome {
    match lib.parseJson(t)
    case None => Failed
    case Some(JNull) => Panicked
    case Some(j) => match Decode(d, j) case Some(v) => Assigned(v) case None => Failed
  }

  /** What a value of base type `s` arrives as in base type `d`, and when it does not. */
  function Arrives(lib: Library, d: Type, s: Type, w: Value): Outcome {
    if d == s then Assigned(w) else
    match (s, d, w)
    case (TInt(_, _), TInt(_, _), VInt(n)) => if InRange(d, n) then Assigned(VInt(n)) else Failed
    case (TInt(_, _), TUint(_, _), VInt(n)) => if InRange(d, n) then Assigned(VInt(n)) else Failed
    case (TUint(_, _), TInt(_, _), VInt(n)) => if InRange(d, n) then Assigned(VInt(n)) else Failed
    case (TUint(_, _), TUint(_, _), VInt(n)) => if InRange(d, n) then Assigned(VInt(n)) else Failed
    case (TFloat(_, _), TFloat(_, bits), VFloat(r)) =>
      if lib.overflowsFloat(bits, r) then Failed else Assigned(VFloat(lib.asFloat(bits, r)))
    case (TString(_), TBool(_), VStr(t)) =>
      (match lib.parseBool(t) case Some(b) => Assigned(VBool(b)) case None => Failed)
    case (TString(_), TInt(_, _), VStr(t)) =>
      (match lib.parseInt(t) case Some(n) => if InRange(d, n) then Assigned(VInt(n)) else Failed case None => Failed)
    case (TString(_), TUint(_, _), VStr(t)) =>
      (match lib.parseUint(t) case Some(n) => if InRange(d, n) then Assigned(VInt(n)) else Failed case None => Failed)
    case (TString(_), TFloat(_, bits), VStr(t)) =>
      (match lib.parseFloat(t)
       case Some(r) => if lib.overflowsFloat(bits, r) then Failed else Assigned(VFloat(lib.asFloat(bits, r)))
       case None => Failed)
    case (TString(_), TString(_), VStr(t)) => Assigned(VStr(t))
    case (TString(_), TSlice(_, _), VStr(t)) => Document(lib, d, t)
    case (TString(_), TArray(_, _, _), VStr(t)) => Document(lib, d, t)
    case (TString(_), TMap(_, _), VStr(t)) => Document(lib, d, t)
    case (TString(_), TStruct(_, _), VStr(t)) => Document(lib, d, t)
    case _ => Failed
  }

  lemma StringArrives(lib: Library, d: Type, s: Type, w: Value)
    requires WellFormed(d) && s.TString? && w.VStr? && d != s && !d.TPtr? && MaybeCompatible(d, s)
    ensures Convert(lib, d, s, w) == Arrives(lib, d, s, w)
  {
    hide Pow2, OverflowInt, OverflowUint, Decode;
    if d.TInt? && lib.parseInt(w.s).Some? {
      OverflowIntExact(d.bits, lib.parseInt(w.s).value);
    } else if d.TUint? && lib.parseUint(w.s).Some? && lib.parseUint(w.s).value >= 0 {
      OverflowUintExact(d.bits, lib.parseUint(w.s).value);
    }
  }

  lemma IntegerValue(s: Type, w: Value)
    requires IsInteger(s) && HasType(s, w)
    ensures w.VInt? && InRange(s, w.n)
  {
  }

  lemma ConvertArrives(lib: Library, d: Type, s: Type, w: Value)
    requires WellFormed(d) && WellFormed(s) && HasType(s, w) && d != s && !d.TPtr? && !s.TPtr? && MaybeCompatible(d, s)
    ensures Convert(lib, d, s, w) == Arrives(lib, d, s, w)
  {
    hide Pow2, OverflowInt, OverflowUint, Decode, InRange;
    BaseValues(s, w);
    if s.TString? {
      StringArrives(lib, d, s, w);
    } else if IsInteger(d) && IsInteger(s) {
      IntegerValue(s, w);
      ConvertExact(lib, d, s, w.n);
    }
  }

  lemma Incompatible(lib: Library, d: Type, s: Type, w: Value)
    requires !MaybeCompatible(d, s) && HasType(s, w)
    ensures Arrives(lib, d, s, w) == Failed
  {
    hide InRange;
    BaseValues(s, w);
  }

  /** The destination with all its pointers made, and at their end what arrives. */
  function Behind(n: nat, o: Outcome): Outcome {
    if o.Assigned? then Assigned(Chain(n, o.v)) else o
  }

  lemma SameArrives(lib: Library, d: Type, w: Value)
    ensures Arrives(lib, d, d, w) == Assigned(w) && MaybeCompatible(d, d)
  {
  }

  /**
   * An argument whose pointers all lead somewhere, of any type and for a field of any type: the field gets a chain
   * of its declared depth ending in what its kind makes of the value, or the call fails as that kind says.
   */
  lemma ValuesExact(lib: Library, dest: Type, src: Type, v: Value)
    requires WellFormed(Base(dest)) && WellFormed(Base(src)) && HasType(src, v) && Deref(v, Depth(src)).Some?
    ensures Assign(lib, dest, src, v)
         == Behind(Depth(dest), Arrives(lib, Base(dest), Base(src), Deref(v, Depth(src)).value))
  {
    hide Pow2, Convert, WellFormed, MaybeCompatible, Arrives, HasType;
    var d, s, k, m := Base(dest), Base(src), Depth(dest), Depth(src);
    var w := Deref(v, m).value;
    DerefHasType(src, v, m);
    PointersOfBase(src);
    PointersOfBase(dest);
    if d == s {
      SameArrives(lib, d, w);
      if m < k {
        ChainDeref(v, m, 0);
        ChainAdds(k - m, m, w);
      } else {
        ChainDeref(v, m, k);
      }
    } else if MaybeCompatible(d, s) {
      ConvertArrives(lib, d, s, w);
    } else {
      Incompatible(lib, d, s, w);
    }
  }

  /** Types between which some conversion is attempted. */
  predicate Related(d: Type, s: Type) {
    match (s, d)
    case (TString(_), TOther(_, _)) => false
    case (TString(_), TPtr(_)) => false
    case (TString(_), _) => true
    case (TInt(_, _), TInt(_, _)) => true
    case (TInt(_, _), TUint(_, _)) => true
    case (TInt(_, _), TFloat(_, _)) => true
    case (TUint(_, _), TInt(_, _)) => true
    case (TUint(_, _), TUint(_, _)) => true
    case (TUint(_, _), TFloat(_, _)) => true
    case (TFloat(_, _), TInt(_, _)) => true
    case (TFloat(_, _), TUint(_, _)) => true
    case (TFloat(_, _), TFloat(_, _)) => true
    case _ => false
  }

  /**
   * An argument with a nil pointer on the way: between equal base types it is handed over, with more pointers in
   * front when the field has more, or followed into a panic; between others nothing is assigned, without an error
   * when a conversion would be attempted.
   */
  lemma NilsExact(lib: Library, dest: Type, src: Type, v: Value)
    requires WellFormed(Base(dest)) && HasType(src, v) && Deref(v, Depth(src)) == None
    ensures var d, s, n, m := Base(dest), Base(src), Depth(dest), Depth(src);
      Assign(lib, dest, src, v) ==
        if d != s then (if Related(d, s) then Unset else Failed)
        else if m < n then Assigned(Chain(n - m, v))
        else if Deref(v, m - n).Some? then Assigned(Deref(v, m - n).value)
        else Panicked
  {
    hide Convert, HasType;
    PointersOfBase(dest);
    PointersOfBase(src);
  }

  // ----- Types and depth

  lemma ConvertTyped(lib: Library, dest: Type, src: Type, v: Value)
    requires WellFormed(dest) && HasType(src, v) && Convert(lib, dest, src, v).Assigned?
    ensures HasType(dest, Convert(lib, dest, src, v).v)
  {
    hide Pow2, OverflowInt, OverflowUint, Decode;
    if dest.TInt? {
      OverflowIntExact(dest.bits, Convert(lib, dest, src, v).v.n);
    } else if dest.TUint? {
      OverflowUintExact(dest.bits, Convert(lib, dest, src, v).v.n);
    } else if src.TString? && IsAggregate(dest) {
      DecodeTyped(dest, lib.parseJson(v.s).value);
    }
  }

  lemma {:induction false} PointersAdd(a: nat, b: nat, t: Type)
    ensures Pointers(a, Pointers(b, t)) == Pointers(a + b, t)
  {
    if a > 0 { PointersAdd(a - 1, b, t); }
  }

  lemma {:induction false} DerefChain(n: nat, v: Value, m: nat)
    ensures Deref(Chain(n, v), n + m) == Deref(v, m)
  {
    if n > 0 { DerefChain(n - 1, v, m); }
  }

  /**
   * The assigned value has the destination's type, whatever the source,
   * and behind a non-nil source all its pointers exist.
   */
  lemma AssignTyped(lib: Library, dest: Type, src: Type, v: Value)
    requires WellFormed(Base(dest)) && HasType(src, v) && Assign(lib, dest, src, v).Assigned?
    ensures HasType(dest, Assign(lib, dest, src, v).v)
    ensures Deref(v, Depth(src)).Some? ==> Deref(Assign(lib, dest, src, v).v, Depth(dest)).Some?
  {
    hide HasType, Convert;
    var d, s, n, m := Base(dest), Base(src), Depth(dest), Depth(src);
    PointersOfBase(dest);
    PointersOfBase(src);
    if d == s {
      if m < n {
        ChainHasType(n - m, src, v);
        PointersAdd(n - m, m, s);
        DerefChain(n - m, v, m);
      } else {
        DerefHasType(src, v, m - n);
        if Deref(v, m).Some? { ChainDeref(v, m, n); DerefChain(n, Deref(v, m).value, 0); }
      }
    } else {
      DerefHasType(src, v, m);
      var w := Deref(v, m).value;
      ConvertTyped(lib, d, s, w);
      ChainHasType(n, d, Convert(lib, d, s, w).v);
      DerefChain(n, Convert(lib, d, s, w).v, 0);
    }
  }

  // ----- The prefilter and the switch

  predicate NullDocument(lib: Library, v: Value) {
    v.VStr? && lib.parseJson(v.s) == Some(JNull)
  }

  /** What the prefilter lets through is assigned or refused, except behind a nil pointer or for the string "null". */
  lemma SuccessMeansAssigned(lib: Library, dest: Type, src: Type, v: Value)
    requires WellFormed(Base(dest)) && HasType(src, v)
    ensures var d, s, n, m := Base(dest), Base(src), Depth(dest), Depth(src);
      && (Assign(lib, dest, src, v) == Unset <==> MaybeCompatible(d, s) && d != s && Deref(v, m) == None)
      && (Assign(lib, dest, src, v) == Panicked <==>
            || (d == s && m >= n && Deref(v, m - n) == None)
            || (d != s && s.TString? && IsAggregate(d) && Deref(v, m).Some? && NullDocument(lib, Deref(v, m).value)))
  {
    hide HasType, Pow2, OverflowInt, OverflowUint, Decode;
    PointersOfBase(src);
    if Deref(v, Depth(src)).Some? {
      DerefHasType(src, v, Depth(src));
      BaseValues(Base(src), Deref(v, Depth(src)).value);
    }
  }

  /** The failing inputs: a nil pointer to another integer kind slips through, and one to the same kind panics. */
  lemma NilPointerFails(lib: Library)
    ensures Assign(lib, TInt("int64", 64), TPtr(TInt("int32", 32)), VNil) == Unset
    ensures Assign(lib, TInt("int64", 64), TPtr(TInt("int64", 64)), VNil) == Panicked
  {
  }

  /** And a string that holds the document null, given for a slice, panics. */
  lemma NullStringPanics(lib: Library)
    requires lib.parseJson("null") == Some(JNull)
    ensures Assign(lib, TSlice("", TBool("bool")), TString("string"), VStr("null")) == Panicked
  {
  }

  /** Some value of the source type converts. */
  ghost predicate Convertible(dest: Type, src: Type)
    requires WidthsFit(dest)
  {
    exists lib: Library, v: Value :: Sound(lib) && HasType(src, v) && Convert(lib, dest, src, v).Assigned?
  }

  /** A library that accepts every string. */
  function Obliging(j: Json): Library {
    Library(
      s => Some(true), s => Some(0), s => Some(0), s => Some(0.0), s => Some(j),
      (bits, r) => false, (bits, r) => r)
  }

  lemma ZeroFits(t: Type)
    requires WellFormed(t)
    ensures IsInteger(t) ==> InRange(t, 0)
    ensures t.TInt? ==> !OverflowInt(t.bits, 0)
    ensures t.TUint? ==> !OverflowUint(t.bits, 0)
  {
    hide Pow2;
    if t.TInt? { OverflowIntExact(t.bits, 0); } else if t.TUint? { OverflowUintExact(t.bits, 0); }
  }

  lemma EmptyDecodes(t: Type)
    requires IsAggregate(t)
    ensures Decode(t, if t.TArray? || t.TSlice? then JArr([]) else JObj(map[])).Some?
  {
  }

  /**
   * No branch of the switch could have converted a pair the prefilter rejects; of
   * those it accepts, only an integer with a float never converts.
   */
  lemma PrefilterExact(dest: Type, src: Type)
    requires WellFormed(dest) && WellFormed(src) && dest != src
    ensures Convertible(dest, src) <==>
      MaybeCompatible(dest, src) && !(IsInteger(dest) && src.TFloat?) && !(dest.TFloat? && IsInteger(src))
  {
    hide Pow2, OverflowInt, OverflowUint, Decode;
    if MaybeCompatible(dest, src) && !(IsInteger(dest) && src.TFloat?) && !(dest.TFloat? && IsInteger(src)) {
      var lib := Obliging(if dest.TArray? || dest.TSlice? then JArr([]) else JObj(map[]));
      var v := if IsInteger(src) then VInt(0) else if src.TFloat? then VFloat(0.0) else VStr("");
      ZeroFits(dest);
      ZeroFits(src);
      if IsAggregate(dest) { EmptyDecodes(dest); }
      assert Sound(lib) by { ZeroFits(TInt("", 64)); ZeroFits(TUint("", 64)); }
      assert Convert(lib, dest, src, v).Assigned?;
    }
  }

  /** When an assigned pointer field ends up nil: only by handing over a nil pointer of its own type. */
  lemma NilOnlyFromNil(lib: Library, dest: Type, src: Type, v: Value)
    requires WellFormed(Base(dest)) && dest.TPtr? && Assign(lib, dest, src, v).Assigned?
    ensures Assign(lib, dest, src, v).v == VNil
       <==> Base(dest) == Base(src) && Depth(src) >= Depth(dest) && Deref(v, Depth(src) - Depth(dest)) == Some(VNil)
  {
    hide Convert;
  }
}

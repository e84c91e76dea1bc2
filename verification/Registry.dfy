/**
 * The command registry: what `RegisterCmd` demands of a command type, the three
 * maps it fills, and the layout every registered command has as a result.
 */
module Registry {
  import opened Basics
  import opened GoValues
  import opened JsonCodec
  import opened UsageFlags

  datatype ErrorCode =
    | ErrDuplicateMethod | ErrInvalidUsageFlags | ErrInvalidType | ErrEmbeddedType | ErrUnexportedField
    | ErrUnsupportedFieldType | ErrNonOptionalField | ErrNonOptionalDefault | ErrMismatchedDefault
    | ErrUnregisteredMethod | ErrNumParams | ErrMarshal

  datatype MethodInfo = MethodInfo(
    maxParams: nat, numReqParams: nat, numOptParams: nat, defaults: map<nat, Value>, flags: nat, usage: string)

  /** The three registration maps. */
  datatype Maps = Maps(types: map<string, Type>, infos: map<string, MethodInfo>, methods: map<Type, string>)

  const NOTHING := Maps(map[], map[], map[])

  predicate IsAcceptableKind(t: Type) {
    match t
    case TPtr(_) => false
    case TOther(_, kind) => kind == Uintptr || kind == UnsafePointer
    case _ => true
  }

  /** What the walk over the fields has gathered. */
  datatype Layout = Layout(numOpt: nat, defaults: map<nat, Value>)

  /** One field, after `before` was gathered from the ones in front of it. */
  function ScanField(f: Field, i: nat, before: Layout): Result<Layout, ErrorCode> {
    var optional := f.typ.TPtr?;
    if f.anonymous then Err(ErrEmbeddedType)
    else if !f.exported then Err(ErrUnexportedField)
    else if !IsAcceptableKind(if optional then f.typ.elem else f.typ) then Err(ErrUnsupportedFieldType)
    else if !optional && before.numOpt > 0 then Err(ErrNonOptionalField)
    else
      var numOpt := before.numOpt + if optional then 1 else 0;
      if f.default.NoDefault? then Ok(Layout(numOpt, before.defaults))
      else if !optional then Err(ErrNonOptionalDefault)
      else if f.default.NotJson? then Err(ErrMismatchedDefault)
      else
        match Decode(f.typ.elem, f.default.json)
        case None => Err(ErrMismatchedDefault)
        case Some(v) => Ok(Layout(numOpt, before.defaults[i := VPtr(v)]))
  }

  /** The first `n` fields. */
  function Scan(fs: seq<Field>, n: nat): Result<Layout, ErrorCode>
    requires n <= |fs|
  {
    if n == 0 then Ok(Layout(0, map[])) else
    match Scan(fs, n - 1)
    case Err(e) => Err(e)
    case Ok(before) => ScanField(fs[n-1], n - 1, before)
  }

  function InfoOf(fs: seq<Field>, l: Layout, flags: nat): MethodInfo
    requires l.numOpt <= |fs|
  {
    MethodInfo(|fs|, |fs| - l.numOpt, l.numOpt, l.defaults, flags, "")
  }

  /** The checks in front of the fields. */
  function Precheck(r: Maps, name: string, cmd: Type, flags: nat): Option<ErrorCode> {
    if name in r.types then Some(ErrDuplicateMethod)
    else if flags >= HIGHEST_USAGE_FLAG_BIT then Some(ErrInvalidUsageFlags)
    else if !cmd.TPtr? || !cmd.elem.TStruct? then Some(ErrInvalidType)
    else None
  }

  lemma {:induction false} ScanCounts(fs: seq<Field>, n: nat)
    requires n <= |fs| && Scan(fs, n).Ok?
    ensures Scan(fs, n).value.numOpt <= n
  {
    if n > 0 { ScanCounts(fs, n - 1); }
  }

  function Register(r: Maps, name: string, cmd: Type, flags: nat): Result<Maps, ErrorCode> {
    match Precheck(r, name, cmd, flags)
    case Some(e) => Err(e)
    case None =>
      var fs := cmd.elem.fields;
      match Scan(fs, |fs|)
      case Err(e) => Err(e)
      case Ok(l) =>
        ScanCounts(fs, |fs|);
        Ok(Maps(r.types[name := cmd], r.infos[name := InfoOf(fs, l, flags)], r.methods[cmd := name]))
  }

  // ----- The layout of a registered command

  /** Required fields first, optional ones after them, defaults on optional ones only and of their type. */
  ghost predicate LaidOut(fs: seq<Field>, info: MethodInfo) {
    && info.maxParams == |fs| && info.numReqParams + info.numOptParams == info.maxParams
    && (forall i :: 0 <= i < |fs| ==> (fs[i].typ.TPtr? <==> info.numReqParams <= i))
    && (forall i :: 0 <= i < |fs| ==> fs[i].exported && !fs[i].anonymous)
    && (forall i <- info.defaults ::
          info.numReqParams <= i < |fs| && info.defaults[i].VPtr? && HasType(fs[i].typ, info.defaults[i]))
  }

  /** The info is what scanning the fields gives, whatever the usage text and the flags. */
  ghost predicate IsLayoutOf(fs: seq<Field>, info: MethodInfo) {
    match Scan(fs, |fs|)
    case Err(_) => false
    case Ok(l) => l.numOpt <= |fs| && info == InfoOf(fs, l, info.flags).(usage := info.usage)
  }

  ghost predicate RegInv(r: Maps) {
    && r.types.Keys == r.infos.Keys
    && (forall m <- r.types ::
          && r.types[m].TPtr? && r.types[m].elem.TStruct?
          && IsLayoutOf(r.types[m].elem.fields, r.infos[m])
          && r.types[m] in r.methods)
    && (forall t <- r.methods :: r.methods[t] in r.types && r.types[r.methods[t]] == t)
  }

  lemma {:induction false} ScanLaysOut(fs: seq<Field>, n: nat)
    requires n <= |fs| && Scan(fs, n).Ok? && forall i :: 0 <= i < n ==> WellFormed(fs[i].typ)
    ensures var l := Scan(fs, n).value;
      && l.numOpt <= n
      && (forall i :: 0 <= i < n ==> (fs[i].typ.TPtr? <==> n - l.numOpt <= i))
      && (forall i :: 0 <= i < n ==> fs[i].exported && !fs[i].anonymous)
      && (forall i <- l.defaults :: n - l.numOpt <= i < n && l.defaults[i].VPtr? && HasType(fs[i].typ, l.defaults[i]))
  {
    if n > 0 {
      ScanLaysOut(fs, n - 1);
      var f := fs[n-1];
      if f.typ.TPtr? && f.default.Default? && Decode(f.typ.elem, f.default.json).Some? {
        DecodeTyped(f.typ.elem, f.default.json);
      }
    }
  }

  /** Every registered command has the layout the codec relies on. */
  lemma RegisteredIsLaidOut(r: Maps, m: string)
    requires RegInv(r) && m in r.types && WellFormed(r.types[m])
    ensures LaidOut(r.types[m].elem.fields, r.infos[m])
  {
    ScanLaysOut(r.types[m].elem.fields, |r.types[m].elem.fields|);
  }

  /** Two methods registered with one type have the same parameters and defaults. */
  lemma SameTypeSameLayout(r: Maps, m: string, n: string)
    requires RegInv(r) && m in r.types && n in r.types && r.types[m] == r.types[n]
    ensures r.infos[m].maxParams == r.infos[n].maxParams && r.infos[m].numReqParams == r.infos[n].numReqParams
    ensures r.infos[m].defaults == r.infos[n].defaults
  {
  }

  lemma RegisterKeeps(r: Maps, name: string, cmd: Type, flags: nat)
    requires RegInv(r) && Register(r, name, cmd, flags).Ok?
    ensures RegInv(Register(r, name, cmd, flags).value)
    ensures var u := Register(r, name, cmd, flags).value;
      && u.methods[cmd] == name && u.types[name] == cmd && u.infos[name].flags < HIGHEST_USAGE_FLAG_BIT
      && forall m <- r.types :: m in u.types && u.types[m] == r.types[m] && u.infos[m] == r.infos[m]
  {
    hide Scan, WellFormed;
    var u := Register(r, name, cmd, flags).value;
    ScanCounts(cmd.elem.fields, |cmd.elem.fields|);
    forall t | t in u.methods ensures u.methods[t] in u.types && u.types[u.methods[t]] == t {
      if t != cmd { assert t in r.methods && r.methods[t] != name; }
    }
  }

  /** What the documentation of RegisterCmd demands of the fields, one clause each. */
  ghost predicate Acceptable(fs: seq<Field>, n: nat)
    requires n <= |fs|
  {
    && (forall i :: 0 <= i < n ==> !fs[i].anonymous && fs[i].exported)
    && (forall i :: 0 <= i < n ==> IsAcceptableKind(if fs[i].typ.TPtr? then fs[i].typ.elem else fs[i].typ))
    && (forall i, j :: 0 <= i < j < n && fs[i].typ.TPtr? ==> fs[j].typ.TPtr?)
    && (forall i :: 0 <= i < n && !fs[i].default.NoDefault? ==>
          fs[i].typ.TPtr? && fs[i].default.Default? && Decode(fs[i].typ.elem, fs[i].default.json).Some?)
  }

  /** The walk accepts exactly those fields. */
  lemma {:induction false} ScanAcceptsIff(fs: seq<Field>, n: nat)
    requires n <= |fs|
    ensures Scan(fs, n).Ok? <==> Acceptable(fs, n)
    ensures Scan(fs, n).Ok? ==> (Scan(fs, n).value.numOpt > 0 <==> exists i :: 0 <= i < n && fs[i].typ.TPtr?)
  {
    if n > 0 {
      ScanAcceptsIff(fs, n - 1);
    }
  }

  lemma {:induction false} ScanFails(fs: seq<Field>, k: nat, n: nat)
    requires k <= n <= |fs| && Scan(fs, k).Err?
    ensures Scan(fs, n) == Scan(fs, k)
  {
    if k < n { ScanFails(fs, k, n - 1); }
  }

  /** The error names the first field at fault and what is wrong with it. */
  lemma {:induction false} ScanBlames(fs: seq<Field>, n: nat) returns (k: nat)
    requires n <= |fs| && Scan(fs, n).Err?
    ensures k < n && Acceptable(fs, k) && !Acceptable(fs, k + 1)
    ensures var f := fs[k]; var optional := f.typ.TPtr?;
      match Scan(fs, n).error
      case ErrEmbeddedType => f.anonymous
      case ErrUnexportedField => !f.exported
      case ErrUnsupportedFieldType => !IsAcceptableKind(if optional then f.typ.elem else f.typ)
      case ErrNonOptionalField => !optional && exists i :: 0 <= i < k && fs[i].typ.TPtr?
      case ErrNonOptionalDefault => !optional && !f.default.NoDefault?
      case ErrMismatchedDefault => optional
          && (f.default.NotJson? || (f.default.Default? && Decode(f.typ.elem, f.default.json) == None))
      case _ => false
  {
    if Scan(fs, n - 1).Err? {
      k := ScanBlames(fs, n - 1);
    } else {
      k := n - 1;
      ScanAcceptsIff(fs, n - 1);
      ScanAcceptsIff(fs, n);
    }
  }

  // ----- RegisterCmd, in every case

  /** Kinds a field or what it points to must not have. */
  predicate Unsupported(t: Type) {
    t.TPtr? || (t.TOther? && t.kind in {Chan, Func, Complex64, Complex128, Interface})
  }

  /** What is wrong with field `k`, if anything, of several things the first. */
  ghost predicate FaultAt(fs: seq<Field>, k: nat, e: ErrorCode)
    requires k < |fs|
  {
    var f := fs[k];
    var optional := f.typ.TPtr?;
    if f.anonymous then e == ErrEmbeddedType
    else if !f.exported then e == ErrUnexportedField
    else if Unsupported(if optional then f.typ.elem else f.typ) then e == ErrUnsupportedFieldType
    else if !optional && exists i :: 0 <= i < k && fs[i].typ.TPtr? then e == ErrNonOptionalField
    else if f.default.NoDefault? then false
    else if !optional then e == ErrNonOptionalDefault
    else e == ErrMismatchedDefault && (f.default.NotJson? || Decode(f.typ.elem, f.default.json) == None)
  }

  ghost predicate Faultless(fs: seq<Field>, n: nat)
    requires n <= |fs|
  {
    forall k: nat, e :: k < n ==> !FaultAt(fs, k, e)
  }

  /** The defaults are the decoded tags of the fields that have one. */
  ghost predicate DefaultsOf(fs: seq<Field>, n: nat, defaults: map<nat, Value>)
    requires n <= |fs|
  {
    && (forall i <- defaults :: i < n)
    && forall i: nat :: i < n ==>
         && (i in defaults <==> !fs[i].default.NoDefault?)
         && (i in defaults ==>
               && fs[i].typ.TPtr? && fs[i].default.Default?
               && Decode(fs[i].typ.elem, fs[i].default.json).Some?
               && defaults[i] == VPtr(Decode(fs[i].typ.elem, fs[i].default.json).value))
  }

  lemma ScanFieldExact(fs: seq<Field>, k: nat, before: Layout)
    requires k < |fs| && (before.numOpt > 0 <==> exists i :: 0 <= i < k && fs[i].typ.TPtr?)
    ensures forall e :: ScanField(fs[k], k, before) == Err(e) <==> FaultAt(fs, k, e)
  {
    hide Decode;
  }

  lemma FieldDefault(f: Field, i: nat, before: Layout)
    requires ScanField(f, i, before).Ok?
    ensures var l := ScanField(f, i, before).value;
      if f.default.NoDefault? then l.defaults == before.defaults
      else
        && f.typ.TPtr? && f.default.Default? && Decode(f.typ.elem, f.default.json).Some?
        && l.defaults == before.defaults[i := VPtr(Decode(f.typ.elem, f.default.json).value)]
  {
    hide Decode;
  }

  lemma DefaultsGrow(fs: seq<Field>, n: nat)
    requires 0 < n <= |fs| && Scan(fs, n - 1).Ok? && DefaultsOf(fs, n - 1, Scan(fs, n - 1).value.defaults)
    ensures Scan(fs, n).Ok? ==> DefaultsOf(fs, n, Scan(fs, n).value.defaults)
  {
    hide Decode, ScanField;
    if Scan(fs, n).Ok? { FieldDefault(fs[n-1], n - 1, Scan(fs, n - 1).value); }
  }

  lemma NoDefaults(fs: seq<Field>)
    ensures DefaultsOf(fs, 0, map[])
  {
  }

  /** The walk reports the first fault of the first field at fault, and otherwise gathers the defaults. */
  lemma {:induction false} ScanExact(fs: seq<Field>, n: nat)
    requires n <= |fs|
    ensures Scan(fs, n).Ok? <==> Faultless(fs, n)
    ensures Scan(fs, n).Ok? ==> DefaultsOf(fs, n, Scan(fs, n).value.defaults)
    ensures Scan(fs, n).Err? ==>
      exists k: nat :: k < n && Faultless(fs, k) && FaultAt(fs, k, Scan(fs, n).error)
  {
    hide ScanField, FaultAt, DefaultsOf, Decode, Acceptable;
    if n == 0 {
      NoDefaults(fs);
    } else {
      ScanExact(fs, n - 1);
      ScanAcceptsIff(fs, n - 1);
      if Scan(fs, n - 1).Ok? {
        ScanFieldExact(fs, n - 1, Scan(fs, n - 1).value);
        if Scan(fs, n).Err? { assert FaultAt(fs, n - 1, Scan(fs, n).error); }
        DefaultsGrow(fs, n);
      }
    }
  }

  lemma {:induction false} OptionalLast(fs: seq<Field>, n: nat)
    requires n <= |fs| && Scan(fs, n).Ok?
    ensures Scan(fs, n).value.numOpt <= n
    ensures forall i :: 0 <= i < n ==> (fs[i].typ.TPtr? <==> n - Scan(fs, n).value.numOpt <= i)
  {
    hide Decode;
    if n > 0 { OptionalLast(fs, n - 1); }
  }

  /** Faults of fields have codes of their own. */
  lemma {:induction false} FaultCodes(fs: seq<Field>, n: nat)
    requires n <= |fs| && Scan(fs, n).Err?
    ensures Scan(fs, n).error !in {ErrDuplicateMethod, ErrInvalidUsageFlags, ErrInvalidType}
  {
    hide Decode;
    if n > 0 && Scan(fs, n - 1).Err? { FaultCodes(fs, n - 1); }
  }

  /**
   * RegisterCmd refuses a method registered before, a flag beyond the three, and anything but a pointer to a struct,
   * in this order; then the first field at fault.  Otherwise exactly this method is added, with the counts of its
   * required and optional fields and its decoded defaults.
   */
  lemma RegisterExact(r: Maps, name: string, cmd: Type, flags: nat)
    ensures Register(r, name, cmd, flags) == Err(ErrDuplicateMethod) <==> name in r.types
    ensures Register(r, name, cmd, flags) == Err(ErrInvalidUsageFlags) <==> name !in r.types && flags >= 8
    ensures Register(r, name, cmd, flags) == Err(ErrInvalidType)
       <==> name !in r.types && flags < 8 && !(cmd.TPtr? && cmd.elem.TStruct?)
    ensures name !in r.types && flags < 8 && cmd.TPtr? && cmd.elem.TStruct? ==>
      var fs := cmd.elem.fields;
      match Register(r, name, cmd, flags)
      case Err(e) => exists k: nat :: k < |fs| && Faultless(fs, k) && FaultAt(fs, k, e)
      case Ok(u) =>
        && Faultless(fs, |fs|)
        && u.types == r.types[name := cmd] && u.methods == r.methods[cmd := name]
        && name in u.infos && u.infos == r.infos[name := u.infos[name]]
        && var info := u.infos[name];
           && info.flags == flags && info.usage == "" && info.maxParams == |fs|
           && info.numReqParams + info.numOptParams == |fs|
           && (forall i :: 0 <= i < |fs| ==> (fs[i].typ.TPtr? <==> info.numReqParams <= i))
           && DefaultsOf(fs, |fs|, info.defaults)
  {
    hide Scan, FaultAt, DefaultsOf;
    if name !in r.types && flags < 8 && cmd.TPtr? && cmd.elem.TStruct? {
      var fs := cmd.elem.fields;
      ScanExact(fs, |fs|);
      if Scan(fs, |fs|).Ok? { OptionalLast(fs, |fs|); } else { FaultCodes(fs, |fs|); }
    }
  }

  // ----- Any sequence of registrations

  datatype Registration = Registration(name: string, cmd: Type, flags: nat)

  /** The maps after a run of RegisterCmd calls, failed ones included. */
  function After(r: Maps, calls: seq<Registration>): Maps
    decreases |calls|
  {
    if calls == [] then r else
    var last := calls[|calls|-1];
    var u := After(r, calls[..|calls|-1]);
    match Register(u, last.name, last.cmd, last.flags)
    case Ok(w) => w
    case Err(_) => u
  }

  lemma {:induction false} AfterKeeps(calls: seq<Registration>)
    ensures RegInv(After(NOTHING, calls))
    decreases |calls|
  {
    if calls != [] {
      var last := calls[|calls|-1];
      AfterKeeps(calls[..|calls|-1]);
      var u := After(NOTHING, calls[..|calls|-1]);
      if Register(u, last.name, last.cmd, last.flags).Ok? {
        RegisterKeeps(u, last.name, last.cmd, last.flags);
      }
    }
  }
}

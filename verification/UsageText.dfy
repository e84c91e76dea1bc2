/**
 * The one-line usage of a command, built from its type; and the cache in front of it,
 * read and written in two separate critical sections.
 */
module UsageText {
  import opened Basics
  import opened GoValues
  import opened Registry
  import opened CmdCodec
  import opened Assignment

  /** strings.ToLower and the %q and %v of fmt. */
  datatype Formats = Formats(lower: string -> string, quote: string -> string, show: Value -> string)

  predicate HasSuffix(s: string, suffix: string) {
    |suffix| <= |s| && forall i :: 0 <= i < |suffix| ==> s[|s| - |suffix| + i] == suffix[i]
  }

  /** The singular of an English plural. */
  function Singular(name: string): string {
    if HasSuffix(name, "ies") then name[..|name|-3] + "y"
    else if HasSuffix(name, "es") then name[..|name|-2]
    else if HasSuffix(name, "s") then name[..|name|-1]
    else name
  }

  function SubStructUsage(f: Formats, t: Type): string
    requires t.TStruct?
    decreases t, 1
  {
    "{" + Join(seq(|t.fields|, i requires 0 <= i < |t.fields| => SubFieldUsage(f, t.fields[i])), ",") + "}"
  }

  function SubFieldUsage(f: Formats, field: Field): string
    decreases field
  {
    if field.usage != "" then field.usage else
    var name := f.lower(field.name);
    var value :=
      match field.typ
      case TFloat(_, _) => "n.nnn"
      case TInt(_, _) => "n"
      case TUint(_, _) => "n"
      case TString(_) => "\"value\""
      case TStruct(_, _) => SubStructUsage(f, field.typ)
      case TArray(_, _, e) => SubArrayUsage(f, e, name)
      case TSlice(_, e) => SubArrayUsage(f, e, name)
      case _ => name;
    f.quote(name) + ":" + value
  }

  function SubArrayUsage(f: Formats, elem: Type, name: string): string
    decreases elem, 2
  {
    if elem.TString? then "[" + f.quote(Singular(name)) + ",...]"
    else if elem.TStruct? then "[" + SubStructUsage(f, elem) + ",...]"
    else "[" + Singular(name) + ",...]"
  }

  function FieldUsage(f: Formats, field: Field, default: Option<Value>): string {
    if field.usage != "" then field.usage else
    var t := if field.typ.TPtr? then field.typ.elem else field.typ;
    var pointee := if default.Some? then Elem(default.value) else None;
    var name := f.lower(field.name);
    match t
    case TString(_) =>
      if pointee.Some? && pointee.value.VStr? then name + "=" + f.quote(pointee.value.s) else f.quote(name)
    case TArray(_, _, e) => SubArrayUsage(f, e, name)
    case TSlice(_, e) => SubArrayUsage(f, e, name)
    case TStruct(_, _) => SubStructUsage(f, t)
    case _ => if pointee.Some? then name + "=" + f.show(pointee.value) else name
  }

  /** The usage of field `i`. */
  function UsageAt(f: Formats, fs: seq<Field>, defaults: map<nat, Value>, i: nat): string
    requires i < |fs|
  {
    FieldUsage(f, fs[i], if i in defaults then Some(defaults[i]) else None)
  }

  /** The usages of fields `lo` to `hi`, in their order. */
  function Usages(f: Formats, fs: seq<Field>, defaults: map<nat, Value>, lo: nat, hi: nat): seq<string>
    requires lo <= hi <= |fs|
  {
    seq(hi - lo, i requires 0 <= i < hi - lo => UsageAt(f, fs, defaults, lo + i))
  }

  /** The usages of the pointer fields, or of the others, among the first `n`. */
  function Collected(f: Formats, fs: seq<Field>, defaults: map<nat, Value>, optional: bool, n: nat): seq<string>
    requires n <= |fs|
  {
    if n == 0 then []
    else if fs[n-1].typ.TPtr? == optional
        then Collected(f, fs, defaults, optional, n - 1) + [UsageAt(f, fs, defaults, n - 1)]
    else Collected(f, fs, defaults, optional, n - 1)
  }

  function Line(name: string, req: seq<string>, opt: seq<string>): string {
    name + (if req != [] then " " + Join(req, " ") else "") + (if opt != [] then " (" + Join(opt, " ") + ")" else "")
  }

  function Text(f: Formats, typ: Type, defaults: map<nat, Value>, name: string): string {
    var fs := FieldsOf(typ);
    Line(name, Collected(f, fs, defaults, false, |fs|), Collected(f, fs, defaults, true, |fs|))
  }

  /** `methodUsageText`. */
  method MethodUsageLine(f: Formats, typ: Type, defaults: map<nat, Value>, name: string) returns (usage: string)
    ensures usage == Text(f, typ, defaults, name)
  {
    hide FieldUsage, Join;
    var fs := FieldsOf(typ);
    var reqFieldUsages: seq<string>, optFieldUsages: seq<string> := [], [];
    for i := 0 to |fs|
      invariant reqFieldUsages == Collected(f, fs, defaults, false, i)
      invariant optFieldUsages == Collected(f, fs, defaults, true, i)
    {
      var isOptional := fs[i].typ.TPtr?;
      var default := if i in defaults then Some(defaults[i]) else None;
      var u := FieldUsage(f, fs[i], default);
      if isOptional {
        optFieldUsages := optFieldUsages + [u];
      } else {
        reqFieldUsages := reqFieldUsages + [u];
      }
    }
    usage := name;
    if |reqFieldUsages| > 0 {
      usage := usage + (" " + Join(reqFieldUsages, " "));
    }
    if |optFieldUsages| > 0 {
      usage := usage + (" (" + Join(optFieldUsages, " ") + ")");
    }
    assert usage == Line(name, reqFieldUsages, optFieldUsages);
  }

  lemma UsagesSnoc(f: Formats, fs: seq<Field>, defaults: map<nat, Value>, lo: nat, hi: nat)
    requires lo <= hi < |fs|
    ensures Usages(f, fs, defaults, lo, hi + 1) == Usages(f, fs, defaults, lo, hi) + [UsageAt(f, fs, defaults, hi)]
  {
    hide FieldUsage;
  }

  lemma {:induction false} CollectedInOrder(f: Formats, fs: seq<Field>, info: MethodInfo, n: nat)
    requires LaidOut(fs, info) && n <= |fs|
    ensures var k := if n < info.numReqParams then n else info.numReqParams;
      && Collected(f, fs, info.defaults, false, n) == Usages(f, fs, info.defaults, 0, k)
      && Collected(f, fs, info.defaults, true, n) == Usages(f, fs, info.defaults, k, n)
  {
    hide FieldUsage, HasType;
    if n > 0 {
      CollectedInOrder(f, fs, info, n - 1);
      UsagesSnoc(f, fs, info.defaults, 0, n - 1);
      if n > info.numReqParams { UsagesSnoc(f, fs, info.defaults, info.numReqParams, n - 1); }
    }
  }

  /**
   * The usage line lists a registered command's parameters in the
   * order they travel, the optional ones in parentheses.
   */
  lemma ParametersInOrder(f: Formats, typ: Type, info: MethodInfo, name: string)
    requires LaidOut(FieldsOf(typ), info)
    ensures var fs := FieldsOf(typ);
      Text(f, typ, info.defaults, name)
      == Line(name, Usages(f, fs, info.defaults, 0, info.numReqParams),
          Usages(f, fs, info.defaults, info.numReqParams, |fs|))
  {
    hide HasType, Line, UsageAt;
    CollectedInOrder(f, FieldsOf(typ), info, |FieldsOf(typ)|);
  }

  // ----- The line and its usages, read back

  /** Usages in one pair of parentheses. */
  function Parenthesized(us: seq<string>): seq<string> {
    if us == [] then []
    else if |us| == 1 then ["(" + us[0] + ")"]
    else ["(" + us[0]] + us[1..|us|-1] + [us[|us|-1] + ")"]
  }

  lemma {:induction false} JoinClosed(us: seq<string>)
    requires us != []
    ensures Join(us[..|us|-1] + [us[|us|-1] + ")"], " ") == Join(us, " ") + ")"
  {
    var ws := us[..|us|-1] + [us[|us|-1] + ")"];
    if |us| == 1 {
      assert ws == [us[0] + ")"];
    } else {
      JoinClosed(us[1..]);
      assert ws[1..] == us[1..][..|us[1..]|-1] + [us[|us|-1] + ")"];
    }
  }

  lemma JoinParenthesized(us: seq<string>)
    requires us != []
    ensures Join(Parenthesized(us), " ") == "(" + Join(us, " ") + ")"
  {
    if |us| > 1 {
      var rest := us[1..|us|-1] + [us[|us|-1] + ")"];
      assert Parenthesized(us) == ["(" + us[0]] + rest;
      JoinBoth(["(" + us[0]], rest, " ");
      JoinClosed(us[1..]);
      assert rest == us[1..][..|us[1..]|-1] + [us[1..][|us[1..]|-1] + ")"];
    }
  }

  lemma LineJoins(name: string, req: seq<string>, opt: seq<string>)
    ensures Line(name, req, opt) == Join([name] + req + Parenthesized(opt), " ")
  {
    var front := [name] + req;
    if req == [] {
      assert front == [name] && Join(front, " ") == name;
    } else {
      JoinBoth([name], req, " ");
      assert Join(front, " ") == name + " " + Join(req, " ");
    }
    if opt == [] {
      assert front + Parenthesized(opt) == front;
    } else {
      JoinBoth(front, Parenthesized(opt), " ");
      JoinParenthesized(opt);
    }
  }

  lemma SpacelessParentheses(us: seq<string>, w: string)
    requires (forall u <- us :: ' ' !in u) && w in Parenthesized(us)
    ensures ' ' !in w
  {
  }

  /**
   * The words of a registered command's usage line are the method, the usages of its required fields and, the first
   * behind an opening and the last in front of a closing parenthesis, those of its optional ones, each in the order
   * the fields have; provided no usage has a space in it.
   */
  lemma LineWords(f: Formats, typ: Type, info: MethodInfo, name: string)
    requires LaidOut(FieldsOf(typ), info) && ' ' !in name
    requires forall i :: 0 <= i < |FieldsOf(typ)| ==> ' ' !in UsageAt(f, FieldsOf(typ), info.defaults, i)
    ensures var fs, n := FieldsOf(typ), info.numReqParams;
      && n <= |fs|
      && var req := seq(n, i requires 0 <= i < n => UsageAt(f, fs, info.defaults, i));
         var opt := seq(|fs| - n, i requires 0 <= i < |fs| - n => UsageAt(f, fs, info.defaults, n + i));
         Split(Text(f, typ, info.defaults, name), ' ') == [name] + req + Parenthesized(opt)
  {
    hide HasType, UsageAt, Line, Text, Split, Join;
    var fs, n := FieldsOf(typ), info.numReqParams;
    var req := seq(n, i requires 0 <= i < n => UsageAt(f, fs, info.defaults, i));
    var opt := seq(|fs| - n, i requires 0 <= i < |fs| - n => UsageAt(f, fs, info.defaults, n + i));
    ParametersInOrder(f, typ, info, name);
    assert req == Usages(f, fs, info.defaults, 0, n) && opt == Usages(f, fs, info.defaults, n, |fs|);
    LineJoins(name, req, opt);
    var words := [name] + req + Parenthesized(opt);
    forall w | w in words ensures ' ' !in w {
      if w in Parenthesized(opt) { SpacelessParentheses(opt, w); }
    }
    SplitJoin(words, ' ');
  }

  /** What a suffix says of the last characters. */
  lemma SuffixChars(s: string)
    ensures HasSuffix(s, "s") <==> |s| >= 1 && s[|s|-1] == 's'
    ensures HasSuffix(s, "es") <==> |s| >= 2 && s[|s|-1] == 's' && s[|s|-2] == 'e'
    ensures HasSuffix(s, "ies") <==> |s| >= 3 && s[|s|-1] == 's' && s[|s|-2] == 'e' && s[|s|-3] == 'i'
  {
    if HasSuffix(s, "s") { assert s[|s| - 1 + 0] == "s"[0]; }
    if HasSuffix(s, "es") { assert s[|s| - 2 + 0] == "es"[0] && s[|s| - 2 + 1] == "es"[1]; }
    if HasSuffix(s, "ies") {
      assert s[|s| - 3 + 0] == "ies"[0] && s[|s| - 3 + 1] == "ies"[1] && s[|s| - 3 + 2] == "ies"[2];
    }
  }

  /** Plural names lose their ending, told by its last characters. */
  lemma SingularExact(name: string)
    ensures var n := |name|;
      Singular(name) ==
        if n == 0 || name[n-1] != 's' then name
        else if n == 1 || name[n-2] != 'e' then name[..n-1]
        else if n == 2 || name[n-3] != 'i' then name[..n-2]
        else name[..n-3] + "y"
  {
    hide HasSuffix;
    SuffixChars(name);
  }

  /** The usage of a field: its tag; or its lower-case name, quoted for a string without a default, and the default. */
  lemma FieldUsageExact(f: Formats, field: Field, value: Value)
    ensures field.usage != "" ==> FieldUsage(f, field, None) == FieldUsage(f, field, Some(VPtr(value))) == field.usage
    ensures field.usage == "" ==>
      var t := if field.typ.TPtr? then field.typ.elem else field.typ;
      var name := f.lower(field.name);
      && (t.TString? ==> FieldUsage(f, field, None) == f.quote(name))
      && (t.TString? && value.VStr? ==> FieldUsage(f, field, Some(VPtr(value))) == name + "=" + f.quote(value.s))
      && (t.TInt? || t.TUint? || t.TFloat? || t.TBool? || t.TMap? ==>
            && FieldUsage(f, field, None) == name
            && FieldUsage(f, field, Some(VPtr(value))) == name + "=" + f.show(value))
  {
  }

  // ----- An example

  const TRANSACTION_INPUT := TStruct("TransactionInput", [
    Field("Txid", TString("string"), false, true, NoDefault, ""),
    Field("Vout", TUint("uint32", 32), false, true, NoDefault, "")])

  const CREATE_RAW_TRANSACTION := TPtr(TStruct("CreateRawTransactionCmd", [
    Field("Inputs", TSlice("", TRANSACTION_INPUT), false, true, NoDefault, ""),
    Field("Amounts", TMap("", TFloat("float64", 64)), false, true, NoDefault, "{\"address\":amount,...}"),
    Field("LockTime", TPtr(TInt("int64", 64)), false, true, NoDefault, "")]))

  lemma InputFields(f: Formats)
    requires f.lower("Txid") == "txid" && f.lower("Vout") == "vout" && forall s :: f.quote(s) == "\"" + s + "\""
    ensures SubFieldUsage(f, TRANSACTION_INPUT.fields[0]) == "\"txid\":\"value\""
    ensures SubFieldUsage(f, TRANSACTION_INPUT.fields[1]) == "\"vout\":n"
  {
  }

  lemma TwoFields(f: Formats, t: Type)
    requires t.TStruct? && |t.fields| == 2
    ensures SubStructUsage(f, t) == "{" + SubFieldUsage(f, t.fields[0]) + "," + SubFieldUsage(f, t.fields[1]) + "}"
  {
    hide SubFieldUsage;
    var us := seq(|t.fields|, i requires 0 <= i < |t.fields| => SubFieldUsage(f, t.fields[i]));
    assert us == [us[0], us[1]] && us[1..] == [us[1]];
    assert Join(us, ",") == us[0] + "," + us[1];
  }

  lemma InputsUsage(f: Formats)
    requires f.lower("Txid") == "txid" && f.lower("Vout") == "vout" && forall s :: f.quote(s) == "\"" + s + "\""
    ensures UsageAt(f, FieldsOf(CREATE_RAW_TRANSACTION), map[], 0) == "[{\"txid\":\"value\",\"vout\":n},...]"
  {
    hide SubStructUsage, SubFieldUsage, Singular;
    InputFields(f);
    TwoFields(f, TRANSACTION_INPUT);
  }

  lemma ThreeCollected(f: Formats, fs: seq<Field>, defaults: map<nat, Value>)
    requires |fs| == 3 && !fs[0].typ.TPtr? && !fs[1].typ.TPtr? && fs[2].typ.TPtr?
    ensures Collected(f, fs, defaults, false, 3) == [UsageAt(f, fs, defaults, 0), UsageAt(f, fs, defaults, 1)]
    ensures Collected(f, fs, defaults, true, 3) == [UsageAt(f, fs, defaults, 2)]
  {
    hide UsageAt;
    assert Collected(f, fs, defaults, false, 0) == [] && Collected(f, fs, defaults, true, 0) == [];
    assert Collected(f, fs, defaults, false, 1) == [UsageAt(f, fs, defaults, 0)];
    assert Collected(f, fs, defaults, true, 1) == [] && Collected(f, fs, defaults, true, 2) == [];
  }

  lemma TwoAndOne(name: string, a: string, b: string, c: string)
    ensures Line(name, [a, b], [c]) == name + " " + a + " " + b + " (" + c + ")"
  {
    assert [a, b][1..] == [b] && Join([a, b], " ") == a + " " + Join([b], " ");
    assert Line(name, [a, b], [c]) == name + (" " + (a + " " + b)) + (" (" + c + ")");
  }

  lemma OtherUsages(f: Formats)
    requires f.lower("LockTime") == "locktime"
    ensures UsageAt(f, FieldsOf(CREATE_RAW_TRANSACTION), map[], 1) == "{\"address\":amount,...}"
    ensures UsageAt(f, FieldsOf(CREATE_RAW_TRANSACTION), map[], 2) == "locktime"
  {
    hide SubStructUsage;
  }

  /** The usage line of createrawtransaction: a slice of structs, a tagged field and an optional number. */
  lemma CreateRawTransactionLine(f: Formats)
    requires f.lower("Txid") == "txid" && f.lower("Vout") == "vout" && f.lower("LockTime") == "locktime"
    requires forall s :: f.quote(s) == "\"" + s + "\""
    ensures Text(f, CREATE_RAW_TRANSACTION, map[], "createrawtransaction")
         == "createrawtransaction" + " " + "[{\"txid\":\"value\",\"vout\":n},...]" + " " + "{\"address\":amount,...}"
            + " (" + "locktime" + ")"
  {
    hide UsageAt, Collected, Line;
    InputsUsage(f);
    OtherUsages(f);
    ThreeCollected(f, FieldsOf(CREATE_RAW_TRANSACTION), map[]);
    TwoAndOne("createrawtransaction", "[{\"txid\":\"value\",\"vout\":n},...]", "{\"address\":amount,...}", "locktime");
  }
}

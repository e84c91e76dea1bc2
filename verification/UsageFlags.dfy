/**
 * Printing usage flags: `UsageFlag.String`, the parser that undoes it, and what
 * that says about the printing.
 */
module UsageFlags {
  import opened Basics

  /** The flags by number, and the first one that has no name. */
  function Bit(k: nat): (b: nat)
    requires k <= 3
    ensures b > 0
  {
    match k case 0 => 1 case 1 => 2 case 2 => 4 case _ => 8
  }

  function Name(k: nat): string
    requires k < 3
  {
    match k case 0 => "UFWalletOnly" case 1 => "UFWebsocketOnly" case _ => "UFNotification"
  }

  const HIGHEST_USAGE_FLAG_BIT: nat := 8

  type Flags = n: nat | n < 0x1_0000_0000

  predicate HasFlag(fl: nat, flag: nat)
    requires flag > 0
  {
    fl / flag % 2 == 1
  }

  /** The bits below flag `k`. */
  function Low(fl: nat, k: nat): nat
    requires k <= 3
  {
    fl % Bit(k)
  }

  // ----- Strings

  function TrimRight(s: string): string {
    if s != "" && s[|s|-1] == '|' then TrimRight(s[..|s|-1]) else s
  }

  function TrimLeft(s: string): string {
    if s != "" && s[0] == '|' then TrimLeft(s[1..]) else s
  }

  function HexDigit(n: nat): char
    requires n < 16
  {
    if n < 10 then '0' + n as char else 'a' + (n - 10) as char
  }

  function Hex(n: nat): (s: string)
    ensures s != ""
  {
    if n < 16 then [HexDigit(n)] else Hex(n / 16) + [HexDigit(n % 16)]
  }

  function DigitValue(c: char): Option<nat> {
    if '0' <= c <= '9' then Some((c - '0') as nat)
    else if 'a' <= c <= 'f' then Some((c - 'a') as nat + 10)
    else None
  }

  /** The hexadecimal number in `s` from `from` to `to`. */
  function ParseHex(s: string, from: nat, to: nat): Option<nat>
    requires from <= to <= |s|
  {
    if from == to then Some(0) else
    match (ParseHex(s, from, to - 1), DigitValue(s[to-1]))
    case (Some(n), Some(d)) => Some(n * 16 + d)
    case _ => None
  }

  predicate IsName(s: string) {
    s == Name(0) || s == Name(1) || s == Name(2)
  }

  predicate Plain(s: string) {
    s != "" && '|' !in s
  }

  // ----- What is printed

  /** The names of the flags set among the first `k`. */
  function Named(fl: nat, k: nat): seq<string>
    requires k <= 3
  {
    if k == 0 then [] else
    if HasFlag(fl, Bit(k - 1)) then Named(fl, k - 1) + [Name(k - 1)] else Named(fl, k - 1)
  }

  function Rest(fl: nat): nat {
    fl - Low(fl, 3)
  }

  function Tokens(fl: nat): seq<string> {
    Named(fl, 3) + if Rest(fl) != 0 then ["0x" + Hex(Rest(fl))] else []
  }

  function Printed(fl: nat): string {
    if fl == 0 then "0x0" else Join(Tokens(fl), "|")
  }

  // ----- The parser

  function TokenValue(t: string): Option<nat> {
    if t == Name(0) then Some(1)
    else if t == Name(1) then Some(2)
    else if t == Name(2) then Some(4)
    else if |t| > 2 && t[0] == '0' && t[1] == 'x' then ParseHex(t, 2, |t|)
    else None
  }

  /** The values of the first `n` words, added up. */
  function Sum(ts: seq<string>, n: nat): Option<nat>
    requires n <= |ts|
  {
    if n == 0 then Some(0) else
    match (Sum(ts, n - 1), TokenValue(ts[n-1]))
    case (Some(m), Some(v)) => Some(m + v)
    case _ => None
  }

  function Parse(s: string): Option<nat> {
    Sum(Split(s, '|'), |Split(s, '|')|)
  }

  // ----- Lemmas

  lemma {:induction false} JoinEnds(ts: seq<string>)
    requires ts != [] && forall t <- ts :: Plain(t)
    ensures var s := Join(ts, "|"); s != "" && s[0] != '|' && s[|s|-1] != '|'
  {
    assert Plain(ts[0]);
    if |ts| > 1 { JoinEnds(ts[1..]); }
  }

  lemma JoinSnoc(ts: seq<string>, t: string)
    requires ts != []
    ensures Join(ts + [t], "|") == Join(ts, "|") + "|" + t
  {
    JoinBoth(ts, [t], "|");
  }

  lemma {:induction false} HexPlain(n: nat)
    ensures '|' !in Hex(n)
  {
    if n >= 16 { HexPlain(n / 16); }
  }

  lemma {:induction false} ParseAhead(s: string, c: char, from: nat, to: nat)
    requires from <= to <= |s|
    ensures ParseHex(s + [c], from, to) == ParseHex(s, from, to)
  {
    if from < to { ParseAhead(s, c, from, to - 1); }
  }

  lemma DigitBack(d: nat)
    requires d < 16
    ensures DigitValue(HexDigit(d)) == Some(d)
  {
  }

  lemma {:induction false} HexParses(before: string, n: nat)
    ensures ParseHex(before + Hex(n), |before|, |before + Hex(n)|) == Some(n)
  {
    hide HexDigit, DigitValue;
    DigitBack(n % 16);
    var digit := HexDigit(n % 16);
    var front := if n < 16 then before else before + Hex(n / 16);
    assert before + Hex(n) == front + [digit];
    ParseAhead(front, digit, |before|, |front|);
    if n >= 16 { HexParses(before, n / 16); }
  }

  lemma HexTokenValue(n: nat)
    ensures TokenValue("0x" + Hex(n)) == Some(n) && Plain("0x" + Hex(n))
  {
    var t := "0x" + Hex(n);
    assert t[0] == '0' && t[1] == 'x';
    HexParses("0x", n);
    HexPlain(n);
  }

  lemma NamePlain(k: nat)
    requires k < 3
    ensures Plain(Name(k)) && TokenValue(Name(k)) == Some(Bit(k))
  {
  }

  lemma SecondBit(n: nat)
    ensures n % 4 == n % 2 + 2 * (n / 2 % 2) && (n - n % 2) / 2 == n / 2
  {
    var q, r := n / 4, n % 4;
    assert n == 4 * q + r;
    assert n / 2 == 2 * q + r / 2;
  }

  lemma ThirdBit(n: nat)
    ensures n % 8 == n % 4 + 4 * (n / 4 % 2) && (n - n % 4) / 4 == n / 4
  {
  }

  /** One bit more of the number, read off the number itself or off what is left of it. */
  lemma BitStep(fl: nat, k: nat)
    requires k < 3
    ensures Low(fl, 0) == 0 && Low(fl, k) <= fl && Low(fl, k + 1) <= fl
    ensures Low(fl, k + 1) == Low(fl, k) + if HasFlag(fl, Bit(k)) then Bit(k) else 0
    ensures HasFlag(fl - Low(fl, k), Bit(k)) <==> HasFlag(fl, Bit(k))
    ensures Bit(k + 1) == 2 * Bit(k)
  {
    match k
    case 0 =>
    case 1 => SecondBit(fl);
    case _ => ThirdBit(fl);
  }

  lemma {:induction false} SumAhead(ts: seq<string>, t: string, n: nat)
    requires n <= |ts|
    ensures Sum(ts + [t], n) == Sum(ts, n)
  {
    hide TokenValue;
    if n > 0 { SumAhead(ts, t, n - 1); }
  }

  lemma SumSnoc(ts: seq<string>, t: string)
    requires Sum(ts, |ts|).Some? && TokenValue(t).Some?
    ensures Sum(ts + [t], |ts + [t]|) == Some(Sum(ts, |ts|).value + TokenValue(t).value)
  {
    hide TokenValue;
    SumAhead(ts, t, |ts|);
  }

  lemma {:induction false} NamedValue(fl: nat, k: nat)
    requires k <= 3
    ensures Sum(Named(fl, k), |Named(fl, k)|) == Some(Low(fl, k))
    ensures forall t <- Named(fl, k) :: Plain(t)
  {
    hide HasFlag, TokenValue, Name, Low, Plain, Bit;
    BitStep(fl, 0);
    if k > 0 {
      BitStep(fl, k - 1);
      NamedValue(fl, k - 1);
      NamePlain(k - 1);
      if HasFlag(fl, Bit(k - 1)) {
        SumSnoc(Named(fl, k - 1), Name(k - 1));
      }
    }
  }

  lemma SumNone()
    ensures Sum([], 0) == Some(0)
  {
  }

  lemma TokensValue(fl: nat)
    ensures Sum(Tokens(fl), |Tokens(fl)|) == Some(fl)
  {
    hide Named, HasFlag, TokenValue, Hex, Plain, Bit, Low, Sum;
    BitStep(fl, 2);
    NamedValue(fl, 3);
    if Rest(fl) != 0 {
      HexTokenValue(Rest(fl));
      SumSnoc(Named(fl, 3), "0x" + Hex(Rest(fl)));
    } else {
      assert Tokens(fl) == Named(fl, 3);
    }
  }

  /** The words printed are the tokens. */
  lemma TokensSplit(fl: nat)
    requires fl != 0
    ensures Split(Printed(fl), '|') == Tokens(fl)
  {
    hide Named, HasFlag, TokenValue, Hex, Bit, Low, Sum, Split, Join;
    SumNone();
    TokensValue(fl);
    NamedValue(fl, 3);
    if Rest(fl) != 0 { HexTokenValue(Rest(fl)); }
    SplitJoin(Tokens(fl), '|');
  }

  /** The parser recovers every flag value from its printed form. */
  lemma ParsePrinted(fl: nat)
    ensures Parse(Printed(fl)) == Some(fl)
  {
    if fl == 0 {
      assert Printed(fl) == "0x" + Hex(0);
      HexTokenValue(0);
      SplitPlain("0x" + Hex(0), '|');
      assert Sum(["0x" + Hex(0)], 1) == Some(0) by { assert Sum(["0x" + Hex(0)], 0) == Some(0); }
    } else {
      hide Tokens, Sum, Split;
      TokensValue(fl);
      TokensSplit(fl);
    }
  }

  /** So no two values print alike. */
  lemma PrintedInjective(a: nat, b: nat)
    requires Printed(a) == Printed(b)
    ensures a == b
  {
    ParsePrinted(a);
    ParsePrinted(b);
  }

  lemma HexIsNoName(n: nat)
    ensures !IsName("0x" + Hex(n))
  {
    assert ("0x" + Hex(n))[0] == '0';
  }

  lemma {:induction false} NamedAreNames(fl: nat, k: nat)
    requires k <= 3
    ensures forall t <- Named(fl, k) :: IsName(t)
  {
    if k > 0 { NamedAreNames(fl, k - 1); }
  }

  /** Flags a registration accepts print as names alone, and only they do. */
  lemma AcceptedPrintNames(fl: nat)
    requires fl != 0
    ensures fl < HIGHEST_USAGE_FLAG_BIT <==> forall t <- Split(Printed(fl), '|') :: IsName(t)
  {
    hide Named, IsName, Hex, Split, Printed;
    TokensSplit(fl);
    NamedAreNames(fl, 3);
    if Rest(fl) != 0 {
      HexIsNoName(Rest(fl));
      assert "0x" + Hex(Rest(fl)) in Tokens(fl);
    }
  }

  lemma NamedThree(fl: nat)
    ensures Named(fl, 3) ==
      (if fl % 2 == 1 then ["UFWalletOnly"] else []) + (if fl / 2 % 2 == 1 then ["UFWebsocketOnly"] else [])
      + (if fl / 4 % 2 == 1 then ["UFNotification"] else [])
  {
    assert fl / 1 == fl;
    assert Named(fl, 0) == [];
    assert Named(fl, 1) == if fl % 2 == 1 then ["UFWalletOnly"] else [];
  }

  /** The words are the names of the flags set, lowest first, and then the other bits, if any, in hexadecimal. */
  lemma PrintedWords(fl: nat)
    requires fl != 0
    ensures Split(Printed(fl), '|') ==
      (if fl % 2 == 1 then ["UFWalletOnly"] else []) + (if fl / 2 % 2 == 1 then ["UFWebsocketOnly"] else [])
      + (if fl / 4 % 2 == 1 then ["UFNotification"] else [])
      + (if fl >= 8 then ["0x" + Hex(fl / 8 * 8)] else [])
  {
    hide Hex, Split, Named, Printed;
    TokensSplit(fl);
    NamedThree(fl);
    assert Rest(fl) == fl / 8 * 8;
  }

  // ----- The loop

  function Barred(ts: seq<string>): string {
    if ts == [] then "" else Join(ts, "|") + "|"
  }

  lemma BarredSnoc(ts: seq<string>, t: string)
    ensures Barred(ts + [t]) == Barred(ts) + t + "|"
  {
    if ts == [] { assert ts + [t] == [t]; } else { JoinSnoc(ts, t); }
  }

  lemma AloneTrimmed(rest: nat)
    ensures TrimLeft(TrimRight("") + ("|0x" + Hex(rest))) == Join([] + ["0x" + Hex(rest)], "|")
  {
    var hex := "0x" + Hex(rest);
    assert "" + ("|0x" + Hex(rest)) == "|" + hex && ("|" + hex)[1..] == hex && hex[0] == '0';
    assert [] + [hex] == [hex];
  }

  lemma Trimmed(named: seq<string>, rest: nat)
    requires (forall t <- named :: Plain(t)) && (named != [] || rest != 0)
    ensures TrimLeft(TrimRight(Barred(named)) + if rest != 0 then "|0x" + Hex(rest) else "")
         == Join(named + if rest != 0 then ["0x" + Hex(rest)] else [], "|")
  {
    var hex := "0x" + Hex(rest);
    if named != [] {
      JoinEnds(named);
      assert (Join(named, "|") + "|")[..|Join(named, "|")|] == Join(named, "|");
      if rest != 0 {
        JoinSnoc(named, hex);
        assert Join(named, "|") + ("|0x" + Hex(rest)) == Join(named, "|") + "|" + hex;
      } else {
        assert named + [] == named && Join(named, "|") + "" == Join(named, "|");
      }
    } else {
      AloneTrimmed(rest);
    }
  }

  /** `UsageFlag.String`. */
  method String(flags: Flags) returns (s: string)
    ensures s == Printed(flags)
  {
    hide HasFlag, Plain, TrimLeft, TrimRight, Name, Join, Hex, Low;
    BitStep(flags, 0);
    if flags == 0 {
      return "0x0";
    }
    s := "";
    var fl: nat, flag: nat, k: nat := flags, 1, 0;
    while flag < HIGHEST_USAGE_FLAG_BIT
      invariant k <= 3 && flag == Bit(k)
      invariant Low(flags, k) <= flags && fl == flags - Low(flags, k) && s == Barred(Named(flags, k))
      decreases 3 - k
    {
      BitStep(flags, k);
      if HasFlag(fl, flag) {
        BarredSnoc(Named(flags, k), Name(k));
        s := s + Name(k) + "|";
        fl := fl - flag;
      }
      flag, k := flag * 2, k + 1;
    }
    NamedValue(flags, 3);
    Trimmed(Named(flags, 3), fl);
    s := TrimRight(s);
    if fl != 0 {
      assert s + ("|0x" + Hex(fl)) == s + "|0x" + Hex(fl);
      s := s + "|0x" + Hex(fl);
    } else {
      assert s + "" == s;
    }
    assert fl == Rest(flags);
    s := TrimLeft(s);
  }
}

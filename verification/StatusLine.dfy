/**
 * `httpStatusLine`: a cache of status lines keyed by the code, negated for requests
 * older than HTTP/1.1 (the Status-Line of section 6.1 of RFC 2616).
 */
module StatusLine {
  datatype Call = Call(proto11: bool, code: int)

  function Digits(n: nat): string {
    if n < 10 then ['0' + n as char] else Digits(n / 10) + ['0' + (n % 10) as char]
  }

  function Itoa(n: int): string {
    if n < 0 then "-" + Digits(-n) else Digits(n)
  }

  /** http.StatusText knows positive codes only. */
  ghost predicate Sound(text: int -> string) {
    forall code :: text(code) != "" ==> code > 0
  }

  /** The slow path. */
  function Slow(text: int -> string, c: Call): string {
    (if c.proto11 then "HTTP/1.1" else "HTTP/1.0") + " " + Itoa(c.code) + " "
    + (if text(c.code) != "" then text(c.code) else "status code " + Itoa(c.code)) + "\r\n"
  }

  // ----- What the slow path writes

  function ReadDigits(s: string): int {
    if s == "" then 0 else ReadDigits(s[..|s|-1]) * 10 + (s[|s|-1] as int - '0' as int)
  }

  /** The number a numeral stands for. */
  function ReadInt(s: string): int {
    if s != "" && s[0] == '-' then -ReadDigits(s[1..]) else ReadDigits(s)
  }

  /** Decimal digits, without a zero in front of others. */
  predicate IsNumeral(s: string) {
    && s != "" && (forall i :: 0 <= i < |s| ==> '0' <= s[i] <= '9')
    && (|s| > 1 ==> s[0] != '0')
  }

  lemma {:induction false} DigitsRead(n: nat)
    ensures ReadDigits(Digits(n)) == n && IsNumeral(Digits(n)) && (n > 0 ==> Digits(n)[0] != '0')
  {
    if n < 10 {
      assert ReadDigits("") == 0 && Digits(n)[..0] == "";
    } else {
      DigitsRead(n / 10);
      var s, d := Digits(n / 10), '0' + (n % 10) as char;
      assert (s + [d])[..|s|] == s;
    }
  }

  lemma ItoaReads(n: int)
    ensures ReadInt(Itoa(n)) == n && ' ' !in Itoa(n)
    ensures if n < 0 then Itoa(n)[0] == '-' && IsNumeral(Itoa(n)[1..]) else IsNumeral(Itoa(n))
  {
    DigitsRead(if n < 0 then -n else n);
    if n < 0 { assert Itoa(n)[1..] == Digits(-n); }
  }

  /** The line is the version, a space, a numeral of the code, another space, the reason, and the end of the line. */
  lemma SlowReads(text: int -> string, c: Call)
    ensures var line, code := Slow(text, c), Itoa(c.code);
      var reason := if text(c.code) == "" then "status code " + code else text(c.code);
      && |line| == 10 + |code| + |reason| + 2
      && line[..8] == (if c.proto11 then "HTTP/1.1" else "HTTP/1.0") && line[8] == ' '
      && line[9..9 + |code|] == code && line[9 + |code|] == ' '
      && line[10 + |code|..] == reason + "\r\n"
  {
    hide Itoa;
  }

  function Key(c: Call): int {
    if c.proto11 then c.code else -c.code
  }

  /** The call with the other protocol and the negated code, whose key is the same. */
  function Mirror(c: Call): Call {
    Call(!c.proto11, -c.code)
  }

  // ----- Calls one after the other

  function Answer(text: int -> string, lines: map<int, string>, c: Call): string {
    if Key(c) in lines then lines[Key(c)] else Slow(text, c)
  }

  function Cached(text: int -> string, lines: map<int, string>, c: Call): map<int, string> {
    if Key(c) !in lines && text(c.code) != "" then lines[Key(c) := Slow(text, c)] else lines
  }

  function After(text: int -> string, calls: seq<Call>): map<int, string> {
    if calls == [] then map[] else Cached(text, After(text, calls[..|calls|-1]), calls[|calls|-1])
  }

  class StatusLines {
    const text: int -> string
    var statusLines: map<int, string>

    constructor (text: int -> string)
      ensures this.text == text && statusLines == After(text, [])
    {
      this.text, statusLines := text, map[];
    }

    method HttpStatusLine(proto11: bool, code: int) returns (line: string)
      modifies this
      ensures line == Answer(text, old(statusLines), Call(proto11, code))
      ensures statusLines == Cached(text, old(statusLines), Call(proto11, code))
    {
      hide Itoa;
      var key := code;
      if !proto11 {
        key := -key;
      }
      if key in statusLines {
        return statusLines[key];
      }
      var proto := "HTTP/1.0";
      if proto11 {
        proto := "HTTP/1.1";
      }
      var codeStr := Itoa(code);
      var statusText := text(code);
      if statusText != "" {
        line := proto + " " + codeStr + " " + statusText + "\r\n";
        statusLines := statusLines[key := line];
      } else {
        statusText := "status code " + codeStr;
        line := proto + " " + codeStr + " " + statusText + "\r\n";
      }
    }
  }

  /** The cache holds the slow path's line for each call so far whose code has a text, and nothing else. */
  lemma {:induction false} CacheExact(text: int -> string, calls: seq<Call>)
    requires Sound(text)
    ensures forall c: Call :: c in calls && text(c.code) != "" ==>
      Key(c) in After(text, calls) && After(text, calls)[Key(c)] == Slow(text, c)
    ensures forall k <- After(text, calls) :: exists c <- calls :: text(c.code) != "" && Key(c) == k
  {
    hide Slow;
    if calls != [] {
      var before, last := calls[..|calls|-1], calls[|calls|-1];
      CacheExact(text, before);
      forall c: Call | c in calls && text(c.code) != ""
        ensures Key(c) in After(text, calls) && After(text, calls)[Key(c)] == Slow(text, c)
      {
        if Key(c) == Key(last) && text(last.code) != "" { assert c == last; }
        assert c in before || c == last;
        if Key(c) in After(text, before) {
          var d :| d in before && text(d.code) != "" && Key(d) == Key(c);
          assert d == c;
        }
      }
      forall k | k in After(text, calls) ensures exists c <- calls :: text(c.code) != "" && Key(c) == k {
        if k in After(text, before) {
          var d :| d in before && text(d.code) != "" && Key(d) == k;
          assert d in calls;
        } else {
          assert last in calls && text(last.code) != "" && Key(last) == k;
        }
      }
    }
  }

  /**
   * After any calls, the answer is the slow path's, unless the mirror
   * call came before and has a text; then it is the mirror's.
   */
  lemma AnswerExact(text: int -> string, calls: seq<Call>, c: Call)
    requires Sound(text)
    ensures Answer(text, After(text, calls), c)
         == if Mirror(c) in calls && text(Mirror(c).code) != "" then Slow(text, Mirror(c)) else Slow(text, c)
  {
    hide Slow;
    CacheExact(text, calls);
    var lines, m := After(text, calls), Mirror(c);
    if Key(c) in lines {
      var d :| d in calls && text(d.code) != "" && Key(d) == Key(c);
      assert d == c || d == m;
    }
  }

  /** So the cache is invisible for every code that is not negative. */
  lemma NonNegativeExact(text: int -> string, calls: seq<Call>, c: Call)
    requires Sound(text) && c.code >= 0
    ensures Answer(text, After(text, calls), c) == Slow(text, c)
  {
    hide Slow;
    AnswerExact(text, calls, c);
  }

  /** And visible for a negative one as soon as its mirror has been asked for. */
  lemma NegativeFails(text: int -> string, code: int)
    requires Sound(text) && text(code) != ""
    ensures var c := Call(true, -code);
      Answer(text, After(text, [Mirror(c)]), c) == Slow(text, Mirror(c)) != Slow(text, c)
  {
    AnswerExact(text, [Call(false, code)], Call(true, -code));
    assert Slow(text, Call(false, code))[7] == '0' && Slow(text, Call(true, -code))[7] == '1';
  }

  // ----- Calls side by side

  /** A call between its two critical sections, or answered. */
  datatype Pc = Started(c: Call) | Missed(c: Call) | Answered(c: Call, line: string)

  datatype State = State(lines: map<int, string>, calls: seq<Pc>)

  datatype Action = Start(c: Call) | LookUp(t: nat) | Store(t: nat)

  function Step(text: int -> string, s: State, a: Action): State {
    match a
    case Start(c) => s.(calls := s.calls + [Started(c)])
    case LookUp(t) =>
      if t < |s.calls| && s.calls[t].Started? then
        var c := s.calls[t].c;
        s.(calls := s.calls[t := if Key(c) in s.lines then Answered(c, s.lines[Key(c)]) else Missed(c)])
      else s
    case Store(t) =>
      if t < |s.calls| && s.calls[t].Missed? then
        var c := s.calls[t].c;
        var lines := if text(c.code) != "" then s.lines[Key(c) := Slow(text, c)] else s.lines;
        State(lines, s.calls[t := Answered(c, Slow(text, c))])
      else s
  }

  function Run(text: int -> string, actions: seq<Action>): State {
    if actions == [] then State(map[], []) else Step(text, Run(text, actions[..|actions|-1]), actions[|actions|-1])
  }

  /** A call ends with its two critical sections, and starts with none of them run. */
  lemma CallEnds(text: int -> string, s: State, t: nat)
    requires t < |s.calls| && s.calls[t].Started?
    ensures var u := Step(text, Step(text, s, LookUp(t)), Store(t));
      && |u.calls| == |s.calls| && u.calls[t].Answered? && u.calls[t].c == s.calls[t].c
      && forall i :: 0 <= i < |s.calls| && i != t ==> u.calls[i] == s.calls[i]
    ensures forall c: Call :: Step(text, s, Start(c)).calls == s.calls + [Started(c)]
  {
    hide Slow;
  }

  ghost predicate Inv(text: int -> string, s: State) {
    && (forall k <- s.lines :: k != 0 && s.lines[k] == Slow(text, Call(k > 0, if k > 0 then k else -k)))
    && (forall p <- s.calls :: p.Answered? ==>
          p.line == Slow(text, p.c) || (p.c.code < 0 && p.line == Slow(text, Mirror(p.c))))
  }

  lemma {:induction false} RunKeeps(text: int -> string, actions: seq<Action>)
    requires Sound(text)
    ensures Inv(text, Run(text, actions))
  {
    hide Slow;
    if actions != [] {
      RunKeeps(text, actions[..|actions|-1]);
    }
  }

  /** Under any interleaving of lookups and stores, calls with codes that are not negative get the slow path's line. */
  lemma ConcurrentExact(text: int -> string, actions: seq<Action>, t: nat)
    requires Sound(text) && t < |Run(text, actions).calls| && Run(text, actions).calls[t].Answered?
    requires Run(text, actions).calls[t].c.code >= 0
    ensures Run(text, actions).calls[t].line == Slow(text, Run(text, actions).calls[t].c)
  {
    hide Slow;
    RunKeeps(text, actions);
    assert Run(text, actions).calls[t] in Run(text, actions).calls;
  }
}

/** Small vocabulary shared by every module. */
module Basics {
  datatype Option<+T> = None | Some(value: T)

  datatype Result<+T, +E> = Ok(value: T) | Err(error: E)

  ghost predicate NoDup<T>(s: seq<T>) {
    forall i, j :: 0 <= i < j < |s| ==> s[i] != s[j]
  }

  ghost predicate IsPrefix<T>(p: seq<T>, s: seq<T>) {
    |p| <= |s| && p == s[..|p|]
  }

  /** strings.Join. */
  function Join(ts: seq<string>, sep: string): string {
    if ts == [] then "" else if |ts| == 1 then ts[0] else ts[0] + sep + Join(ts[1..], sep)
  }

  /** strings.Split at a character. */
  function Split(s: string, sep: char): (ts: seq<string>)
    ensures ts != []
  {
    if s == "" then [""] else
    var rest := Split(s[1..], sep);
    if s[0] == sep then [""] + rest else [[s[0]] + rest[0]] + rest[1..]
  }

  lemma {:induction false} SplitPlain(t: string, sep: char)
    requires sep !in t
    ensures Split(t, sep) == [t]
  {
    if t != "" { SplitPlain(t[1..], sep); assert t == [t[0]] + t[1..]; }
  }

  lemma {:induction false} SplitOff(t: string, s: string, sep: char)
    requires sep !in t
    ensures Split(t + [sep] + s, sep) == [t] + Split(s, sep)
  {
    if t == "" {
      assert ([sep] + s)[1..] == s && t + [sep] + s == [sep] + s;
    } else {
      SplitOff(t[1..], s, sep);
      assert (t + [sep] + s)[1..] == t[1..] + [sep] + s;
      assert t == [t[0]] + t[1..];
    }
  }

  /** What was joined can be split again. */
  lemma {:induction false} SplitJoin(ts: seq<string>, sep: char)
    requires ts != [] && forall t <- ts :: sep !in t
    ensures Split(Join(ts, [sep]), sep) == ts
  {
    assert ts[0] in ts;
    if |ts| == 1 {
      SplitPlain(ts[0], sep);
    } else {
      SplitJoin(ts[1..], sep);
      SplitOff(ts[0], Join(ts[1..], [sep]), sep);
    }
  }

  lemma {:induction false} JoinBoth(a: seq<string>, b: seq<string>, sep: string)
    requires a != [] && b != []
    ensures Join(a + b, sep) == Join(a, sep) + sep + Join(b, sep)
  {
    if |a| == 1 {
      assert (a + b)[1..] == b;
    } else {
      JoinBoth(a[1..], b, sep);
      assert (a + b)[1..] == a[1..] + b;
    }
  }

  /** Two to the power of `e`. */
  function Pow2(e: nat): (p: nat)
    ensures p > 0
  {
    if e == 0 then 1 else 2 * Pow2(e - 1)
  }

  /** The int64 with the low 64 bits of `x`. */
  function ToInt64(x: int): int {
    var m := x % Pow2(64);
    if m >= Pow2(63) then m - Pow2(64) else m
  }

  lemma {:induction false} Pow2Adds(a: nat, b: nat)
    ensures Pow2(a + b) == Pow2(a) * Pow2(b)
  {
    if a > 0 {
      Pow2Adds(a - 1, b);
      assert 2 * (Pow2(a - 1) * Pow2(b)) == (2 * Pow2(a - 1)) * Pow2(b);
    }
  }

  lemma Pow2Step(n: nat)
    ensures Pow2(n + 1) == 2 * Pow2(n)
  {
  }

  lemma WordSizes()
    ensures Pow2(63) == 0x8000_0000_0000_0000 && Pow2(64) == 0x1_0000_0000_0000_0000
  {
    assert Pow2(8) == 256;
    Pow2Adds(8, 8);
    Pow2Adds(16, 16);
    Pow2Adds(32, 32);
    Pow2Step(63);
  }
}

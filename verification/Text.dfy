/** The string functions of JavaScript that other modules need. */
module Text {

  /** White space and line terminators, as `trim` sees them. */
  predicate IsSpace(c: char) {
    || '\t' <= c <= '\r' || c == ' ' || c == '\U{A0}' || c == '\U{1680}' || '\U{2000}' <= c <= '\U{200A}'
    || c == '\U{2028}' || c == '\U{2029}' || c == '\U{202F}' || c == '\U{205F}' || c == '\U{3000}' || c == '\U{FEFF}'
  }

  function TrimStart(s: string): string {
    if s != "" && IsSpace(s[0]) then TrimStart(s[1..]) else s
  }

  function TrimEnd(s: string): string {
    if s != "" && IsSpace(s[|s| - 1]) then TrimEnd(s[..|s| - 1]) else s
  }

  function Trim(s: string): string {
    TrimEnd(TrimStart(s))
  }

  /** No white space at either end. */
  predicate Tight(s: string) {
    s == "" || (!IsSpace(s[0]) && !IsSpace(s[|s| - 1]))
  }

  lemma {:induction false} TrimStartEnds(s: string)
    ensures TrimStart(s) == "" || !IsSpace(TrimStart(s)[0])
    ensures s != "" && !IsSpace(s[|s| - 1]) ==> TrimStart(s) != "" && TrimStart(s)[|TrimStart(s)| - 1] == s[|s| - 1]
  {
    if s != "" && IsSpace(s[0]) {
      TrimStartEnds(s[1..]);
    }
  }

  lemma {:induction false} TrimEndStarts(s: string)
    ensures TrimEnd(s) == "" || !IsSpace(TrimEnd(s)[|TrimEnd(s)| - 1])
    ensures s != "" && !IsSpace(s[0]) ==> TrimEnd(s) != "" && TrimEnd(s)[0] == s[0]
  {
    if s != "" && IsSpace(s[|s| - 1]) {
      TrimEndStarts(s[..|s| - 1]);
    }
  }

  /** Trimming makes a string tight, and leaves exactly the tight strings as they are. */
  lemma TrimTightens(s: string)
    ensures Tight(Trim(s))
    ensures Trim(s) == s <==> Tight(s)
  {
    TrimStartEnds(s);
    TrimEndStarts(TrimStart(s));
  }

  function LowerChar(c: char): char {
    if 'A' <= c <= 'Z' then c - 'A' + 'a' else c
  }

  /** `toLowerCase`, for comparison with a lower-case English word. */
  function Lower(s: string): string {
    if s == "" then "" else [LowerChar(s[0])] + Lower(s[1..])
  }

  lemma {:induction false} LowerKeeps(s: string)
    requires forall i :: 0 <= i < |s| ==> !('A' <= s[i] <= 'Z')
    ensures Lower(s) == s
  {
    if s != "" {
      LowerKeeps(s[1..]);
      assert s == [s[0]] + s[1..];
    }
  }

  /** Lower case, position by position: a capital letter has its small one 32 codes further on. */
  lemma {:induction false} LowerAt(s: string, i: nat)
    requires i < |s|
    ensures |Lower(s)| == |s|
    ensures Lower(s)[i] as int == s[i] as int + (if 65 <= s[i] as int <= 90 then 32 else 0)
  {
    if |s| > 1 {
      LowerAt(s[1..], if i > 0 then i - 1 else 0);
    } else {
      assert Lower(s[1..]) == "";
    }
  }

  // ----- Trimming, said without stripping -----

  predicate Blank(s: string) {
    forall i :: 0 <= i < |s| ==> IsSpace(s[i])
  }

  lemma {:induction false} TrimStartCuts(s: string) returns (a: string)
    ensures Blank(a) && s == a + TrimStart(s)
  {
    if s != "" && IsSpace(s[0]) {
      var b := TrimStartCuts(s[1..]);
      a := [s[0]] + b;
    } else {
      a := "";
    }
  }

  lemma {:induction false} TrimEndCuts(s: string) returns (b: string)
    ensures Blank(b) && s == TrimEnd(s) + b
  {
    if s != "" && IsSpace(s[|s| - 1]) {
      var c := TrimEndCuts(s[..|s| - 1]);
      b := c + [s[|s| - 1]];
    } else {
      b := "";
    }
  }

  lemma {:induction false} TrimStartOf(a: string, t: string)
    requires Blank(a) && (t == "" || !IsSpace(t[0]))
    ensures TrimStart(a + t) == t
  {
    if a == "" {
      assert a + t == t;
    } else {
      assert (a + t)[1..] == a[1..] + t;
      TrimStartOf(a[1..], t);
    }
  }

  lemma {:induction false} TrimEndOf(t: string, b: string)
    requires Blank(b) && (t == "" || !IsSpace(t[|t| - 1]))
    ensures TrimEnd(t + b) == t
  {
    if b == "" {
      assert t + b == t;
    } else {
      assert (t + b)[..|t + b| - 1] == t + b[..|b| - 1];
      TrimEndOf(t, b[..|b| - 1]);
    }
  }

  /** Only white space is taken from `s` at its ends to get `t`. */
  ghost predicate Strips(s: string, t: string) {
    exists a, b :: Blank(a) && Blank(b) && s == a + t + b
  }

  lemma TrimStrips(s: string)
    ensures Strips(s, Trim(s))
  {
    var a := TrimStartCuts(s);
    var b := TrimEndCuts(TrimStart(s));
    hide TrimStart, TrimEnd, Blank;
    assert s == a + Trim(s) + b;
  }

  lemma StripsTrim(s: string, t: string, a: string, b: string)
    requires Tight(t) && Blank(a) && Blank(b) && s == a + t + b
    ensures Trim(s) == t
  {
    hide IsSpace, TrimStart, TrimEnd;
    if t == "" {
      assert s == a + b && s + "" == s;
      assert Blank(s);
      TrimStartOf(s, "");
      assert "" + "" == "";
      TrimEndOf("", "");
    } else {
      assert s == a + (t + b) && (t + b)[0] == t[0];
      TrimStartOf(a, t + b);
      TrimEndOf(t, b);
    }
  }

  /** The trimmed text is the one text without white space at its ends that is left of `s` when only white
      space is taken away at the ends. */
  lemma TrimExactlyWhen(s: string, t: string)
    ensures Trim(s) == t <==> Tight(t) && Strips(s, t)
  {
    TrimTightens(s);
    TrimStrips(s);
    hide Trim, Tight, Blank;
    if Tight(t) && Strips(s, t) {
      var a, b :| Blank(a) && Blank(b) && s == a + t + b;
      StripsTrim(s, t, a, b);
    }
  }

  // ----- Decimal digits -----

  predicate IsDigit(c: char) {
    '0' <= c <= '9'
  }

  predicate Digits(s: string) {
    forall i :: 0 <= i < |s| ==> IsDigit(s[i])
  }

  function Value(c: char): nat
    requires IsDigit(c)
  {
    (c - '0') as nat
  }

  function Number(s: string): nat
    requires Digits(s)
  {
    if s == "" then 0 else 10 * Number(s[..|s| - 1]) + Value(s[|s| - 1])
  }

  function Power(n: nat): nat {
    if n == 0 then 1 else 10 * Power(n - 1)
  }

  lemma Shift(n: nat, p: nat, m: nat, d: nat)
    ensures 10 * (n * p + m) + d == n * (10 * p) + (10 * m + d)
  {
  }

  lemma {:induction false} NumberConcat(a: string, b: string)
    requires Digits(a) && Digits(b)
    ensures Digits(a + b) && Number(a + b) == Number(a) * Power(|b|) + Number(b)
  {
    if b == "" {
      assert a + b == a;
    } else {
      var rest, last := b[..|b| - 1], Value(b[|b| - 1]);
      NumberConcat(a, rest);
      assert (a + b)[..|a + b| - 1] == a + rest;
      assert Number(a + b) == 10 * Number(a + rest) + last;
      assert Number(b) == 10 * Number(rest) + last && Power(|b|) == 10 * Power(|rest|);
      hide Number, Power, Digits;
      Shift(Number(a), Power(|rest|), Number(rest), last);
    }
  }

  lemma {:induction false} NumberIsBelow(s: string)
    requires Digits(s)
    ensures Number(s) < Power(|s|)
  {
    if s != "" {
      NumberIsBelow(s[..|s| - 1]);
    }
  }

  // ----- Order -----

  /** `<` on strings: by code units. */
  predicate Less(a: string, b: string) {
    b != [] && (a == [] || a[0] < b[0] || (a[0] == b[0] && Less(a[1..], b[1..])))
  }

  /** `a` is a proper beginning of `b`, or has the smaller character where they first differ. */
  ghost predicate Precedes(a: string, b: string) {
    exists k :: 0 <= k <= |a| && k < |b| && a[..k] == b[..k] && (k == |a| || a[k] < b[k])
  }

  lemma {:induction false} LessExactlyWhen(a: string, b: string)
    ensures Less(a, b) <==> Precedes(a, b)
  {
    if a != [] && b != [] {
      LessExactlyWhen(a[1..], b[1..]);
      if a[0] == b[0] && Precedes(a[1..], b[1..]) {
        var k :| 0 <= k <= |a| - 1 && k < |b| - 1 && a[1..][..k] == b[1..][..k] && (k == |a| - 1 || a[1..][k] < b[1..][k]);
        assert a[..k + 1] == [a[0]] + a[1..][..k] && b[..k + 1] == [b[0]] + b[1..][..k];
        assert a[..k + 1] == b[..k + 1];
      }
      if Precedes(a, b) && !(a[0] < b[0]) {
        var k :| 0 <= k <= |a| && k < |b| && a[..k] == b[..k] && (k == |a| || a[k] < b[k]);
        assert k > 0 && a[..k][0] == b[..k][0];
        assert a[1..][..k - 1] == a[..k][1..] && b[1..][..k - 1] == b[..k][1..];
      }
      if a[0] < b[0] {
        assert a[..0] == b[..0];
      }
    } else if b != [] {
      assert a[..0] == b[..0];
    }
  }

  /** Exactly one of two different texts comes first, and none comes before itself. */
  lemma {:induction false} LessIsTotal(a: string, b: string)
    ensures Less(a, b) || Less(b, a) <==> a != b
    ensures !(Less(a, b) && Less(b, a))
  {
    if a != [] && b != [] {
      LessIsTotal(a[1..], b[1..]);
      assert a == [a[0]] + a[1..] && b == [b[0]] + b[1..];
    }
  }

  lemma {:induction false} LessConcat(a: string, b: string, x: string, y: string)
    requires |a| == |b|
    ensures Less(a + x, b + y) <==> Less(a, b) || (a == b && Less(x, y))
  {
    if a == [] {
      assert a + x == x && b + y == y;
    } else {
      LessConcat(a[1..], b[1..], x, y);
      assert (a + x)[1..] == a[1..] + x && (b + y)[1..] == b[1..] + y;
      assert a == [a[0]] + a[1..] && b == [b[0]] + b[1..];
    }
  }

  lemma Leading(p: nat, m: nat, n: nat, c: nat, d: nat)
    requires m < p && n < p && c < d
    ensures c * p + m < d * p + n
  {
    assert (c + 1) * p <= d * p;
  }

  /** Numbers with equally many digits are ordered like their texts. */
  lemma {:induction false} NumberOrder(a: string, b: string)
    requires Digits(a) && Digits(b) && |a| == |b|
    ensures Less(a, b) <==> Number(a) < Number(b)
  {
    if a != [] {
      var x, y := a[1..], b[1..];
      NumberOrder(x, y);
      assert a == [a[0]] + x && b == [b[0]] + y;
      NumberConcat([a[0]], x);
      NumberConcat([b[0]], y);
      NumberIsBelow(x);
      NumberIsBelow(y);
      OneDigit(a[0]);
      OneDigit(b[0]);
      hide Number, Power;
      if a[0] < b[0] {
        Leading(Power(|x|), Number(x), Number(y), Value(a[0]), Value(b[0]));
      } else if b[0] < a[0] {
        Leading(Power(|x|), Number(y), Number(x), Value(b[0]), Value(a[0]));
      }
    }
  }

  lemma OneDigit(c: char)
    requires IsDigit(c)
    ensures Number([c]) == Value(c)
  {
    assert [c][..0] == "";
  }
}

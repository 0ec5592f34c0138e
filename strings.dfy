/**
 * The pieces of Python string handling the deck writer relies on:
 * `str.join`, `str.split`, `'%-10s'`, `'%d'`, `'%03d'` and `os.path.splitext`
 * (POSIX flavour), each with the partner that pins down what it means.
 */
module Strings {

  /** `c * n`: `n` copies of the character `c`. */
  function Repeat(c: char, n: nat): (r: string)
    ensures |r| == n
    ensures forall i :: 0 <= i < n ==> r[i] == c
  {
    if n == 0 then "" else [c] + Repeat(c, n - 1)
  }

  /** `' ' * n` */
  function Spaces(n: nat): string
  {
    Repeat(' ', n)
  }

  /** `'0' * n` */
  function Zeros(n: nat): string
  {
    Repeat('0', n)
  }

  /** `'%-<w>s' % s`: left-justified in a field of at least `w`, never truncated. */
  function PadRight(s: string, w: nat): (r: string)
    ensures |r| == if |s| < w then w else |s|
    ensures r[..|s|] == s
    ensures forall i :: |s| <= i < |r| ==> r[i] == ' '
  {
    if |s| < w then s + Spaces(w - |s|) else s
  }

  predicate StartsWith(s: string, prefix: string)
  {
    |prefix| <= |s| && s[..|prefix|] == prefix
  }

  // ---------------------------------------------------------------------------
  // str.join and str.split

  /** `sep.join(xs)` */
  function Join(xs: seq<string>, sep: string): string
  {
    if |xs| == 0 then ""
    else if |xs| == 1 then xs[0]
    else xs[0] + sep + Join(xs[1..], sep)
  }

  /** `s.split(c)` for a one-character separator: always at least one piece. */
  function Split(s: string, c: char): (r: seq<string>)
    ensures |r| >= 1
  {
    if |s| == 0 then [""]
    else
      var rest := Split(s[1..], c);
      if s[0] == c then [""] + rest else [[s[0]] + rest[0]] + rest[1..]
  }

  /** Joining two non-empty lists puts exactly one separator between the halves. */
  lemma {:induction false} JoinAppend(a: seq<string>, b: seq<string>, sep: string)
    requires |a| > 0 && |b| > 0
    ensures Join(a + b, sep) == Join(a, sep) + sep + Join(b, sep)
  {
    if |a| == 1 {
      assert (a + b)[1..] == b;
    } else {
      assert (a + b)[1..] == a[1..] + b;
      JoinAppend(a[1..], b, sep);
    }
  }

  /** A piece with no separator in it, followed by the separator, is split off whole. */
  lemma {:induction false} SplitAfter(a: string, c: char, b: string)
    requires c !in a
    ensures Split(a + [c] + b, c) == [a] + Split(b, c)
  {
    if |a| == 0 {
      assert a + [c] + b == [c] + b;
      assert ([c] + b)[1..] == b;
    } else {
      assert (a + [c] + b)[1..] == a[1..] + [c] + b;
      SplitAfter(a[1..], c, b);
      assert [a[0]] + a[1..] == a;
    }
  }

  /** A string without the separator splits into itself. */
  lemma {:induction false} SplitWhole(a: string, c: char)
    requires c !in a
    ensures Split(a, c) == [a]
  {
    if |a| > 0 {
      SplitWhole(a[1..], c);
      assert [a[0]] + a[1..] == a;
    }
  }

  /** `split` undoes `join` when no element holds the separator. */
  lemma {:induction false} SplitJoin(xs: seq<string>, c: char)
    requires |xs| > 0
    requires forall i :: 0 <= i < |xs| ==> c !in xs[i]
    ensures Split(Join(xs, [c]), c) == xs
  {
    if |xs| == 1 {
      SplitWhole(xs[0], c);
    } else {
      SplitAfter(xs[0], c, Join(xs[1..], [c]));
      assert xs[0] + [c] + Join(xs[1..], [c]) == Join(xs, [c]);
      SplitJoin(xs[1..], c);
    }
  }

  /** The text of successive `fp.write(line + '\n')` calls. */
  function Lines(ls: seq<string>): string
  {
    if |ls| == 0 then "" else ls[0] + "\n" + Lines(ls[1..])
  }

  lemma {:induction false} LinesConcat(a: seq<string>, b: seq<string>)
    ensures Lines(a + b) == Lines(a) + Lines(b)
  {
    if |a| > 0 {
      assert (a + b)[1..] == a[1..] + b;
      LinesConcat(a[1..], b);
    } else {
      assert a + b == b;
    }
  }

  /** Splitting newline-terminated lines at the line breaks gives them back, and then what follows. */
  lemma {:induction false} SplitLinesPrefix(ls: seq<string>, t: string)
    requires forall i :: 0 <= i < |ls| ==> '\n' !in ls[i]
    ensures Split(Lines(ls) + t, '\n') == ls + Split(t, '\n')
  {
    if |ls| > 0 {
      var head, rest := ls[0], ls[1..];
      var tail := Lines(rest) + t;
      assert Lines(ls) == head + "\n" + Lines(rest);
      ConcatAssoc(head + "\n", Lines(rest), t);
      SplitAfter(head, '\n', tail);
      SplitLinesPrefix(rest, t);
      assert [head] + rest == ls;
      ConcatAssoc([head], rest, Split(t, '\n'));
    } else {
      assert Lines(ls) + t == t;
    }
  }

  lemma ConcatAssoc<T>(a: seq<T>, b: seq<T>, c: seq<T>)
    ensures a + b + c == a + (b + c)
  {
  }

  /** A text of newline-terminated lines splits into those lines and a final empty piece. */
  lemma SplitLines(ls: seq<string>)
    requires forall i :: 0 <= i < |ls| ==> '\n' !in ls[i]
    ensures Split(Lines(ls), '\n') == ls + [""]
  {
    SplitLinesPrefix(ls, "");
    assert Lines(ls) + "" == Lines(ls);
  }

  /** The text after the last space: the last field of a space-separated row. */
  function LastField(line: string): (r: string)
    ensures ' ' !in r
  {
    line[LastIndex(line, ' ') + 1..]
  }

  lemma LastFieldAfter(a: string, b: string)
    requires ' ' !in b
    ensures LastField(a + " " + b) == b
  {
    var s := a + " " + b;
    assert s[|a|] == ' ';
    assert forall j :: |a| < j < |s| ==> s[j] == b[j - |a| - 1];
    assert LastIndex(s, ' ') == |a|;
  }

  // ---------------------------------------------------------------------------
  // Decimal integers: '%d' and '%03d'

  predicate IsDigit(ch: char)
  {
    '0' <= ch <= '9'
  }

  predicate AllDigits(s: string)
  {
    forall i :: 0 <= i < |s| ==> IsDigit(s[i])
  }

  function DigitChar(d: nat): (ch: char)
    requires d < 10
    ensures IsDigit(ch)
  {
    ('0' as int + d) as char
  }

  /** The decimal digits of `n`, most significant first, without leading zeros. */
  function NatToDigits(n: nat): (r: string)
    ensures |r| >= 1 && AllDigits(r)
    decreases n
  {
    if n < 10 then [DigitChar(n)] else NatToDigits(n / 10) + [DigitChar(n % 10)]
  }

  /** The number a string of decimal digits denotes (leading zeros allowed). */
  function DigitsValue(s: string): nat
    requires AllDigits(s)
  {
    if |s| == 0 then 0
    else DigitsValue(s[..|s| - 1]) * 10 + (s[|s| - 1] as int - '0' as int)
  }

  /** Reading back the digits of `n` gives `n`, and only zero starts with a `0`. */
  lemma {:induction false} DigitsRoundTrip(n: nat)
    ensures DigitsValue(NatToDigits(n)) == n
    ensures NatToDigits(n)[0] == '0' <==> n == 0
    decreases n
  {
    var r := NatToDigits(n);
    if n >= 10 {
      DigitsRoundTrip(n / 10);
      assert r[..|r| - 1] == NatToDigits(n / 10);
    }
  }

  /** Leading zeros do not change the value of a digit string. */
  lemma {:induction false} LeadingZerosValue(z: nat, s: string)
    requires AllDigits(s)
    ensures AllDigits(Zeros(z) + s)
    ensures DigitsValue(Zeros(z) + s) == DigitsValue(s)
    decreases |s|
  {
    var t := Zeros(z) + s;
    if |s| == 0 {
      assert t == Zeros(z);
      ZerosValue(z);
    } else {
      assert t[..|t| - 1] == Zeros(z) + s[..|s| - 1];
      LeadingZerosValue(z, s[..|s| - 1]);
    }
  }

  lemma {:induction false} ZerosValue(z: nat)
    ensures AllDigits(Zeros(z)) && DigitsValue(Zeros(z)) == 0
  {
    if z > 0 {
      assert Zeros(z)[..z - 1] == Zeros(z - 1);
      ZerosValue(z - 1);
    }
  }

  /** `'%d' % i` */
  function IntToString(i: int): string
  {
    if i < 0 then "-" + NatToDigits(-i) else NatToDigits(i)
  }

  /** A decimal integer as `'%d'` writes one: an optional minus, then digits. */
  predicate IsDecimal(s: string)
  {
    if |s| > 0 && s[0] == '-' then |s| > 1 && AllDigits(s[1..]) else |s| > 0 && AllDigits(s)
  }

  function ParseDecimal(s: string): int
    requires IsDecimal(s)
  {
    if s[0] == '-' then 0 - DigitsValue(s[1..]) else DigitsValue(s)
  }

  /** `'%d'` is read back exactly, and writes no leading zero and no `-0`. */
  lemma IntToStringRoundTrip(i: int)
    ensures IsDecimal(IntToString(i))
    ensures ParseDecimal(IntToString(i)) == i
    ensures IntToString(i)[0] == '-' <==> i < 0
    ensures i != 0 ==> IntToString(i)[if i < 0 then 1 else 0] != '0'
  {
    if i < 0 {
      DigitsRoundTrip(-i);
      assert IntToString(i)[1..] == NatToDigits(-i);
    } else {
      DigitsRoundTrip(i);
    }
  }

  /** `'%0<w>d' % n` for `n >= 0`: zero-filled on the left to at least `w` digits. */
  function ZeroPad(n: nat, w: nat): (r: string)
    ensures AllDigits(r)
  {
    var d := NatToDigits(n);
    LeadingZerosValue(if |d| < w then w - |d| else 0, d);
    if |d| < w then Zeros(w - |d|) + d else d
  }

  /** The zero-filled form is at least `w` long and still denotes `n`. */
  lemma ZeroPadValue(n: nat, w: nat)
    ensures |ZeroPad(n, w)| >= w
    ensures |ZeroPad(n, w)| == if |NatToDigits(n)| < w then w else |NatToDigits(n)|
    ensures DigitsValue(ZeroPad(n, w)) == n
  {
    var d := NatToDigits(n);
    DigitsRoundTrip(n);
    if |d| < w {
      assert ZeroPad(n, w) == Zeros(w - |d|) + d;
      LeadingZerosValue(w - |d|, d);
    } else {
      assert ZeroPad(n, w) == d;
    }
  }

  /** Below 1000, `'%03d'` is exactly three digits. */
  lemma ZeroPadThree(n: nat)
    requires n < 1000
    ensures |ZeroPad(n, 3)| == 3
    ensures DigitsValue(ZeroPad(n, 3)) == n
  {
    ZeroPadValue(n, 3);
    if n >= 10 {
      assert |NatToDigits(n)| == |NatToDigits(n / 10)| + 1;
      if n >= 100 {
        assert |NatToDigits(n / 10)| == |NatToDigits(n / 100)| + 1;
      }
    }
  }

  // ---------------------------------------------------------------------------
  // os.path.splitext (POSIX)

  /** `s.rfind(c)`: the last index holding `c`, or -1. */
  function LastIndex(s: string, c: char): (r: int)
    ensures -1 <= r < |s|
    ensures r >= 0 ==> s[r] == c
    ensures forall j :: r < j < |s| ==> s[j] != c
  {
    if |s| == 0 then -1
    else if s[|s| - 1] == c then |s| - 1
    else LastIndex(s[..|s| - 1], c)
  }

  /** Some character of `s[lo..hi]` is not a dot. */
  predicate HasNonDot(s: string, lo: int, hi: int)
    requires 0 <= lo <= hi <= |s|
    decreases hi - lo
  {
    lo < hi && (s[lo] != '.' || HasNonDot(s, lo + 1, hi))
  }

  /**
   * `os.path.splitext(p)`: the extension starts at the last `.` of the last
   * path component, unless that component is only leading dots before it
   * (so `.bashrc` has no extension).
   */
  function SplitExt(p: string): (r: (string, string))
    ensures r.0 + r.1 == p
    ensures |r.1| == 0 || r.1[0] == '.'
  {
    var sepIndex := LastIndex(p, '/');
    var dotIndex := LastIndex(p, '.');
    if dotIndex > sepIndex && HasNonDot(p, sepIndex + 1, dotIndex) then
      (p[..dotIndex], p[dotIndex..])
    else
      (p, "")
  }

  /** A name with a one-dot extension and no directory part splits at that dot. */
  lemma SplitExtPlain(stem: string, ext: string)
    requires |stem| > 0 && '.' !in stem && '/' !in stem
    requires |ext| > 0 && ext[0] == '.' && '.' !in ext[1..] && '/' !in ext
    ensures SplitExt(stem + ext) == (stem, ext)
  {
    var p := stem + ext;
    assert '/' !in p by {
      forall j | 0 <= j < |p| ensures p[j] != '/' {
        if j >= |stem| { assert p[j] == ext[j - |stem|]; }
      }
    }
    assert LastIndex(p, '/') == -1;
    assert p[|stem|] == '.';
    forall j | |stem| < j < |p| ensures p[j] != '.' {
      assert p[j] == ext[1..][j - |stem| - 1];
    }
    assert LastIndex(p, '.') == |stem|;
    assert p[0] == stem[0] != '.';
    assert HasNonDot(p, 0, |stem|);
    assert p[..|stem|] == stem && p[|stem|..] == ext;
  }
}

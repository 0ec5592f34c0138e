/**
 * XBeachParams: an ordered key/value record and its `key = value` text form
 * (`pretty_print`, `pretty_print_value`), plus the `enumerate_filename`
 * helper the boundary-file writers share.
 */
module Params {
  import opened Wrappers
  import opened Strings
  import opened OrderedDicts

  /**
   * The value kinds `pretty_print_value` distinguishes by exact type.
   * A float carries the caller's `'%0.4f'` rendering of it, and any other
   * object the text `str(v)` gives; both are emitted as they are.
   */
  datatype Value =
    | VList(items: seq<Value>)
    | VStr(s: string)
    | VInt(i: int)
    | VFloat(fixed4: string)
    | VBool(b: bool)
    | VOther(str: string)

  type Record = Dict<Value>

  /** `pretty_print_value`: a list is its elements' renderings joined by one space. */
  function Render(v: Value): string
  {
    match v
    case VList(items) => Join(seq(|items|, i requires 0 <= i < |items| => Render(items[i])), " ")
    case VStr(s) => s
    case VInt(i) => IntToString(i)
    case VFloat(fixed4) => fixed4
    case VBool(b) => if b then "1" else "0"
    case VOther(str) => str
  }

  /** The renderings of the non-list values of `v`, left to right, at any depth. */
  function Leaves(v: Value): seq<string>
  {
    match v
    case VList(items) => LeavesOf(items)
    case _ => [Render(v)]
  }

  function LeavesOf(items: seq<Value>): seq<string>
  {
    if |items| == 0 then [] else Leaves(items[0]) + LeavesOf(items[1..])
  }

  /** No list inside `v`, at any depth, is empty. */
  predicate NoEmptyList(v: Value)
  {
    match v
    case VList(items) => |items| > 0 && forall i :: 0 <= i < |items| ==> NoEmptyList(items[i])
    case _ => true
  }

  /** Scalars render as `'%d'`, verbatim or `1`/`0`; a bool never renders as `True`. */
  lemma RenderScalars(i: int, s: string, b: bool)
    ensures Render(VInt(i)) == IntToString(i)
    ensures IsDecimal(Render(VInt(i))) && ParseDecimal(Render(VInt(i))) == i
    ensures Render(VStr(s)) == s
    ensures Render(VBool(b)) == (if b then "1" else "0")
    ensures Render(VList([])) == ""
  {
    IntToStringRoundTrip(i);
  }

  /** A list of one element renders exactly as that element. */
  lemma RenderSingleton(v: Value)
    ensures Render(VList([v])) == Render(v)
  {
  }

  /**
   * Nested lists flatten: as long as no list is empty, a value renders as its
   * leaves joined by single spaces.
   */
  lemma {:induction false} RenderFlattens(v: Value)
    requires NoEmptyList(v)
    ensures |Leaves(v)| > 0
    ensures Render(v) == Join(Leaves(v), " ")
    decreases v, 1
  {
    match v
    case VList(items) =>
      RenderItemsFlatten(items);
    case _ =>
  }

  lemma {:induction false} RenderItemsFlatten(items: seq<Value>)
    requires |items| > 0 && forall i :: 0 <= i < |items| ==> NoEmptyList(items[i])
    ensures |LeavesOf(items)| > 0
    ensures Render(VList(items)) == Join(LeavesOf(items), " ")
    decreases items, 0
  {
    var rs := seq(|items|, i requires 0 <= i < |items| => Render(items[i]));
    RenderFlattens(items[0]);
    if |items| == 1 {
      assert LeavesOf(items) == Leaves(items[0]);
    } else {
      var rest := items[1..];
      assert rest[0] in items;
      RenderItemsFlatten(rest);
      assert rs[1..] == seq(|rest|, i requires 0 <= i < |rest| => Render(rest[i]));
      JoinAppend(Leaves(items[0]), LeavesOf(rest), " ");
    }
  }

  /**
   * When no list is empty and no leaf holds a space, splitting the rendering at spaces
   * gives back the leaves: the rendering is a space-separated token list.
   */
  lemma RenderTokens(v: Value)
    requires NoEmptyList(v)
    requires forall i :: 0 <= i < |Leaves(v)| ==> ' ' !in Leaves(v)[i]
    ensures Split(Render(v), ' ') == Leaves(v)
  {
    RenderFlattens(v);
    SplitJoin(Leaves(v), ' ');
  }

  // ---------------------------------------------------------------------------
  // pretty_print

  /** `(' ' * indent) + '%-10s = %s\n' % (k, pretty_print_value(v))` */
  function Line(indent: nat, k: string, v: Value): string
  {
    LineBody(indent, k, v) + "\n"
  }

  /** A line without its newline: indent, key padded to 10, ` = `, the value. */
  function LineBody(indent: nat, k: string, v: Value): string
  {
    Spaces(indent) + (PadRight(k, 10) + (" = " + Render(v)))
  }

  /** The text `pretty_print(indent)` returns: one line per entry, in order. */
  function RenderRecord(d: Record, indent: nat): string
  {
    if |d| == 0 then "" else Line(indent, d[0].0, d[0].1) + RenderRecord(d[1..], indent)
  }

  lemma {:induction false} RenderRecordAppend(d: Record, e: (string, Value), indent: nat)
    ensures RenderRecord(d + [e], indent) == RenderRecord(d, indent) + Line(indent, e.0, e.1)
  {
    if |d| == 0 {
      assert [e][1..] == [];
    } else {
      assert (d + [e])[1..] == d[1..] + [e];
      RenderRecordAppend(d[1..], e, indent);
    }
  }

  /** `pretty_print`: accumulates the lines of the entries in insertion order. */
  method PrettyPrint(d: Record, indent: nat) returns (s: string)
    ensures s == RenderRecord(d, indent)
  {
    s := "";
    var i := 0;
    while i < |d|
      invariant 0 <= i <= |d|
      invariant s == RenderRecord(d[..i], indent)
    {
      RenderRecordAppend(d[..i], d[i], indent);
      assert d[..i + 1] == d[..i] + [d[i]];
      s := s + Line(indent, d[i].0, d[i].1);
      i := i + 1;
    }
    assert d[..i] == d;
  }

  // ---------------------------------------------------------------------------
  // Reading a line back: the partner of Line

  /** The longest prefix of `s` without the character `c`. */
  function PrefixBefore(s: string, c: char): (r: string)
    ensures |r| <= |s| && r == s[..|r|] && c !in r
    ensures |r| < |s| ==> s[|r|] == c
  {
    if |s| == 0 || s[0] == c then "" else [s[0]] + PrefixBefore(s[1..], c)
  }

  function DropSpaces(s: string): (r: string)
    ensures |r| <= |s| && r == s[|s| - |r|..]
  {
    if |s| > 0 && s[0] == ' ' then DropSpaces(s[1..]) else s
  }

  /**
   * Reads `key` and value text back from a line without its newline: strip
   * `indent` spaces, take the key up to the first space, skip the padding and
   * expect `= ` before the value.
   */
  function ParseLine(line: string, indent: nat): Option<(string, string)>
  {
    if |line| < indent || line[..indent] != Spaces(indent) then None
    else
      var rest := line[indent..];
      var key := PrefixBefore(rest, ' ');
      var tail := DropSpaces(rest[|key|..]);
      if |tail| >= 2 && tail[..2] == "= " then Some((key, tail[2..])) else None
  }

  /** Reads a whole `pretty_print` text back, one entry per line. */
  function ParseRecord(text: string, indent: nat): Option<seq<(string, string)>>
  {
    var pieces := Split(text, '\n');
    if pieces[|pieces| - 1] != "" then None else ParseLines(pieces[..|pieces| - 1], indent)
  }

  function ParseLines(lines: seq<string>, indent: nat): Option<seq<(string, string)>>
  {
    if |lines| == 0 then Some([])
    else
      match (ParseLine(lines[0], indent), ParseLines(lines[1..], indent))
      case (Some(e), Some(es)) => Some([e] + es)
      case _ => None
  }

  /** What a reader of the text can know of a record: keys and rendered values. */
  function Rendered(d: Record): seq<(string, string)>
  {
    if |d| == 0 then [] else [(d[0].0, Render(d[0].1))] + Rendered(d[1..])
  }

  /** A key the reader can recover: no space and no line break in it. */
  predicate PlainKey(k: string)
  {
    ' ' !in k && '\n' !in k
  }

  /** Entries whose keys are plain and whose renderings hold no line break. */
  predicate Printable(d: Record)
  {
    forall i :: 0 <= i < |d| ==> PlainKey(d[i].0) && '\n' !in Render(d[i].1)
  }

  lemma {:induction false} DropSpacesOver(n: nat, t: string)
    requires |t| > 0 && t[0] != ' '
    ensures DropSpaces(Spaces(n) + t) == t
  {
    if n > 0 {
      assert (Spaces(n) + t)[1..] == Spaces(n - 1) + t;
      DropSpacesOver(n - 1, t);
    }
  }

  lemma {:induction false} PrefixBeforeSep(a: string, c: char, b: string)
    requires c !in a
    ensures PrefixBefore(a + [c] + b, c) == a
  {
    if |a| > 0 {
      assert (a + [c] + b)[1..] == a[1..] + [c] + b;
      PrefixBeforeSep(a[1..], c, b);
    }
  }

  lemma {:induction false} PrefixBeforeAt(a: string, b: string, c: char)
    requires c !in a && |b| > 0 && b[0] == c
    ensures PrefixBefore(a + b, c) == a
  {
    if |a| > 0 {
      assert (a + b)[1..] == a[1..] + b;
      PrefixBeforeAt(a[1..], b, c);
    }
  }

  lemma {:induction false} DropSpacesPrefix(n: nat, t: string)
    ensures DropSpaces(Spaces(n) + t) == DropSpaces(t)
  {
    if n > 0 {
      var u := Spaces(n) + t;
      ConcatAssoc(" ", Spaces(n - 1), t);
      assert u == " " + (Spaces(n - 1) + t);
      assert u[1..] == Spaces(n - 1) + t;
      assert DropSpaces(u) == DropSpaces(u[1..]);
      DropSpacesPrefix(n - 1, t);
    } else {
      assert Spaces(n) + t == t;
    }
  }

  /** The key is everything before the first space of the padded key and the rest. */
  lemma KeyBeforeSpace(k: string, r: string)
    requires PlainKey(k)
    ensures PrefixBefore(PadRight(k, 10) + (" = " + r), ' ') == k
  {
    var pad := if |k| < 10 then 10 - |k| else 0;
    PadSplit(k, " = " + r);
    PrefixBeforeAt(k, Spaces(pad) + (" = " + r), ' ');
  }

  /** After the key come only spaces, then `= ` and the value. */
  lemma AfterKey(k: string, r: string)
    ensures DropSpaces((PadRight(k, 10) + (" = " + r))[|k|..]) == "= " + r
  {
    var pad := if |k| < 10 then 10 - |k| else 0;
    var u := "= " + r;
    var e := " " + u;
    assert e == " = " + r;
    PadSplit(k, e);
    DropSpacesPrefix(pad, e);
    assert e[0] == ' ' && e[1..] == u;
    assert DropSpaces(e) == DropSpaces(u);
    assert u[0] == '=';
    assert DropSpaces(u) == u;
  }

  /** The padded key is the key followed by the padding spaces. */
  lemma PadSplit(k: string, e: string)
    ensures var pad := if |k| < 10 then 10 - |k| else 0;
      var t := PadRight(k, 10) + e;
      t == k + (Spaces(pad) + e) && t[|k|..] == Spaces(pad) + e
  {
    var pad := if |k| < 10 then 10 - |k| else 0;
    assert PadRight(k, 10) == k + Spaces(pad);
  }

  /** Every line `pretty_print` writes reads back as its key and rendered value. */
  lemma LineRoundTrip(indent: nat, k: string, v: Value)
    requires PlainKey(k)
    ensures ParseLine(LineBody(indent, k, v), indent) == Some((k, Render(v)))
  {
    var body := LineBody(indent, k, v);
    var t := PadRight(k, 10) + (" = " + Render(v));
    assert body[..indent] == Spaces(indent);
    assert body[indent..] == t;
    KeyBeforeSpace(k, Render(v));
    AfterKey(k, Render(v));
  }

  /**
   * `pretty_print` is read back exactly: one line per entry, in insertion
   * order, each giving the key and the rendered value.
   */
  lemma {:induction false} RenderRecordRoundTrip(d: Record, indent: nat)
    requires Printable(d)
    ensures |Split(RenderRecord(d, indent), '\n')| == |d| + 1
    ensures ParseRecord(RenderRecord(d, indent), indent) == Some(Rendered(d))
  {
    RecordLines(d, indent);
  }

  /** The line bodies of a record's text, without their newlines. */
  function LineBodies(d: Record, indent: nat): (r: seq<string>)
    ensures |r| == |d|
  {
    if |d| == 0 then [] else [LineBody(indent, d[0].0, d[0].1)] + LineBodies(d[1..], indent)
  }

  /** A line of a printable entry holds no line break before its own. */
  lemma LineBodyOneLine(indent: nat, k: string, v: Value)
    requires PlainKey(k) && '\n' !in Render(v)
    ensures '\n' !in LineBody(indent, k, v)
  {
    var pad := PadRight(k, 10);
    assert '\n' !in pad;
    var body := LineBody(indent, k, v);
    forall j | 0 <= j < |body| ensures body[j] != '\n' {
      if j < indent {
        assert body[j] == Spaces(indent)[j];
      } else if j < indent + |pad| {
        assert body[j] == pad[j - indent];
      } else if j >= indent + |pad| + 3 {
        assert body[j] == Render(v)[j - indent - |pad| - 3];
      }
    }
  }

  lemma LineBodiesOneLine(d: Record, indent: nat)
    requires Printable(d)
    ensures forall i :: 0 <= i < |d| ==> '\n' !in LineBodies(d, indent)[i]
  {
    forall i | 0 <= i < |d| ensures '\n' !in LineBodies(d, indent)[i] {
      LineBodyAt(d, indent, i);
      LineBodyOneLine(indent, d[i].0, d[i].1);
    }
  }

  lemma {:induction false} LineBodyAt(d: Record, indent: nat, i: nat)
    requires i < |d|
    ensures LineBodies(d, indent)[i] == LineBody(indent, d[i].0, d[i].1)
  {
    if i > 0 {
      LineBodyAt(d[1..], indent, i - 1);
    }
  }

  /** The text of a record is its line bodies, each followed by a line break. */
  lemma {:induction false} RenderRecordLines(d: Record, indent: nat)
    ensures RenderRecord(d, indent) == Lines(LineBodies(d, indent))
  {
    if |d| > 0 {
      RenderRecordLines(d[1..], indent);
      var bodies := LineBodies(d, indent);
      assert bodies[0] == LineBody(indent, d[0].0, d[0].1) && bodies[1..] == LineBodies(d[1..], indent);
    }
  }

  lemma {:induction false} RecordLines(d: Record, indent: nat)
    requires Printable(d)
    ensures Split(RenderRecord(d, indent), '\n') == LineBodies(d, indent) + [""]
    ensures ParseLines(LineBodies(d, indent), indent) == Some(Rendered(d))
  {
    if |d| > 0 {
      var k, v := d[0].0, d[0].1;
      var body := LineBody(indent, k, v);
      assert '\n' !in body by {
        assert '\n' !in PadRight(k, 10);
      }
      assert Printable(d[1..]) by {
        forall i | 0 <= i < |d[1..]| ensures PlainKey(d[1..][i].0) && '\n' !in Render(d[1..][i].1) {
          assert d[1..][i] == d[i + 1];
        }
      }
      RecordLines(d[1..], indent);
      SplitAfter(body, '\n', RenderRecord(d[1..], indent));
      assert RenderRecord(d, indent) == body + ['\n'] + RenderRecord(d[1..], indent);
      LineRoundTrip(indent, k, v);
      var bodies := LineBodies(d, indent);
      assert bodies[0] == body && bodies[1..] == LineBodies(d[1..], indent);
    }
  }

  // ---------------------------------------------------------------------------
  // enumerate_filename

  /** `enumerate_filename(fname, i)`: `stem_NNN.ext`, the index zero-filled to 3 digits. */
  function EnumerateFilename(fname: string, i: nat): string
  {
    var (stem, ext) := SplitExt(fname);
    stem + "_" + ZeroPad(i, 3) + ext
  }

  /**
   * The enumerated name keeps stem and extension, puts `_` and at least three
   * digits denoting `i` between them, and so differs for different indices.
   */
  lemma EnumerateFilenameShape(fname: string, i: nat)
    ensures var (stem, ext) := SplitExt(fname);
      var r := EnumerateFilename(fname, i);
      |r| >= |stem| + 4 + |ext| &&
      r[..|stem| + 1] == stem + "_" &&
      r[|r| - |ext|..] == ext &&
      AllDigits(r[|stem| + 1..|r| - |ext|]) &&
      DigitsValue(r[|stem| + 1..|r| - |ext|]) == i
  {
    var (stem, ext) := SplitExt(fname);
    var pad := ZeroPad(i, 3);
    ZeroPadValue(i, 3);
    var r := stem + "_" + pad + ext;
    assert r[|stem| + 1..|r| - |ext|] == pad;
  }

  /** Different indices give different file names (for every index, not only below 1000). */
  lemma EnumerateFilenameInjective(fname: string, i: nat, j: nat)
    requires EnumerateFilename(fname, i) == EnumerateFilename(fname, j)
    ensures i == j
  {
    EnumerateFilenameShape(fname, i);
    EnumerateFilenameShape(fname, j);
  }

  /**
   * The enumerated name adds only an underscore and digits to the characters
   * of the original name, so a name without spaces or line breaks keeps
   * none.
   */
  lemma EnumerateFilenameChars(fname: string, i: nat, c: char)
    requires c !in fname && c != '_' && !IsDigit(c)
    ensures c !in EnumerateFilename(fname, i)
  {
    var (stem, ext) := SplitExt(fname);
    assert stem + ext == fname;
    assert c !in stem && c !in ext by {
      forall j | 0 <= j < |stem| ensures stem[j] != c { assert fname[j] == stem[j]; }
      forall j | 0 <= j < |ext| ensures ext[j] != c { assert fname[|stem| + j] == ext[j]; }
    }
    var pad := ZeroPad(i, 3);
    assert c !in pad by {
      forall j | 0 <= j < |pad| ensures pad[j] != c { assert IsDigit(pad[j]); }
    }
  }

  /** For example: `waves.txt` with index 1 becomes `waves_001.txt`. */
  lemma EnumerateWavesExample()
    ensures EnumerateFilename("waves.txt", 1) == "waves_001.txt"
  {
    var p := "waves.txt";
    assert '/' !in p;
    assert LastIndex(p, '/') == -1;
    assert p[5] == '.' && p[6] != '.' && p[7] != '.' && p[8] != '.';
    assert LastIndex(p, '.') == 5;
    assert HasNonDot(p, 0, 5);
    assert p[..5] == "waves" && p[5..] == ".txt";
    assert SplitExt(p) == ("waves", ".txt");
    assert NatToDigits(1) == "1";
    assert ZeroPad(1, 3) == "001";
  }
}

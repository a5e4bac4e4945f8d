/**
  The Python `str` operations the record store is built from: `strip`,
  `split(";")`, `";".join`, `ljust`, line iteration over a text file,
  `str(int)` and `int(str)`.

  Text is a `seq<char>`, one character per byte: the store's offset
  arithmetic only holds for one-byte (ASCII) content.
 */
module PyStr {
  import opened Results

  // ---------------------------------------------------------------------------
  // Whitespace and strip
  // ---------------------------------------------------------------------------

  /** The ASCII characters `str.isspace()` accepts, which `strip()` removes. */
  predicate IsSpace(c: char) {
    c == ' ' || c == '\t' || c == '\n' || c == '\r' || c == '\U{000B}' || c == '\U{000C}'
    || ('\U{001C}' <= c <= '\U{001F}')
  }

  predicate AllSpace(s: string) {
    forall i :: 0 <= i < |s| ==> IsSpace(s[i])
  }

  /** Neither end of `s` is whitespace: `strip()` leaves it alone. */
  predicate Stripped(s: string) {
    s == [] || (!IsSpace(s[0]) && !IsSpace(s[|s| - 1]))
  }

  /** `s.lstrip()`: the longest suffix of `s` after a run of whitespace. */
  function LStrip(s: string): (r: string)
    ensures |r| <= |s| && r == s[|s| - |r|..]
    ensures AllSpace(s[..|s| - |r|])
    ensures r == [] || !IsSpace(r[0])
    ensures AllSpace(s) ==> r == []
  {
    if |s| > 0 && IsSpace(s[0]) then
      var r := LStrip(s[1..]);
      assert s[1..][..|s| - 1 - |r|] == s[1..|s| - |r|];
      r
    else s
  }

  /** `s.rstrip()`: the longest prefix of `s` before a run of whitespace. */
  function RStrip(s: string): (r: string)
    ensures |r| <= |s| && r == s[..|r|]
    ensures AllSpace(s[|r|..])
    ensures r == [] || !IsSpace(r[|r| - 1])
  {
    if |s| > 0 && IsSpace(s[|s| - 1]) then
      var r := RStrip(s[..|s| - 1]);
      assert s[|r|..] == s[..|s| - 1][|r|..] + [s[|s| - 1]];
      r
    else s
  }

  /** `s.strip()`: `s` without the whitespace at its two ends. */
  function Strip(s: string): (r: string)
    ensures Stripped(r)
    ensures Stripped(s) ==> r == s
    ensures |r| <= |s|
    ensures exists i :: Surrounded(s, i, r)
  {
    StripSurround(s);
    RStrip(LStrip(s))
  }

  /** `r` is the piece of `s` at `i`, with only whitespace before and after it. */
  predicate Surrounded(s: string, i: int, r: string) {
    0 <= i <= |s| - |r| && r == s[i..i + |r|] && AllSpace(s[..i]) && AllSpace(s[i + |r|..])
  }

  /** `rstrip` after `lstrip` keeps a piece of `s` with only whitespace before and after it. */
  lemma StripSurround(s: string)
    ensures exists i :: Surrounded(s, i, RStrip(LStrip(s)))
  {
    var l := LStrip(s);
    var r := RStrip(l);
    var i := |s| - |l|;
    assert l == s[i..];
    assert s[i..i + |r|] == s[i..][..|r|];
    assert s[i + |r|..] == s[i..][|r|..];
    assert Surrounded(s, i, r);
  }

  /** Whitespace appended after `x` never survives `rstrip`. */
  lemma {:induction false} RStripAppendSpace(x: string, p: string)
    requires AllSpace(p)
    ensures RStrip(x + p) == RStrip(x)
    decreases |p|
  {
    if p != [] {
      var q := p[..|p| - 1];
      assert IsSpace((x + p)[|x + p| - 1]);
      assert (x + p)[..|x + p| - 1] == x + q;
      RStripAppendSpace(x, q);
    } else {
      assert x + p == x;
    }
  }

  /** `lstrip` of a concatenation: it reaches into `y` only if `x` is all whitespace. */
  lemma {:induction false} LStripAppend(x: string, y: string)
    ensures LStrip(x + y) == if LStrip(x) == [] then LStrip(y) else LStrip(x) + y
    decreases |x|
  {
    if x != [] {
      assert (x + y)[0] == x[0];
      if IsSpace(x[0]) {
        assert (x + y)[1..] == x[1..] + y;
        LStripAppend(x[1..], y);
      }
    } else {
      assert x + y == y;
    }
  }

  /** Padding with whitespace is invisible to `strip`: `(x + p).strip() == x.strip()`. */
  lemma StripAppendSpace(x: string, p: string)
    requires AllSpace(p)
    ensures Strip(x + p) == Strip(x)
  {
    LStripAppend(x, p);
    if LStrip(x) != [] {
      RStripAppendSpace(LStrip(x), p);
    }
  }

  // ---------------------------------------------------------------------------
  // split and join
  // ---------------------------------------------------------------------------

  /** `sep.join(fs)` */
  function Join(fs: seq<string>, sep: char): string {
    if |fs| == 0 then ""
    else if |fs| == 1 then fs[0]
    else fs[0] + [sep] + Join(fs[1..], sep)
  }

  /**
    `s.split(sep)` with an explicit separator: never empty, no piece holds the
    separator, and joining the pieces gives `s` back.
   */
  function Split(s: string, sep: char): (r: seq<string>)
    ensures |r| >= 1
    ensures forall i :: 0 <= i < |r| ==> sep !in r[i]
    ensures Join(r, sep) == s
    decreases |s|
  {
    if |s| == 0 then [""]
    else
      var rest := Split(s[1..], sep);
      if s[0] == sep then
        assert [sep] + Join(rest, sep) == s;
        [""] + rest
      else
        var r := [[s[0]] + rest[0]] + rest[1..];
        assert |rest| > 1 ==> Join(rest, sep) == rest[0] + [sep] + Join(rest[1..], sep);
        assert r[1..] == rest[1..];
        r
  }

  /** Splitting a string whose first piece `a` holds no separator. */
  lemma {:induction false} SplitPrefix(a: string, t: string, sep: char)
    requires sep !in a
    ensures Split(a + t, sep) == [a + Split(t, sep)[0]] + Split(t, sep)[1..]
    decreases |a|
  {
    if a != [] {
      assert (a + t)[0] == a[0];
      assert (a + t)[1..] == a[1..] + t;
      SplitPrefix(a[1..], t, sep);
      assert [a[0]] + (a[1..] + Split(t, sep)[0]) == a + Split(t, sep)[0];
    } else {
      assert a + t == t;
      assert a + Split(t, sep)[0] == Split(t, sep)[0];
      assert Split(t, sep) == [Split(t, sep)[0]] + Split(t, sep)[1..];
    }
  }

  /** `s.split(sep)` inverts `sep.join(fs)` when no field holds the separator. */
  lemma {:induction false} SplitJoin(fs: seq<string>, sep: char)
    requires |fs| >= 1
    requires forall i :: 0 <= i < |fs| ==> sep !in fs[i]
    ensures Split(Join(fs, sep), sep) == fs
    decreases |fs|
  {
    if |fs| == 1 {
      SplitPrefix(fs[0], "", sep);
      assert fs[0] + "" == fs[0];
    } else {
      var t := Join(fs[1..], sep);
      assert Join(fs, sep) == fs[0] + ([sep] + t);
      SplitPrefix(fs[0], [sep] + t, sep);
      SplitJoin(fs[1..], sep);
      assert ([sep] + t)[1..] == t;
      assert Split([sep] + t, sep) == [""] + Split(t, sep);
      assert fs[0] + "" == fs[0];
      assert fs == [fs[0]] + fs[1..];
    }
  }

  /** Replacing one field changes the joined length by the difference of the two fields. */
  lemma {:induction false} JoinUpdateLength(fs: seq<string>, i: nat, x: string, sep: char)
    requires i < |fs|
    ensures |Join(fs[i := x], sep)| == |Join(fs, sep)| - |fs[i]| + |x|
    decreases |fs|
  {
    if |fs| > 1 && i > 0 {
      assert fs[i := x][1..] == fs[1..][i - 1 := x];
      JoinUpdateLength(fs[1..], i - 1, x, sep);
    } else if |fs| > 1 {
      assert fs[i := x][1..] == fs[1..];
    }
  }

  /** A separator not in any field is nowhere in the joined string except between fields. */
  lemma {:induction false} JoinAvoids(fs: seq<string>, sep: char, c: char)
    requires c != sep
    requires forall i :: 0 <= i < |fs| ==> c !in fs[i]
    ensures c !in Join(fs, sep)
    decreases |fs|
  {
    if |fs| > 1 {
      JoinAvoids(fs[1..], sep, c);
    }
  }

  /** The first field is where the joined string starts. */
  lemma JoinStartsWithFirst(fs: seq<string>, sep: char)
    requires |fs| >= 1
    ensures |fs[0]| <= |Join(fs, sep)| && Join(fs, sep)[..|fs[0]|] == fs[0]
  {
    if |fs| > 1 {
      assert Join(fs, sep) == fs[0] + ([sep] + Join(fs[1..], sep));
    }
  }

  // ---------------------------------------------------------------------------
  // ljust
  // ---------------------------------------------------------------------------

  function Spaces(n: nat): (r: string)
    ensures |r| == n && AllSpace(r) && forall i :: 0 <= i < n ==> r[i] == ' '
  {
    seq(n, _ => ' ')
  }

  /** `s.ljust(w)`: pads with spaces up to `w` characters, never truncates. */
  function LJust(s: string, w: nat): (r: string)
    ensures |r| == if |s| < w then w else |s|
    ensures r == s + Spaces(|r| - |s|)
  {
    if |s| < w then s + Spaces(w - |s|) else
      assert s == s + Spaces(0);
      s
  }

  // ---------------------------------------------------------------------------
  // Line iteration (`for line in f`, `f.readline()`, `f.readlines()`)
  // ---------------------------------------------------------------------------

  /** One line as Python yields it: non-empty, `'\n'` only as its last character. */
  predicate IsLine(l: string) {
    |l| > 0 && l[|l| - 1] == '\n' && '\n' !in l[..|l| - 1]
  }

  function Concat(ls: seq<string>): string {
    if ls == [] then "" else ls[0] + Concat(ls[1..])
  }

  lemma {:induction false} ConcatAppend(ls: seq<string>, l: string)
    ensures Concat(ls + [l]) == Concat(ls) + l
    decreases |ls|
  {
    if ls != [] {
      assert (ls + [l])[1..] == ls[1..] + [l];
      ConcatAppend(ls[1..], l);
    }
  }

  lemma {:induction false} ConcatSplit(ls: seq<string>, k: nat)
    requires k <= |ls|
    ensures Concat(ls) == Concat(ls[..k]) + Concat(ls[k..])
    decreases k
  {
    if k > 0 {
      assert ls[..k][1..] == ls[1..][..k - 1];
      assert ls[k..] == ls[1..][k - 1..];
      ConcatSplit(ls[1..], k - 1);
    } else {
      assert ls[k..] == ls;
    }
  }

  /** Length of the first line of `t`, terminator included: where `readline()` stops. */
  function LineEnd(t: string): (n: nat)
    ensures n <= |t| && (t != [] ==> n > 0)
    ensures forall i :: 0 <= i < n - 1 ==> t[i] != '\n'
    ensures 0 < n < |t| ==> t[n - 1] == '\n'
  {
    if |t| == 0 then 0
    else if t[0] == '\n' then 1
    else 1 + LineEnd(t[1..])
  }

  /** The lines `for line in f` yields, in file order; together they are the whole text.
      Every line but the last ends in `'\n'`, and no line holds a `'\n'` before its last
      character. */
  function Lines(t: string): (ls: seq<string>)
    ensures Concat(ls) == t
    ensures forall i :: 0 <= i < |ls| ==> |ls[i]| > 0
    ensures forall i :: 0 <= i < |ls| - 1 ==> ls[i][|ls[i]| - 1] == '\n'
    ensures forall i :: 0 <= i < |ls| ==> '\n' !in ls[i][..|ls[i]| - 1]
    decreases |t|
  {
    if t == [] then []
    else
      var n := LineEnd(t);
      assert t == t[..n] + t[n..];
      var rest := Lines(t[n..]);
      var ls := [t[..n]] + rest;
      assert ls[1..] == rest;
      assert forall j :: 0 <= j < n - 1 ==> ls[0][j] == t[j];
      assert forall i :: 1 <= i < |ls| ==> ls[i] == rest[i - 1];
      ls
  }

  /** The first line ends exactly where the first complete line `l` ends. */
  lemma LineEndOfLine(l: string, rest: string)
    requires IsLine(l)
    ensures LineEnd(l + rest) == |l|
  {
    var t := l + rest;
    assert t[|l| - 1] == '\n';
    assert forall i :: 0 <= i < |l| - 1 ==> t[i] == l[..|l| - 1][i];
  }

  /** `rstrip()` of a line with no inner break leaves no break at all. */
  lemma RStripBreakFree(s: string)
    requires s != [] && '\n' !in s[..|s| - 1]
    ensures '\n' !in RStrip(s)
  {
    var r := RStrip(s);
    forall j | 0 <= j < |r|
      ensures r[j] != '\n'
    {
      if j < |s| - 1 {
        assert r[j] == s[..|s| - 1][j];
      } else {
        assert !IsSpace(r[|r| - 1]);
      }
    }
  }

  /** `strip()` of a line with no inner break leaves no break at all. */
  lemma StripBreakFree(line: string)
    requires line != [] && '\n' !in line[..|line| - 1]
    ensures '\n' !in Strip(line)
  {
    var l := LStrip(line);
    if l != [] {
      assert l[..|l| - 1] == line[..|line| - 1][|line| - |l|..];
      RStripBreakFree(l);
    }
  }

  /** Python's line iteration splits a concatenation of complete lines back into those lines. */
  lemma {:induction false} LinesOfConcat(ls: seq<string>)
    requires forall i :: 0 <= i < |ls| ==> IsLine(ls[i])
    ensures Lines(Concat(ls)) == ls
    decreases |ls|
  {
    if ls != [] {
      var t := Concat(ls);
      LineEndOfLine(ls[0], Concat(ls[1..]));
      assert t[..|ls[0]|] == ls[0];
      assert t[|ls[0]|..] == Concat(ls[1..]);
      LinesOfConcat(ls[1..]);
    }
  }

  /** `f.seek(off); f.readline()`: from `off` through the next `'\n'`, or `""` at or past the end. */
  function ReadLineAt(t: string, off: nat): (r: string)
    ensures off < |t| ==> 0 < |r| <= |t| - off && r == t[off..off + |r|]
    ensures off < |t| ==> '\n' !in r[..|r| - 1] && (off + |r| < |t| ==> r[|r| - 1] == '\n')
    ensures off >= |t| ==> r == ""
  {
    if off >= |t| then ""
    else
      var n := LineEnd(t[off..]);
      assert forall i :: 0 <= i < n - 1 ==> t[off..][..n][..n - 1][i] == t[off..][i];
      t[off..][..n]
  }

  /** Reading at the start of a complete line returns exactly that line. */
  lemma ReadLineOfConcat(a: string, l: string, rest: string)
    requires IsLine(l)
    ensures ReadLineAt(a + l + rest, |a|) == l
  {
    var t := a + l + rest;
    assert t[|a|..] == l + rest;
    LineEndOfLine(l, rest);
    assert (l + rest)[..|l|] == l;
  }

  /**
    `f.seek(off); f.write(s)` in `r+` mode: overwrites from `off` on and extends
    the file when needed; a gap past the old end is filled with NUL characters.
   */
  function WriteAt(t: string, off: nat, s: string): (r: string)
    ensures |r| == if off + |s| <= |t| then |t| else off + |s|
    ensures r[off..off + |s|] == s
    ensures off <= |t| ==> r[..off] == t[..off]
    ensures off > |t| ==> r[..|t|] == t && forall i :: |t| <= i < off ==> r[i] == '\0'
    ensures forall i :: off + |s| <= i < |t| ==> r[i] == t[i]
  {
    if off <= |t| then
      t[..off] + s + (if off + |s| <= |t| then t[off + |s|..] else "")
    else
      t + seq(off - |t|, _ => '\0') + s
  }

  // ---------------------------------------------------------------------------
  // Whole-number text: str(int) and int(str)
  // ---------------------------------------------------------------------------

  predicate IsDigit(c: char) {
    '0' <= c <= '9'
  }

  predicate AllDigits(s: string) {
    forall i :: 0 <= i < |s| ==> IsDigit(s[i])
  }

  function DigitChar(d: nat): (c: char)
    requires d < 10
    ensures IsDigit(c) && c as int - '0' as int == d
  {
    ('0' as int + d) as char
  }

  /** Decimal digits of `n`, most significant first, no leading zeros. */
  function NatToString(n: nat): (r: string)
    ensures r != [] && AllDigits(r)
  {
    if n < 10 then [DigitChar(n)] else NatToString(n / 10) + [DigitChar(n % 10)]
  }

  /** Value of a string of decimal digits. */
  function DigitsValue(s: string): nat
    requires AllDigits(s)
  {
    if s == [] then 0
    else 10 * DigitsValue(s[..|s| - 1]) + (s[|s| - 1] as int - '0' as int)
  }

  /** `str(n)` for an int. */
  function IntToString(n: int): string {
    if n < 0 then "-" + NatToString(-n) else NatToString(n)
  }

  /**
    `int(s)` (and `Decimal(s)` on whole numbers): surrounding whitespace, an
    optional sign, then one or more decimal digits; anything else fails.
   */
  function ParseInt(s: string): Option<int> {
    ParseNumeral(Strip(s))
  }

  /** The sign-and-digits part of `int(s)`, on text already stripped. */
  function ParseNumeral(t: string): Option<int> {
    if t != [] && (t[0] == '-' || t[0] == '+') then
      var digits := t[1..];
      if digits == [] || !AllDigits(digits) then None
      else
        var v: int := DigitsValue(digits);
        if t[0] == '-' then Some(-v) else Some(v)
    else if t == [] || !AllDigits(t) then None
    else Some(DigitsValue(t))
  }

  lemma {:induction false} NatToStringValue(n: nat)
    ensures DigitsValue(NatToString(n)) == n
  {
    if n >= 10 {
      var s := NatToString(n);
      assert s[..|s| - 1] == NatToString(n / 10);
      NatToStringValue(n / 10);
    }
  }

  /** A numeral without a sign parses to its value. */
  lemma ParseIntOfDigits(d: string, v: nat)
    requires d != [] && AllDigits(d) && DigitsValue(d) == v
    ensures ParseInt(d) == Some(v)
  {
    assert IsDigit(d[0]) && IsDigit(d[|d| - 1]);
    assert Stripped(d);
    assert Strip(d) == d;
    assert ParseNumeral(d) == Some(v);
  }

  /** A numeral after a minus sign parses to its negated value. */
  lemma ParseIntOfNegated(m: string, v: nat)
    requires |m| > 1 && m[0] == '-' && AllDigits(m[1..]) && DigitsValue(m[1..]) == v
    ensures ParseInt(m) == Some(-(v as int))
  {
    var digits := m[1..];
    assert m[|m| - 1] == digits[|digits| - 1];
    assert IsDigit(digits[|digits| - 1]);
    assert Stripped(m);
    assert ParseNumeral(m) == Some(-(v as int));
  }

  /** `int(str(n)) == n` */
  lemma ParseIntToString(n: int)
    ensures ParseInt(IntToString(n)) == Some(n)
  {
    if n < 0 {
      var d := NatToString(-n);
      NatToStringValue(-n);
      var m := IntToString(n);
      assert m == "-" + d && m[1..] == d;
      ParseIntOfNegated(m, -n);
    } else {
      var d := NatToString(n);
      NatToStringValue(n);
      ParseIntOfDigits(d, n);
      assert IntToString(n) == d;
    }
  }

  /** Decimal text holds neither separator nor whitespace. */
  lemma IntToStringPlain(n: int)
    ensures IntToString(n) != []
    ensures ';' !in IntToString(n) && '\n' !in IntToString(n)
    ensures Stripped(IntToString(n))
  {
    var s := IntToString(n);
    assert forall i :: 0 <= i < |s| ==> s[i] == '-' || IsDigit(s[i]);
    assert !IsSpace(s[0]) && !IsSpace(s[|s| - 1]);
  }

  // ---------------------------------------------------------------------------
  // List indexing
  // ---------------------------------------------------------------------------

  /** Python's `xs[i]` position in a list of length `n`: negative `i` counts from the end. */
  function PyIndex(n: nat, i: int): (r: Option<nat>)
    ensures r.Some? <==> -(n as int) <= i < n
    ensures r.Some? ==> r.value < n && (r.value as int == i || r.value as int == n + i)
  {
    if 0 <= i < n then Some(i)
    else if -(n as int) <= i < 0 then Some(n + i)
    else None
  }
}

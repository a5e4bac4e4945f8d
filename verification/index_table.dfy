/**
  The index files: each maps a key (model id, VIN, sales number) to a line
  number. `_load_index` parses the whole file, `_save_index` rewrites it
  whole, one `key;n` line per entry in ascending key order.
 */
module IndexTable {
  import opened Results
  import opened PyStr

  /**
    A key the index file carries faithfully: no `;` (the line would split
    into three parts), no line break, no leading whitespace (`strip` would
    eat it).
   */
  predicate ValidKey(k: string) {
    ';' !in k && '\n' !in k && (k == [] || !IsSpace(k[0]))
  }

  predicate ValidKeys(m: map<string, int>) {
    forall k :: k in m ==> ValidKey(k)
  }

  // ---------------------------------------------------------------------------
  // _load_index
  // ---------------------------------------------------------------------------

  /**
    `key, line_number = line.strip().split(";")` then `int(line_number)`:
    the line must split into exactly two parts, the second an integer.
   */
  function ParseEntry(line: string): Result<(string, int)> {
    var parts := Split(Strip(line), ';');
    if |parts| != 2 then Err(MalformedIndex)
    else match ParseInt(parts[1])
      case None => Err(MalformedIndex)
      case Some(n) => Ok((parts[0], n))
  }

  /**
    One pass of the `_load_index` loop: a line without `;` is skipped, any
    other line must parse and overwrites an earlier entry for its key.
   */
  function LoadStep(line: string, acc: map<string, int>): Result<map<string, int>> {
    if ';' !in line then Ok(acc)
    else match ParseEntry(line)
      case Err(e) => Err(e)
      case Ok((k, n)) => Ok(acc[k := n])
  }

  /** The `_load_index` loop over the remaining lines; the first failure ends it. */
  function ParseIndexLines(ls: seq<string>, acc: map<string, int>): Result<map<string, int>>
    decreases |ls|
  {
    if ls == [] then Ok(acc)
    else match LoadStep(ls[0], acc)
      case Err(e) => Err(e)
      case Ok(acc') => ParseIndexLines(ls[1..], acc')
  }

  /** What `_load_index` returns for an index file holding `t`. */
  function ParseIndex(t: string): Result<map<string, int>> {
    ParseIndexLines(Lines(t), map[])
  }

  /** `_load_index` */
  method LoadIndex(t: string) returns (r: Result<map<string, int>>)
    ensures r == ParseIndex(t)
  {
    var index: map<string, int> := map[];
    var ls := Lines(t);
    var i := 0;
    while i < |ls|
      invariant 0 <= i <= |ls|
      invariant ParseIndexLines(ls[i..], index) == ParseIndex(t)
    {
      var line := ls[i];
      assert ls[i..][1..] == ls[i + 1..];
      var step := LoadStep(line, index);
      if step.Err? {
        return Err(step.error);
      }
      index := step.value;
      i := i + 1;
    }
    return Ok(index);
  }

  /** A key `_load_index` reads from a line with no inner break is always valid. */
  lemma ParsedKeyValid(line: string)
    requires line != [] && '\n' !in line[..|line| - 1]
    requires ParseEntry(line).Ok?
    ensures ValidKey(ParseEntry(line).value.0)
  {
    var s := Strip(line);
    StripBreakFree(line);
    var parts := Split(s, ';');
    JoinStartsWithFirst(parts, ';');
    assert parts[0] == s[..|parts[0]|];
    if parts[0] != [] {
      assert parts[0][0] == s[0];
    }
  }

  /** Every key of an index `_load_index` returns is valid. */
  lemma {:induction false} ParsedKeysValidLines(ls: seq<string>, acc: map<string, int>)
    requires forall i :: 0 <= i < |ls| ==> ls[i] != [] && '\n' !in ls[i][..|ls[i]| - 1]
    requires ValidKeys(acc) && ParseIndexLines(ls, acc).Ok?
    ensures ValidKeys(ParseIndexLines(ls, acc).value)
    decreases |ls|
  {
    if ls != [] {
      var step := LoadStep(ls[0], acc);
      if ';' in ls[0] {
        ParsedKeyValid(ls[0]);
      }
      assert step.Ok? && ValidKeys(step.value);
      ParsedKeysValidLines(ls[1..], step.value);
    }
  }

  /** Every key of an index `_load_index` returns is valid, so saving it round-trips. */
  lemma ParsedKeysValid(t: string)
    requires ParseIndex(t).Ok?
    ensures ValidKeys(ParseIndex(t).value)
  {
    ParsedKeysValidLines(Lines(t), map[]);
  }

  // ---------------------------------------------------------------------------
  // Key order (Python's `<` on str)
  // ---------------------------------------------------------------------------

  /** `a < b` on Python strings: code-point lexicographic, a proper prefix first. */
  predicate Below(a: string, b: string)
    decreases |a|
  {
    if a == [] then b != []
    else if b == [] then false
    else if a[0] != b[0] then a[0] < b[0]
    else Below(a[1..], b[1..])
  }

  lemma {:induction false} BelowIrreflexive(a: string)
    ensures !Below(a, a)
    decreases |a|
  {
    if a != [] {
      BelowIrreflexive(a[1..]);
    }
  }

  lemma {:induction false} BelowAsymmetric(a: string, b: string)
    requires Below(a, b)
    ensures !Below(b, a)
    decreases |a|
  {
    if a != [] && b != [] && a[0] == b[0] {
      BelowAsymmetric(a[1..], b[1..]);
    }
  }

  lemma {:induction false} BelowTransitive(a: string, b: string, c: string)
    requires Below(a, b) && Below(b, c)
    ensures Below(a, c)
    decreases |a|
  {
    if a != [] && a[0] == b[0] && b[0] == c[0] {
      BelowTransitive(a[1..], b[1..], c[1..]);
    }
  }

  lemma {:induction false} BelowTotal(a: string, b: string)
    requires a != b
    ensures Below(a, b) || Below(b, a)
    decreases |a|
  {
    if a != [] && b != [] && a[0] == b[0] {
      assert a == [a[0]] + a[1..] && b == [b[0]] + b[1..];
      BelowTotal(a[1..], b[1..]);
    }
  }

  /** Strictly ascending, as `sorted(index.items())` lists the distinct keys. */
  predicate Ascending(ks: seq<string>) {
    forall i, j :: 0 <= i < j < |ks| ==> Below(ks[i], ks[j])
  }

  /** `k` is the least of `keys`. */
  predicate IsLeast(k: string, keys: set<string>) {
    k in keys && forall j :: j in keys && j != k ==> Below(k, j)
  }

  /** Every non-empty finite set of keys has a least element. */
  lemma {:induction false} LeastKeyExists(keys: set<string>)
    requires keys != {}
    ensures exists k :: IsLeast(k, keys)
    decreases |keys|
  {
    var x :| x in keys;
    var rest := keys - {x};
    if rest == {} {
      assert keys == {x};
      assert IsLeast(x, keys);
    } else {
      LeastKeyExists(rest);
      var m :| IsLeast(m, rest);
      if Below(x, m) {
        forall j | j in keys && j != x
          ensures Below(x, j)
        {
          if j != m {
            BelowTransitive(x, m, j);
          }
        }
        assert IsLeast(x, keys);
      } else {
        BelowTotal(x, m);
        assert IsLeast(m, keys);
      }
    }
  }

  /** The least key is unique. */
  lemma LeastKeyUnique(keys: set<string>, a: string, b: string)
    requires IsLeast(a, keys) && IsLeast(b, keys)
    ensures a == b
  {
    if a != b {
      BelowAsymmetric(a, b);
    }
  }

  /** The keys in the order `sorted(index.items())` visits them. */
  function SortedKeys(keys: set<string>): (ks: seq<string>)
    ensures Ascending(ks)
    ensures forall k :: k in ks <==> k in keys
    ensures |ks| == |keys|
    decreases |keys|
  {
    if keys == {} then []
    else
      LeastKeyExists(keys);
      assert forall a, b :: IsLeast(a, keys) && IsLeast(b, keys) ==> a == b by {
        forall a, b | IsLeast(a, keys) && IsLeast(b, keys)
          ensures a == b
        {
          LeastKeyUnique(keys, a, b);
        }
      }
      var k :| IsLeast(k, keys);
      var rest := SortedKeys(keys - {k});
      assert forall j :: 0 <= j < |rest| ==> Below(k, rest[j]) by {
        forall j | 0 <= j < |rest|
          ensures Below(k, rest[j])
        {
          assert rest[j] in rest;
        }
      }
      [k] + rest
  }

  // ---------------------------------------------------------------------------
  // _save_index
  // ---------------------------------------------------------------------------

  /** `f"{key};{line_number}\n"` */
  function IndexLine(k: string, n: int): string {
    k + ";" + IntToString(n) + "\n"
  }

  /** The lines written for the keys `ks`, in that order. */
  function IndexLines(m: map<string, int>, ks: seq<string>): (ls: seq<string>)
    requires forall i :: 0 <= i < |ks| ==> ks[i] in m
    ensures |ls| == |ks|
    ensures forall i :: 0 <= i < |ks| ==> ls[i] == IndexLine(ks[i], m[ks[i]])
  {
    if ks == [] then []
    else
      var init := ks[..|ks| - 1];
      var pre := IndexLines(m, init);
      var last := IndexLine(ks[|ks| - 1], m[ks[|ks| - 1]]);
      pre + [last]
  }

  /** The whole text `_save_index` writes for `m`. */
  function IndexText(m: map<string, int>): string {
    var ks := SortedKeys(m.Keys);
    Concat(IndexLines(m, ks))
  }

  /** `_save_index`: writes the entries in ascending key order. */
  method SaveIndex(m: map<string, int>) returns (t: string)
    ensures t == IndexText(m)
  {
    var ks := SortedKeys(m.Keys);
    t := WriteIndexLines(m, ks);
  }

  /** One more key adds its line at the end. */
  lemma IndexLinesSnoc(m: map<string, int>, ks: seq<string>, i: nat)
    requires forall j :: 0 <= j < |ks| ==> ks[j] in m
    requires i < |ks|
    ensures IndexLines(m, ks[..i + 1]) == IndexLines(m, ks[..i]) + [IndexLine(ks[i], m[ks[i]])]
  {
    var pre := ks[..i + 1];
    assert pre[..|pre| - 1] == ks[..i];
    assert pre[|pre| - 1] == ks[i];
  }

  /** The write loop of `_save_index` over the entries in the order given. */
  method WriteIndexLines(m: map<string, int>, ks: seq<string>) returns (t: string)
    requires forall i :: 0 <= i < |ks| ==> ks[i] in m
    ensures t == Concat(IndexLines(m, ks))
  {
    t := "";
    var i := 0;
    while i < |ks|
      invariant 0 <= i <= |ks|
      invariant t == Concat(IndexLines(m, ks[..i]))
    {
      var line := IndexLine(ks[i], m[ks[i]]);
      IndexLinesSnoc(m, ks, i);
      ConcatAppend(IndexLines(m, ks[..i]), line);
      t := t + line;
      i := i + 1;
    }
    assert ks[..i] == ks;
  }

  /** A key, `;` and a numeral: neither end is whitespace. */
  lemma EntryStripped(k: string, num: string)
    requires ValidKey(k) && num != [] && Stripped(num)
    ensures Stripped(k + ";" + num)
  {
    var body := k + ";" + num;
    assert body[|body| - 1] == num[|num| - 1];
    assert body[0] == if k == [] then ';' else k[0];
  }

  /** An index line strips and splits into exactly its key and its number. */
  lemma IndexLineParts(k: string, n: int)
    requires ValidKey(k)
    ensures IsLine(IndexLine(k, n)) && ';' in IndexLine(k, n)
    ensures Split(Strip(IndexLine(k, n)), ';') == [k, IntToString(n)]
  {
    IntToStringPlain(n);
    IndexLineShape(k, IntToString(n));
    StripEntryLine(k, IntToString(n));
    SplitJoin([k, IntToString(n)], ';');
  }

  /** An index line is one line, and its key and number are split by the first `;`. */
  lemma IndexLineShape(k: string, num: string)
    requires ValidKey(k) && ';' !in num && '\n' !in num
    ensures IsLine(k + ";" + num + "\n") && ';' in k + ";" + num
    ensures Join([k, num], ';') == k + ";" + num
  {
    var body := k + ";" + num;
    assert Join([k, num], ';') == body;
    JoinAvoids([k, num], ';', '\n');
    assert (body + "\n")[..|body|] == body;
    assert body[|k|] == ';';
  }

  /** The terminator of an index line is all `strip` removes. */
  lemma StripEntryLine(k: string, num: string)
    requires ValidKey(k) && num != [] && Stripped(num)
    ensures Strip(k + ";" + num + "\n") == k + ";" + num
  {
    EntryStripped(k, num);
    StripAppendSpace(k + ";" + num, "\n");
  }

  /** The map after assigning `acc[k] := m[k]` for each `k` of `ks` in turn. */
  function Overlay(acc: map<string, int>, m: map<string, int>, ks: seq<string>): map<string, int>
    requires forall i :: 0 <= i < |ks| ==> ks[i] in m
    decreases |ks|
  {
    if ks == [] then acc else Overlay(acc[ks[0] := m[ks[0]]], m, ks[1..])
  }

  /** `_load_index` parses a line `_save_index` wrote back into its key and number. */
  lemma IndexLineEntry(k: string, n: int)
    requires ValidKey(k)
    ensures ';' in IndexLine(k, n)
    ensures ParseEntry(IndexLine(k, n)) == Ok((k, n))
  {
    IndexLineParts(k, n);
    ParseIntToString(n);
  }

  /** Parsing lines that each hold the entry for `ks[i]` assigns exactly those entries, in order. */
  lemma {:induction false} ParseIndexLinesRendered(m: map<string, int>, ks: seq<string>, ls: seq<string>, acc: map<string, int>)
    requires |ls| == |ks|
    requires forall i :: 0 <= i < |ks| ==> ks[i] in m && ';' in ls[i] && ParseEntry(ls[i]) == Ok((ks[i], m[ks[i]]))
    ensures ParseIndexLines(ls, acc) == Ok(Overlay(acc, m, ks))
    decreases |ks|
  {
    if ks != [] {
      var k := ks[0];
      assert LoadStep(ls[0], acc) == Ok(acc[k := m[k]]);
      ParseIndexLinesRendered(m, ks[1..], ls[1..], acc[k := m[k]]);
    }
  }

  /** Overlaying every missing key of `m` onto an agreeing part of `m` gives `m`. */
  lemma {:induction false} OverlayCovers(acc: map<string, int>, m: map<string, int>, ks: seq<string>)
    requires forall i :: 0 <= i < |ks| ==> ks[i] in m
    requires forall k :: k in acc ==> k in m && acc[k] == m[k]
    requires forall k :: k in m ==> k in acc || k in ks
    ensures Overlay(acc, m, ks) == m
    decreases |ks|
  {
    if ks == [] {
      assert acc.Keys == m.Keys;
    } else {
      var acc' := acc[ks[0] := m[ks[0]]];
      forall k | k in m
        ensures k in acc' || k in ks[1..]
      {
        if k !in acc && k != ks[0] {
          assert k in ks;
          var i :| 0 <= i < |ks| && ks[i] == k;
          assert ks[1..][i - 1] == k;
        }
      }
      OverlayCovers(acc', m, ks[1..]);
    }
  }

  /** `_load_index` reads back exactly the map `_save_index` wrote, for valid keys. */
  lemma IndexRoundTrip(m: map<string, int>)
    requires ValidKeys(m)
    ensures ParseIndex(IndexText(m)) == Ok(m)
  {
    var ks := SortedKeys(m.Keys);
    var ls := IndexLines(m, ks);
    forall i | 0 <= i < |ls|
      ensures IsLine(ls[i]) && ';' in ls[i] && ParseEntry(ls[i]) == Ok((ks[i], m[ks[i]]))
    {
      IndexLineParts(ks[i], m[ks[i]]);
      IndexLineEntry(ks[i], m[ks[i]]);
    }
    LinesOfConcat(ls);
    ParseIndexLinesRendered(m, ks, ls, map[]);
    OverlayCovers(map[], m, ks);
  }

  /**
    `_save_index` writes one `key;n` line per entry, in ascending key order,
    and nothing else.
   */
  lemma IndexTextLayout(m: map<string, int>)
    requires ValidKeys(m)
    ensures var ks := SortedKeys(m.Keys);
      && Ascending(ks)
      && Lines(IndexText(m)) == IndexLines(m, ks)
      && |Lines(IndexText(m))| == |m|
      && forall i :: 0 <= i < |ks| ==> Lines(IndexText(m))[i] == IndexLine(ks[i], m[ks[i]])
  {
    var ks := SortedKeys(m.Keys);
    IndexLinesRead(m, ks);
    assert |m| == |m.Keys|;
  }

  /** The index lines for valid keys, concatenated, split back into themselves. */
  lemma IndexLinesRead(m: map<string, int>, ks: seq<string>)
    requires ValidKeys(m) && forall i :: 0 <= i < |ks| ==> ks[i] in m
    ensures Lines(Concat(IndexLines(m, ks))) == IndexLines(m, ks)
  {
    var ls := IndexLines(m, ks);
    forall i | 0 <= i < |ls|
      ensures IsLine(ls[i])
    {
      IndexLineParts(ks[i], m[ks[i]]);
    }
    LinesOfConcat(ls);
  }
}

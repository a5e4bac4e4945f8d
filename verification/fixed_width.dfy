/**
  The fixed-width line files behind the store (models, cars, sales).

  Every record is its `;`-joined fields left-justified to `LINE_LENGTH`
  characters plus a `'\n'`, so line `k` starts at `k * (LINE_LENGTH + 1)`.
  `ljust` pads but never truncates: a record longer than `LINE_LENGTH` is
  written whole and shifts every later line off its slot, so the lemmas
  below hold for records that fit.
 */
module FixedWidth {
  import opened PyStr

  /** `LINE_LENGTH` */
  const LineLength: nat := 500

  /** Where line `k` starts: `line_number * (LINE_LENGTH + 1)`. */
  function Offset(k: nat): nat {
    k * (LineLength + 1)
  }

  /** `rec.ljust(LINE_LENGTH) + "\n"`: the text written for one record. */
  function Pad(rec: string): string {
    LJust(rec, LineLength) + "\n"
  }

  /** `";".join(fields)` */
  function Serialize(fs: seq<string>): string {
    Join(fs, ';')
  }

  /** `line.strip().split(";")` */
  function Fields(line: string): (fs: seq<string>)
    ensures |fs| >= 1
  {
    Split(Strip(line), ';')
  }

  /** A record that keeps the layout: at most `LINE_LENGTH` characters and no line break. */
  predicate Fits(rec: string) {
    |rec| <= LineLength && '\n' !in rec
  }

  /** One fixed-width line: `LINE_LENGTH` characters, then `'\n'` and no other line break. */
  predicate IsSlot(l: string) {
    |l| == LineLength + 1 && IsLine(l)
  }

  predicate AllSlots(ls: seq<string>) {
    forall i :: 0 <= i < |ls| ==> IsSlot(ls[i])
  }

  /** Every line of the file sits in its own slot. */
  predicate WellFormed(t: string) {
    AllSlots(Lines(t))
  }

  /** Fields whose joined record parses back to exactly themselves. */
  predicate CleanFields(fs: seq<string>) {
    && |fs| >= 1
    && (forall i :: 0 <= i < |fs| ==> ';' !in fs[i] && '\n' !in fs[i])
    && Stripped(Serialize(fs))
  }

  /**
    A record that fits is padded to exactly one slot, and padding is
    invisible to the parser: the slot's fields are the record's.
   */
  lemma PadFits(rec: string)
    requires Fits(rec)
    ensures IsSlot(Pad(rec))
    ensures Fields(Pad(rec)) == Fields(rec)
  {
    var pad := Spaces(LineLength - |rec|);
    assert Pad(rec) == rec + (pad + "\n");
    StripAppendSpace(rec, pad + "\n");
    assert Pad(rec)[..LineLength] == rec + pad;
  }

  /** Serialising clean fields, padding and parsing gives the same fields back. */
  lemma RecordRoundTrip(fs: seq<string>)
    requires CleanFields(fs) && |Serialize(fs)| <= LineLength
    ensures IsSlot(Pad(Serialize(fs)))
    ensures Fields(Pad(Serialize(fs))) == fs
  {
    JoinAvoids(fs, ';', '\n');
    PadFits(Serialize(fs));
    SplitJoin(fs, ';');
  }

  /** A record wider than `LINE_LENGTH` is not truncated: its line is longer than a slot. */
  lemma WideRecordOverflows(rec: string)
    requires |rec| > LineLength
    ensures |Pad(rec)| == |rec| + 1 > LineLength + 1
    ensures Pad(rec)[..|rec|] == rec
  {
  }

  /** A file of slots is `Offset(n)` characters long. */
  lemma {:induction false} SlotsLength(ls: seq<string>)
    requires AllSlots(ls)
    ensures |Concat(ls)| == Offset(|ls|)
    decreases |ls|
  {
    if ls != [] {
      SlotsLength(ls[1..]);
    }
  }

  /** In a file of slots, line `k` begins exactly at `Offset(k)`. */
  lemma SlotAt(ls: seq<string>, k: nat)
    requires AllSlots(ls) && k < |ls|
    ensures Concat(ls) == Concat(ls[..k]) + ls[k] + Concat(ls[k + 1..])
    ensures |Concat(ls[..k])| == Offset(k)
  {
    ConcatSplit(ls, k);
    assert ls[k..] == [ls[k]] + ls[k + 1..];
    assert ls[k..][1..] == ls[k + 1..];
    SlotsLength(ls[..k]);
  }

  /** Python's line iteration over a file of slots yields exactly those slots. */
  lemma LinesOfSlots(ls: seq<string>)
    requires AllSlots(ls)
    ensures Lines(Concat(ls)) == ls
  {
    LinesOfConcat(ls);
  }

  /**
    `seek(Offset(k)); readline()` on a file of slots returns line `k`, and
    `""` when `k` is past the last line.
   */
  lemma ReadSlot(ls: seq<string>, k: nat)
    requires AllSlots(ls)
    ensures ReadLineAt(Concat(ls), Offset(k)) == if k < |ls| then ls[k] else ""
  {
    SlotsLength(ls);
    if k < |ls| {
      SlotAt(ls, k);
      ReadLineOfConcat(Concat(ls[..k]), ls[k], Concat(ls[k + 1..]));
    }
  }

  /**
    `seek(Offset(k)); write(s)` of a full slot replaces line `k` and nothing
    else: the length and every other line stay as they were.
   */
  lemma WriteSlot(ls: seq<string>, k: nat, s: string)
    requires AllSlots(ls) && k < |ls| && IsSlot(s)
    ensures WriteAt(Concat(ls), Offset(k), s) == Concat(ls[k := s])
    ensures AllSlots(ls[k := s])
  {
    var ls' := ls[k := s];
    SlotAt(ls, k);
    SlotAt(ls', k);
    assert ls'[..k] == ls[..k];
    assert ls'[k + 1..] == ls[k + 1..];
    var t := Concat(ls);
    var w := WriteAt(t, Offset(k), s);
    assert |w| == |t|;
    assert w == Concat(ls');
  }

  /** Appending a full slot to a well-formed file adds exactly one line. */
  lemma AppendSlot(t: string, s: string)
    requires WellFormed(t) && IsSlot(s)
    ensures Lines(t + s) == Lines(t) + [s]
    ensures WellFormed(t + s)
  {
    var ls := Lines(t);
    ConcatAppend(ls, s);
    LinesOfSlots(ls + [s]);
  }

  /** Writing back all lines but one leaves exactly the survivors, in order. */
  lemma RemoveSlot(ls: seq<string>, k: nat)
    requires AllSlots(ls) && k < |ls|
    ensures AllSlots(ls[..k] + ls[k + 1..])
    ensures Lines(Concat(ls[..k] + ls[k + 1..])) == ls[..k] + ls[k + 1..]
  {
    LinesOfSlots(ls[..k] + ls[k + 1..]);
  }
}

/**
  Index/file agreement: the invariant every mutating `CarService` operation
  relies on, and what each of them does to a store that satisfies it.

  A data file and its index agree when every line is a fixed-width slot,
  every index entry points at a line whose field 0 is the key, and every
  line is the one its field 0 is indexed at. The service never checks any
  of this; the lemmas show which calls keep it and what they change.
 */
module Consistency {
  import opened Results
  import opened PyStr
  import opened FixedWidth
  import opened IndexTable
  import opened Records
  import opened Store

  /** The parsed fields of every line, in file order. */
  function FieldsOf(ls: seq<string>): (fss: seq<seq<string>>)
    ensures |fss| == |ls|
    ensures forall j :: 0 <= j < |ls| ==> fss[j] == Fields(ls[j])
  {
    seq(|ls|, j requires 0 <= j < |ls| => Fields(ls[j]))
  }

  /**
    The records and the index are in one-to-one agreement on field 0: each
    entry names a record with its key, and each record is indexed at its own
    position.
   */
  predicate Agrees(fss: seq<seq<string>>, idx: map<string, int>, arity: nat) {
    && |idx| == |fss|
    && (forall j :: 0 <= j < |fss| ==> 1 <= arity <= |fss[j]|)
    && (forall k :: k in idx ==> 0 <= idx[k] < |fss| && fss[idx[k]][0] == k)
    && (forall j :: 0 <= j < |fss| ==> fss[j][0] in idx && idx[fss[j][0]] == j)
  }

  /** A data file of slots with at least `arity` fields each, and an index in agreement with it. */
  predicate Synced(data: string, indexText: string, arity: nat) {
    && WellFormed(data)
    && ParseIndex(indexText).Ok?
    && Agrees(FieldsOf(Lines(data)), ParseIndex(indexText).value, arity)
  }

  // ---------------------------------------------------------------------------
  // Slots
  // ---------------------------------------------------------------------------

  /** Field 0 of a storable record can serve as an index key. */
  lemma FirstFieldValidKey(fs: seq<string>)
    requires CleanFields(fs)
    ensures ValidKey(fs[0])
  {
    JoinStartsWithFirst(fs, ';');
    if fs[0] != [] {
      assert Serialize(fs)[0] == fs[0][0];
    }
  }

  /** `seek` + `readline` at an existing line number returns that line. */
  lemma ReadIndexed(t: string, n: int)
    requires WellFormed(t) && 0 <= n < |Lines(t)|
    ensures ReadRecord(t, n) == Ok(Lines(t)[n])
  {
    ReadSlot(Lines(t), n);
  }

  /** Appending a storable record adds exactly its slot, whose fields are the record's. */
  lemma AppendRecord(t: string, fs: seq<string>)
    requires WellFormed(t) && Storable(fs)
    ensures WellFormed(t + Pad(Serialize(fs)))
    ensures Lines(t + Pad(Serialize(fs))) == Lines(t) + [Pad(Serialize(fs))]
    ensures Fields(Pad(Serialize(fs))) == fs
  {
    RecordRoundTrip(fs);
    AppendSlot(t, Pad(Serialize(fs)));
  }

  /**
    An in-place overwrite of line `n` with a storable record: the file keeps
    its length, line `n` becomes the record's slot and no other line changes.
   */
  lemma RewriteLine(t: string, n: nat, fs: seq<string>)
    requires WellFormed(t) && n < |Lines(t)| && Storable(fs)
    ensures WellFormed(WriteRecord(t, n, fs))
    ensures |WriteRecord(t, n, fs)| == |t|
    ensures Lines(WriteRecord(t, n, fs)) == Lines(t)[n := Pad(Serialize(fs))]
    ensures Fields(Pad(Serialize(fs))) == fs
  {
    var ls := Lines(t);
    var s := Pad(Serialize(fs));
    RecordRoundTrip(fs);
    WriteSlot(ls, n, s);
    SlotsLength(ls);
    SlotsLength(ls[n := s]);
    LinesOfSlots(ls[n := s]);
  }

  /** Replacing a record by one with the same key and enough fields keeps the agreement. */
  lemma ReplaceKeepsAgreement(fss: seq<seq<string>>, idx: map<string, int>, arity: nat, n: nat, fs: seq<string>)
    requires Agrees(fss, idx, arity) && n < |fss|
    requires |fs| >= arity && fs[0] == fss[n][0]
    ensures Agrees(fss[n := fs], idx, arity)
  {
  }

  /** Appending a record with a new key, indexed at its position, keeps the agreement. */
  lemma AppendKeepsAgreement(fss: seq<seq<string>>, idx: map<string, int>, arity: nat, fs: seq<string>)
    requires Agrees(fss, idx, arity) && 1 <= arity <= |fs| && fs[0] !in idx
    ensures Agrees(fss + [fs], idx[fs[0] := |fss|], arity)
  {
    var fss' := fss + [fs];
    forall j | 0 <= j < |fss|
      ensures fss'[j] == fss[j]
    {
    }
  }

  /** The fields of the lines after one line is replaced. */
  lemma FieldsOfUpdate(ls: seq<string>, n: nat, l: string)
    requires n < |ls|
    ensures FieldsOf(ls[n := l]) == FieldsOf(ls)[n := Fields(l)]
  {
  }

  /** The fields of the lines after one line is appended. */
  lemma FieldsOfAppend(ls: seq<string>, l: string)
    ensures FieldsOf(ls + [l]) == FieldsOf(ls) + [Fields(l)]
  {
  }

  // ---------------------------------------------------------------------------
  // add_model, add_car
  // ---------------------------------------------------------------------------

  /**
    The add path on an agreeing store: an indexed key changes nothing; a new
    key appends one slot, indexes it under `len(index)`, which is that slot's
    line number, and the agreement holds afterwards.
   */
  lemma AddKeepsSync(data: string, indexText: string, key: string, fs: seq<string>, arity: nat)
    requires Synced(data, indexText, arity)
    requires Storable(fs) && fs[0] == key && 1 <= arity <= |fs|
    ensures AddRecord(data, indexText, key, fs).Ok?
    ensures var idx := ParseIndex(indexText).value;
      var out := AddRecord(data, indexText, key, fs).value;
      && Synced(out.0, out.1, arity)
      && (key in idx ==> out == (data, indexText))
      && (key !in idx ==>
            && Lines(out.0) == Lines(data) + [Pad(Serialize(fs))]
            && ParseIndex(out.1) == Ok(idx[key := |idx|])
            && ReadRecord(out.0, |idx|) == Ok(Pad(Serialize(fs))))
  {
    var idx := ParseIndex(indexText).value;
    if key !in idx {
      var d := data + Pad(Serialize(fs));
      var i := IndexText(idx[key := |idx|]);
      assert AddRecord(data, indexText, key, fs) == Ok((d, i));
      AppendedSynced(data, indexText, fs, arity);
      AppendRecord(data, fs);
      AppendedRecordRead(data, fs);
    }
  }

  /** The slot appended after the last line is read back at the next line number. */
  lemma AppendedRecordRead(data: string, fs: seq<string>)
    requires WellFormed(data) && Storable(fs)
    ensures ReadRecord(data + Pad(Serialize(fs)), |Lines(data)|) == Ok(Pad(Serialize(fs)))
  {
    var d := data + Pad(Serialize(fs));
    AppendRecord(data, fs);
    assert Lines(d)[|Lines(data)|] == Pad(Serialize(fs));
    ReadIndexed(d, |Lines(data)|);
  }

  /** Appending a record under a new key and indexing it at `len(index)` keeps the store in agreement. */
  lemma AppendedSynced(data: string, indexText: string, fs: seq<string>, arity: nat)
    requires Synced(data, indexText, arity)
    requires Storable(fs) && 1 <= arity <= |fs| && fs[0] !in ParseIndex(indexText).value
    ensures var idx := ParseIndex(indexText).value;
      && |idx| == |Lines(data)|
      && ParseIndex(IndexText(idx[fs[0] := |idx|])) == Ok(idx[fs[0] := |idx|])
      && Synced(data + Pad(Serialize(fs)), IndexText(idx[fs[0] := |idx|]), arity)
  {
    var idx := ParseIndex(indexText).value;
    var idx' := idx[fs[0] := |idx|];
    var d := data + Pad(Serialize(fs));
    assert |idx| == |Lines(data)|;
    assert ParseIndex(IndexText(idx')) == Ok(idx') by {
      ParsedKeysValid(indexText);
      FirstFieldValidKey(fs);
      IndexRoundTrip(idx');
    }
    AppendRecord(data, fs);
    FieldsOfAppend(Lines(data), Pad(Serialize(fs)));
    AppendKeepsAgreement(FieldsOf(Lines(data)), idx, arity, fs);
  }

  /**
    `add_model` returns the model it was given; a new id becomes readable
    through the index as exactly that model's name and brand, an existing id
    leaves every file as it was.
   */
  lemma AddModelSynced(f: Files, m: Model)
    requires Synced(f.models, f.modelIndex, 3) && Storable(ModelFields(m))
    ensures var g := AddModelOp(f, m);
      && g.out == Ok(m)
      && Synced(g.files.models, g.files.modelIndex, 3)
      && g.files == f.(models := g.files.models, modelIndex := g.files.modelIndex)
      && (IntToString(m.id) in ParseIndex(f.modelIndex).value ==> g.files == f)
      && (IntToString(m.id) !in ParseIndex(f.modelIndex).value ==>
            LookupModel(g.files, m.id) == Ok(Some((m.name, m.brand))))
  {
    var key := IntToString(m.id);
    AddKeepsSync(f.models, f.modelIndex, key, ModelFields(m), 3);
    if key !in ParseIndex(f.modelIndex).value {
      NewModelReadable(f, m);
    }
  }

  /** A model added under a new id reads back as its name and brand. */
  lemma NewModelReadable(f: Files, m: Model)
    requires Synced(f.models, f.modelIndex, 3) && Storable(ModelFields(m))
    requires IntToString(m.id) !in ParseIndex(f.modelIndex).value
    ensures LookupModel(AddModelOp(f, m).files, m.id) == Ok(Some((m.name, m.brand)))
  {
    var idx := ParseIndex(f.modelIndex).value;
    var key := IntToString(m.id);
    var slot := Pad(Serialize(ModelFields(m)));
    AddKeepsSync(f.models, f.modelIndex, key, ModelFields(m), 3);
    var out := AddRecord(f.models, f.modelIndex, key, ModelFields(m)).value;
    var g := f.(models := out.0, modelIndex := out.1);
    assert AddModelOp(f, m).files == g;
    ModelAt(g, m, |idx|);
  }

  /** A stored model's line, found through its index entry, reads back as its name and brand. */
  lemma ModelAt(f: Files, m: Model, n: int)
    requires Storable(ModelFields(m))
    requires ParseIndex(f.modelIndex).Ok?
    requires var idx := ParseIndex(f.modelIndex).value;
      IntToString(m.id) in idx && idx[IntToString(m.id)] == n
    requires ReadRecord(f.models, n) == Ok(Pad(Serialize(ModelFields(m))))
    ensures LookupModel(f, m.id) == Ok(Some((m.name, m.brand)))
  {
    RecordRoundTrip(ModelFields(m));
  }

  /**
    `add_car` returns the car it was given; a new VIN becomes readable
    through the index as exactly that car, an existing VIN leaves every file
    as it was.
   */
  lemma AddCarSynced(f: Files, c: Car)
    requires Synced(f.cars, f.carIndex, 5) && Storable(CarFields(c))
    ensures var g := AddCarOp(f, c);
      && g.out == Ok(c)
      && Synced(g.files.cars, g.files.carIndex, 5)
      && g.files == f.(cars := g.files.cars, carIndex := g.files.carIndex)
      && (c.vin in ParseIndex(f.carIndex).value ==> g.files == f)
      && (c.vin !in ParseIndex(f.carIndex).value ==> LookupCar(g.files, c.vin) == Ok(Some(c)))
  {
    AddKeepsSync(f.cars, f.carIndex, c.vin, CarFields(c), 5);
    CarRecordRoundTrip(c);
  }

  // ---------------------------------------------------------------------------
  // The status rewrite of sell_car and revert_sale
  // ---------------------------------------------------------------------------

  /** The fields of the indexed car line for `vin`, with field 4 set to `status`. */
  function StatusRewritten(cars: string, carIndexText: string, vin: string, status: CarStatus): seq<string>
    requires Synced(cars, carIndexText, 5)
    requires vin in ParseIndex(carIndexText).value
  {
    var n := ParseIndex(carIndexText).value[vin];
    FieldsOf(Lines(cars))[n][4 := StatusValue(status)]
  }

  /**
    On an agreeing car store the status rewrite fails exactly when the VIN is
    not indexed (or, for `sell_car`, is empty); otherwise line `n` of the VIN
    gets field 4 set, no other line changes and the agreement holds.
   */
  lemma SetStatusSynced(cars: string, carIndexText: string, vin: string, status: CarStatus, vinRequired: bool)
    requires Synced(cars, carIndexText, 5)
    requires vin in ParseIndex(carIndexText).value ==> Storable(StatusRewritten(cars, carIndexText, vin, status))
    ensures var idx := ParseIndex(carIndexText).value;
      var r := SetStatus(cars, carIndexText, vin, status, vinRequired);
      && (vin !in idx ==> r == Err(UnknownCar))
      && (vin in idx && vinRequired && vin == "" ==> r == Err(MalformedCar))
      && (vin in idx && !(vinRequired && vin == "") ==>
            && r.Ok?
            && Synced(r.value, carIndexText, 5)
            && Lines(r.value) == Lines(cars)[idx[vin] := Pad(Serialize(StatusRewritten(cars, carIndexText, vin, status)))]
            && Fields(Lines(r.value)[idx[vin]]) == StatusRewritten(cars, carIndexText, vin, status))
  {
    var idx := ParseIndex(carIndexText).value;
    if vin in idx {
      var n := idx[vin];
      var ls := Lines(cars);
      var fs := StatusRewritten(cars, carIndexText, vin, status);
      ReadIndexed(cars, n);
      assert Fields(ls[n]) == FieldsOf(ls)[n];
      if !(vinRequired && vin == "") {
        RewriteLine(cars, n, fs);
        FieldsOfUpdate(ls, n, Pad(Serialize(fs)));
        ReplaceKeepsAgreement(FieldsOf(ls), idx, 5, n, fs);
      }
    }
  }

  // ---------------------------------------------------------------------------
  // sell_car
  // ---------------------------------------------------------------------------

  /**
    `sell_car` on agreeing stores with a new sales number: the sale is
    appended and indexed under its own line number whatever happens next;
    an unknown VIN then fails with the car file untouched, an empty VIN is
    refused, and otherwise only field 4 of the car's line becomes `sold`.
    The model and car index files never change.
   */
  lemma SellCarSynced(f: Files, s: Sale)
    requires Synced(f.sales, f.salesIndex, 4) && Synced(f.cars, f.carIndex, 5)
    requires Storable(SaleFields(s)) && s.salesNumber !in ParseIndex(f.salesIndex).value
    requires s.carVin in ParseIndex(f.carIndex).value ==> Storable(StatusRewritten(f.cars, f.carIndex, s.carVin, Sold))
    ensures var g := SellCarOp(f, s);
      var salesIdx := ParseIndex(f.salesIndex).value;
      var carIdx := ParseIndex(f.carIndex).value;
      && Synced(g.files.sales, g.files.salesIndex, 4)
      && Lines(g.files.sales) == Lines(f.sales) + [Pad(Serialize(SaleFields(s)))]
      && ParseIndex(g.files.salesIndex) == Ok(salesIdx[s.salesNumber := |salesIdx|])
      && g.files.models == f.models && g.files.modelIndex == f.modelIndex && g.files.carIndex == f.carIndex
      && Synced(g.files.cars, g.files.carIndex, 5)
      && (s.carVin !in carIdx ==> g.out == Fail(UnknownCar) && g.files.cars == f.cars)
      && (s.carVin in carIdx && s.carVin == "" ==> g.out == Fail(MalformedCar) && g.files.cars == f.cars)
      && (s.carVin in carIdx && s.carVin != "" ==>
            && g.out == Pass
            && Lines(g.files.cars) == Lines(f.cars)[carIdx[s.carVin] := Pad(Serialize(StatusRewritten(f.cars, f.carIndex, s.carVin, Sold)))])
  {
    AddKeepsSync(f.sales, f.salesIndex, s.salesNumber, SaleFields(s), 4);
    SetStatusSynced(f.cars, f.carIndex, s.carVin, Sold, true);
  }

  /**
    Whatever the car lookup then does, `sell_car` has already appended the
    sale and saved the index with its number mapped to `len(index)`; the
    model and car index files are never touched.
   */
  lemma SaleRecordedFirst(f: Files, s: Sale)
    requires ParseIndex(f.salesIndex).Ok?
    ensures var g := SellCarOp(f, s).files;
      var idx := ParseIndex(f.salesIndex).value;
      && g.sales == f.sales + Pad(Serialize(SaleFields(s)))
      && g.salesIndex == IndexText(idx[s.salesNumber := |idx|])
      && g.models == f.models && g.modelIndex == f.modelIndex && g.carIndex == f.carIndex
  {
    var idx := ParseIndex(f.salesIndex).value;
    var f1 := f.(sales := f.sales + Pad(Serialize(SaleFields(s))),
                 salesIndex := IndexText(idx[s.salesNumber := |idx|]));
    var g := SellCarOp(f, s).files;
    assert g == f1 || g == f1.(cars := g.cars);
  }

  /**
    A repeated sales number breaks the agreement: `len(index)` does not grow,
    so the sales file ends up with one line more than the index has entries.
   */
  lemma DuplicateSaleDesyncs(f: Files, s: Sale)
    requires Synced(f.sales, f.salesIndex, 4) && Storable(SaleFields(s))
    requires s.salesNumber in ParseIndex(f.salesIndex).value
    ensures var g := SellCarOp(f, s).files;
      && ParseIndex(g.salesIndex).Ok?
      && |ParseIndex(g.salesIndex).value| + 1 == |Lines(g.sales)|
      && !Synced(g.sales, g.salesIndex, 4)
  {
    var idx := ParseIndex(f.salesIndex).value;
    var idx' := idx[s.salesNumber := |idx|];
    var g := SellCarOp(f, s).files;
    SaleRecordedFirst(f, s);
    AppendRecord(f.sales, SaleFields(s));
    ParsedKeysValid(f.salesIndex);
    IndexRoundTrip(idx');
    OverwriteSize(idx, s.salesNumber, |idx|);
    CountMismatch(g.sales, g.salesIndex, 4);
  }

  /** Re-assigning an existing key leaves the number of entries unchanged. */
  lemma OverwriteSize(m: map<string, int>, k: string, v: int)
    requires k in m
    ensures |m[k := v]| == |m|
  {
    assert m[k := v].Keys == m.Keys;
    assert |m[k := v]| == |m[k := v].Keys|;
  }

  /** An index with a different number of entries than the file has lines does not agree with it. */
  lemma CountMismatch(data: string, indexText: string, arity: nat)
    requires ParseIndex(indexText).Ok? && |ParseIndex(indexText).value| != |Lines(data)|
    ensures !Synced(data, indexText, arity)
  {
  }

  // ---------------------------------------------------------------------------
  // update_vin
  // ---------------------------------------------------------------------------

  /** Renaming an entry to a key not yet present leaves the number of entries unchanged. */
  lemma RenameSize(m: map<string, int>, a: string, b: string, v: int)
    requires a in m && b !in m
    ensures |(m - {a})[b := v]| == |m|
  {
    var m' := (m - {a})[b := v];
    assert m'.Keys == (m.Keys - {a}) + {b};
    assert m.Keys == (m.Keys - {a}) + {a};
    assert |m'| == |m'.Keys| && |m| == |m.Keys|;
  }

  /**
    Re-keying record `n` from its old key to a new one, in the records and in
    the index alike, keeps the agreement.
   */
  lemma RenameKeepsAgreement(fss: seq<seq<string>>, idx: map<string, int>, arity: nat, n: nat, fs: seq<string>)
    requires Agrees(fss, idx, arity) && n < |fss|
    requires arity <= |fs| && fs[0] !in idx
    ensures Agrees(fss[n := fs], (idx - {fss[n][0]})[fs[0] := n], arity)
  {
    var fss' := fss[n := fs];
    var idx' := (idx - {fss[n][0]})[fs[0] := n];
    RenameSize(idx, fss[n][0], fs[0], n);
    forall k | k in idx'
      ensures 0 <= idx'[k] < |fss'| && fss'[idx'[k]][0] == k
    {
      if k != fs[0] {
        assert idx[k] != n;
      }
    }
    forall j | 0 <= j < |fss'|
      ensures fss'[j][0] in idx' && idx'[fss'[j][0]] == j
    {
      if j != n {
        assert fss'[j] == fss[j];
        assert fss[j][0] != fss[n][0];
      }
    }
  }

  /** The fields of the indexed car line for `vin`, with field 0 set to `newVin`. */
  function Renamed(cars: string, carIndexText: string, vin: string, newVin: string): seq<string>
    requires Synced(cars, carIndexText, 5)
    requires vin in ParseIndex(carIndexText).value
  {
    var n := ParseIndex(carIndexText).value[vin];
    FieldsOf(Lines(cars))[n][0 := newVin]
  }

  /**
    The outcomes of `update_vin` once its index loads: an unknown old VIN
    changes nothing and succeeds, a new VIN already indexed is refused with
    nothing written, and, on an agreeing car store, otherwise the call
    succeeds having written only the car file and its index (what it writes
    there is `RenameEffect`).
   */
  lemma UpdateVinOutcomes(f: Files, oldVin: string, newVin: string)
    requires ParseIndex(f.carIndex).Ok?
    ensures var g := UpdateVinOp(f, oldVin, newVin);
      var idx := ParseIndex(f.carIndex).value;
      && (oldVin !in idx ==> g == Step(f, Pass))
      && (oldVin in idx && newVin in idx ==> g == Step(f, Fail(VinTaken)))
      && (oldVin in idx && newVin !in idx && Synced(f.cars, f.carIndex, 5) ==>
            g.out == Pass && g.files == f.(cars := g.files.cars, carIndex := g.files.carIndex))
  {
    var idx := ParseIndex(f.carIndex).value;
    if oldVin in idx && newVin !in idx && Synced(f.cars, f.carIndex, 5) {
      RenameWrites(f, oldVin, newVin);
    }
  }

  /** The renaming case of `update_vin`: what it writes. */
  lemma RenameWrites(f: Files, oldVin: string, newVin: string)
    requires Synced(f.cars, f.carIndex, 5)
    requires var idx := ParseIndex(f.carIndex).value; oldVin in idx && newVin !in idx
    ensures var idx := ParseIndex(f.carIndex).value;
      var n := idx[oldVin];
      UpdateVinOp(f, oldVin, newVin)
        == Step(f.(cars := WriteRecord(f.cars, n, Renamed(f.cars, f.carIndex, oldVin, newVin)),
                   carIndex := IndexText((idx - {oldVin})[newVin := n])), Pass)
  {
    var idx := ParseIndex(f.carIndex).value;
    var n := idx[oldVin];
    var ls := Lines(f.cars);
    ReadIndexed(f.cars, n);
    assert Fields(ls[n]) == FieldsOf(ls)[n];
  }

  /** The renaming case of `update_vin`: the agreement holds and the index is renamed. */
  lemma RenameEffect(f: Files, oldVin: string, newVin: string)
    requires Synced(f.cars, f.carIndex, 5)
    requires var idx := ParseIndex(f.carIndex).value; oldVin in idx && newVin !in idx
    requires Storable(Renamed(f.cars, f.carIndex, oldVin, newVin))
    ensures var g := UpdateVinOp(f, oldVin, newVin);
      var idx := ParseIndex(f.carIndex).value;
      && Synced(g.files.cars, g.files.carIndex, 5)
      && ParseIndex(g.files.carIndex) == Ok((idx - {oldVin})[newVin := idx[oldVin]])
      && Lines(g.files.cars) == Lines(f.cars)[idx[oldVin] := Pad(Serialize(Renamed(f.cars, f.carIndex, oldVin, newVin)))]
  {
    var idx := ParseIndex(f.carIndex).value;
    var n := idx[oldVin];
    var ls := Lines(f.cars);
    var fs := Renamed(f.cars, f.carIndex, oldVin, newVin);
    var idx' := (idx - {oldVin})[newVin := n];
    RenameWrites(f, oldVin, newVin);
    RewriteLine(f.cars, n, fs);
    FirstFieldValidKey(fs);
    RenamedIndexRoundTrip(f.carIndex, oldVin, newVin, n);
    FieldsOfUpdate(ls, n, Pad(Serialize(fs)));
    RenameKeepsAgreement(FieldsOf(ls), idx, 5, n, fs);
    var g := UpdateVinOp(f, oldVin, newVin).files;
    assert g.cars == WriteRecord(f.cars, n, fs) && g.carIndex == IndexText(idx');
    assert FieldsOf(Lines(g.cars)) == FieldsOf(ls)[n := fs];
    assert Agrees(FieldsOf(Lines(g.cars)), idx', 5);
  }

  /** An index loaded from text, with one key renamed to a valid one, saves and loads back unchanged. */
  lemma RenamedIndexRoundTrip(indexText: string, a: string, b: string, v: int)
    requires ParseIndex(indexText).Ok? && ValidKey(b)
    ensures var m := (ParseIndex(indexText).value - {a})[b := v];
      ParseIndex(IndexText(m)) == Ok(m)
  {
    var idx := ParseIndex(indexText).value;
    var m := (idx - {a})[b := v];
    ParsedKeysValid(indexText);
    assert ValidKeys(m);
    IndexRoundTrip(m);
  }

  // ---------------------------------------------------------------------------
  // revert_sale
  // ---------------------------------------------------------------------------

  /**
    The index after record `i`, keyed `key`, is deleted: `key` is gone and
    every record after it moves up one line.
   */
  function Compacted(idx: map<string, int>, key: string, i: int): map<string, int> {
    map k | k in idx && k != key :: if idx[k] < i then idx[k] else idx[k] - 1
  }

  lemma CompactedSize(idx: map<string, int>, key: string, i: int)
    requires key in idx
    ensures |Compacted(idx, key, i)| == |idx| - 1
  {
    var c := Compacted(idx, key, i);
    assert c.Keys == idx.Keys - {key};
    assert idx.Keys == (idx.Keys - {key}) + {key};
    assert |c| == |c.Keys| && |idx| == |idx.Keys|;
  }

  /** Deleting a record and compacting the index keeps the agreement. */
  lemma RemoveKeepsAgreement(fss: seq<seq<string>>, idx: map<string, int>, arity: nat, i: nat)
    requires Agrees(fss, idx, arity) && i < |fss|
    ensures Agrees(fss[..i] + fss[i + 1..], Compacted(idx, fss[i][0], i), arity)
  {
    var key := fss[i][0];
    var rest := fss[..i] + fss[i + 1..];
    var c := Compacted(idx, key, i);
    CompactedSize(idx, key, i);
    forall k | k in c
      ensures 0 <= c[k] < |rest| && rest[c[k]][0] == k
    {
      var p := idx[k];
      assert p != i;
      if p < i {
        assert rest[p] == fss[p];
      } else {
        assert rest[p - 1] == fss[p];
      }
    }
    forall j | 0 <= j < |rest|
      ensures 1 <= arity <= |rest[j]| && rest[j][0] in c && c[rest[j][0]] == j
    {
      var q := if j < i then j else j + 1;
      assert rest[j] == fss[q];
      assert idx[fss[q][0]] == q;
    }
  }

  /**
    The rebuilt index maps each key to the last position holding it, and
    holds no other key.
   */
  lemma {:induction false} ReindexPositions(ks: seq<Option<string>>)
    ensures forall k :: k in Reindex(ks) ==> 0 <= Reindex(ks)[k] < |ks| && ks[Reindex(ks)[k]] == Some(k)
    ensures forall j :: 0 <= j < |ks| && ks[j].Some? ==> ks[j].value in Reindex(ks) && j <= Reindex(ks)[ks[j].value]
  {
    if ks != [] {
      var init := ks[..|ks| - 1];
      ReindexPositions(init);
      assert forall j :: 0 <= j < |init| ==> init[j] == ks[j];
    }
  }

  /** Keys in one-to-one agreement with an index rebuild to exactly that index. */
  lemma ReindexOfAgreeing(ks: seq<Option<string>>, idx: map<string, int>)
    requires forall k :: k in idx ==> 0 <= idx[k] < |ks| && ks[idx[k]] == Some(k)
    requires forall j :: 0 <= j < |ks| ==> ks[j].Some? && ks[j].value in idx && idx[ks[j].value] == j
    ensures Reindex(ks) == idx
  {
    ReindexPositions(ks);
  }

  /** On records with at least two fields each, a line's key is its field 0. */
  lemma LineKeysOfFields(ls: seq<string>, arity: nat)
    requires arity >= 2
    requires forall j :: 0 <= j < |ls| ==> |FieldsOf(ls)[j]| >= arity
    ensures forall j :: 0 <= j < |ls| ==> LineKeys(ls)[j] == Some(FieldsOf(ls)[j][0])
  {
    forall j | 0 <= j < |ls|
      ensures LineKeys(ls)[j] == Some(FieldsOf(ls)[j][0])
    {
    }
  }

  /** The rebuilt index of lines in agreement with an index is that index. */
  lemma ReindexOfSynced(ls: seq<string>, idx: map<string, int>, arity: nat)
    requires arity >= 2 && Agrees(FieldsOf(ls), idx, arity)
    ensures Reindex(LineKeys(ls)) == idx
  {
    LineKeysOfFields(ls, arity);
    ReindexOfAgreeing(LineKeys(ls), idx);
  }

  /** The sales lines left once line `i` is deleted. */
  function Survivors(ls: seq<string>, i: nat): seq<string>
    requires i < |ls|
  {
    ls[..i] + ls[i + 1..]
  }

  /**
    The sales half of `revert_sale` on agreeing sales files: the indexed line
    is deleted, the survivors keep their order, and the rebuilt index is the
    old one without the sale, every later line moved up by one.
   */
  lemma RemoveSaleSynced(sales: string, salesIndexText: string, salesNumber: string)
    requires Synced(sales, salesIndexText, 4)
    requires salesNumber in ParseIndex(salesIndexText).value
    ensures var idx := ParseIndex(salesIndexText).value;
      var ls := Lines(sales);
      var i := idx[salesNumber];
      var rest := Survivors(ls, i);
      && RemoveSale(sales, salesIndexText, salesNumber) == Ok((rest, FieldsOf(ls)[i][1]))
      && Lines(Concat(rest)) == rest
      && Reindex(LineKeys(rest)) == Compacted(idx, salesNumber, i)
      && Synced(Concat(rest), IndexText(Reindex(LineKeys(rest))), 4)
  {
    var idx := ParseIndex(salesIndexText).value;
    var ls := Lines(sales);
    var i := idx[salesNumber];
    RemoveSaleFound(sales, salesIndexText, salesNumber);
    IndexedAt(FieldsOf(ls), idx, 4, salesNumber);
    SurvivorsSlots(ls, i);
    SurvivorsAgreement(ls, idx, i);
    CompactedRoundTrip(salesIndexText, salesNumber, i);
  }

  /** An index entry of an agreeing store names a line holding its key. */
  lemma IndexedAt(fss: seq<seq<string>>, idx: map<string, int>, arity: nat, key: string)
    requires Agrees(fss, idx, arity) && key in idx
    ensures 0 <= idx[key] < |fss| && fss[idx[key]][0] == key
  {
  }

  /** Deleting one slot leaves slots that read back as themselves. */
  lemma SurvivorsSlots(ls: seq<string>, i: nat)
    requires AllSlots(ls) && i < |ls|
    ensures AllSlots(Survivors(ls, i)) && Lines(Concat(Survivors(ls, i))) == Survivors(ls, i)
  {
    RemoveSlot(ls, i);
  }

  /** The fields left once line `i` is deleted agree with the index compacted past `i`. */
  lemma SurvivorsAgreement(ls: seq<string>, idx: map<string, int>, i: nat)
    requires Agrees(FieldsOf(ls), idx, 4) && i < |ls|
    ensures var c := Compacted(idx, FieldsOf(ls)[i][0], i);
      && Agrees(FieldsOf(Survivors(ls, i)), c, 4)
      && Reindex(LineKeys(Survivors(ls, i))) == c
  {
    var rest := Survivors(ls, i);
    var c := Compacted(idx, FieldsOf(ls)[i][0], i);
    FieldsOfSurvivors(ls, i);
    RemoveKeepsAgreement(FieldsOf(ls), idx, 4, i);
    ReindexOfSynced(rest, c, 4);
  }

  /** `revert_sale` finds an indexed sale on agreeing sales files, and the VIN it sold. */
  lemma RemoveSaleFound(sales: string, salesIndexText: string, salesNumber: string)
    requires Synced(sales, salesIndexText, 4)
    requires salesNumber in ParseIndex(salesIndexText).value
    ensures var ls := Lines(sales);
      var i := ParseIndex(salesIndexText).value[salesNumber];
      RemoveSale(sales, salesIndexText, salesNumber) == Ok((Survivors(ls, i), FieldsOf(ls)[i][1]))
  {
    var ls := Lines(sales);
    var idx := ParseIndex(salesIndexText).value;
    var i := idx[salesNumber];
    assert 0 <= i < |ls| && |FieldsOf(ls)[i]| >= 4 by {
      assert Agrees(FieldsOf(ls), idx, 4);
    }
    RemoveSaleAt(sales, salesIndexText, salesNumber, i);
  }

  /** `revert_sale` removes the line a sales number is indexed at, when it exists and has a VIN field. */
  lemma RemoveSaleAt(sales: string, salesIndexText: string, salesNumber: string, i: int)
    requires ParseIndex(salesIndexText).Ok?
    requires salesNumber in ParseIndex(salesIndexText).value
    requires ParseIndex(salesIndexText).value[salesNumber] == i
    requires 0 <= i < |Lines(sales)| && |FieldsOf(Lines(sales))[i]| >= 2
    ensures RemoveSale(sales, salesIndexText, salesNumber)
      == Ok((Survivors(Lines(sales), i), FieldsOf(Lines(sales))[i][1]))
  {
    RemoveLineAt(Lines(sales), i);
  }

  /** Popping an existing line with a VIN field leaves the other lines in order. */
  lemma RemoveLineAt(ls: seq<string>, i: int)
    requires 0 <= i < |ls| && |FieldsOf(ls)[i]| >= 2
    ensures RemoveLine(ls, i) == Ok((Survivors(ls, i), FieldsOf(ls)[i][1]))
  {
    assert PyIndex(|ls|, i) == Some(i as nat);
    assert Fields(ls[i]) == FieldsOf(ls)[i];
  }

  lemma FieldsOfSurvivors(ls: seq<string>, i: nat)
    requires i < |ls|
    ensures FieldsOf(Survivors(ls, i)) == FieldsOf(ls)[..i] + FieldsOf(ls)[i + 1..]
  {
  }

  /** A loaded index, compacted, saves and loads back unchanged. */
  lemma CompactedRoundTrip(indexText: string, key: string, i: int)
    requires ParseIndex(indexText).Ok?
    ensures var c := Compacted(ParseIndex(indexText).value, key, i);
      ParseIndex(IndexText(c)) == Ok(c)
  {
    var c := Compacted(ParseIndex(indexText).value, key, i);
    ParsedKeysValid(indexText);
    assert ValidKeys(c);
    IndexRoundTrip(c);
  }

  /** The VIN field of the sales line indexed under `salesNumber`. */
  function SoldVin(f: Files, salesNumber: string): string
    requires Synced(f.sales, f.salesIndex, 4)
    requires salesNumber in ParseIndex(f.salesIndex).value
  {
    FieldsOf(Lines(f.sales))[ParseIndex(f.salesIndex).value[salesNumber]][1]
  }

  /**
    `revert_sale` on agreeing sales files: an unknown sales number changes
    nothing; otherwise, whatever the car lookup then does, the sale's line
    is deleted and the index compacted (`RemoveSaleSynced`), and the model
    and car index files are untouched.
   */
  lemma RevertSaleSales(f: Files, salesNumber: string)
    requires Synced(f.sales, f.salesIndex, 4)
    ensures var g := RevertSaleOp(f, salesNumber);
      var idx := ParseIndex(f.salesIndex).value;
      && (salesNumber !in idx ==> g == Step(f, Fail(UnknownSale)))
      && (salesNumber in idx ==>
            && Lines(g.files.sales) == Survivors(Lines(f.sales), idx[salesNumber])
            && ParseIndex(g.files.salesIndex) == Ok(Compacted(idx, salesNumber, idx[salesNumber]))
            && Synced(g.files.sales, g.files.salesIndex, 4)
            && g.files.models == f.models && g.files.modelIndex == f.modelIndex && g.files.carIndex == f.carIndex)
  {
    var idx := ParseIndex(f.salesIndex).value;
    if salesNumber in idx {
      RemoveSaleSynced(f.sales, f.salesIndex, salesNumber);
      SaleRemovedFirst(f, salesNumber);
      CompactedRoundTrip(f.salesIndex, salesNumber, idx[salesNumber]);
    }
  }

  /**
    Once the sale is found, `revert_sale` has rewritten the sales file and
    its index before the car lookup; the other files are untouched.
   */
  lemma SaleRemovedFirst(f: Files, salesNumber: string)
    requires RemoveSale(f.sales, f.salesIndex, salesNumber).Ok?
    ensures var rest := RemoveSale(f.sales, f.salesIndex, salesNumber).value.0;
      var g := RevertSaleOp(f, salesNumber).files;
      && g.sales == Concat(rest)
      && g.salesIndex == IndexText(Reindex(LineKeys(rest)))
      && g.models == f.models && g.modelIndex == f.modelIndex && g.carIndex == f.carIndex
  {
    var rest := RemoveSale(f.sales, f.salesIndex, salesNumber).value.0;
    var f1 := f.(sales := Concat(rest), salesIndex := IndexText(Reindex(LineKeys(rest))));
    var g := RevertSaleOp(f, salesNumber).files;
    assert g == f1 || g == f1.(cars := g.cars);
  }

  /**
    The car half of `revert_sale` on agreeing stores: an unknown VIN fails
    with the car file untouched, a known one gets field 4 of its line set to
    `available` and no other line changes; the car files stay in agreement.
   */
  lemma RevertSaleCars(f: Files, salesNumber: string)
    requires Synced(f.sales, f.salesIndex, 4) && Synced(f.cars, f.carIndex, 5)
    requires salesNumber in ParseIndex(f.salesIndex).value
    requires SoldVin(f, salesNumber) in ParseIndex(f.carIndex).value
      ==> Storable(StatusRewritten(f.cars, f.carIndex, SoldVin(f, salesNumber), Available))
    ensures var g := RevertSaleOp(f, salesNumber);
      var carIdx := ParseIndex(f.carIndex).value;
      var vin := SoldVin(f, salesNumber);
      && Synced(g.files.cars, g.files.carIndex, 5)
      && (vin !in carIdx ==> g.out == Fail(UnknownCar) && g.files.cars == f.cars)
      && (vin in carIdx ==>
            && g.out == Pass
            && Lines(g.files.cars) == Lines(f.cars)[carIdx[vin] := Pad(Serialize(StatusRewritten(f.cars, f.carIndex, vin, Available)))])
  {
    RemoveSaleFound(f.sales, f.salesIndex, salesNumber);
    SetStatusSynced(f.cars, f.carIndex, SoldVin(f, salesNumber), Available, false);
  }
}

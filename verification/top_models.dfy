/**
  What `top_models_by_sales` counts and returns: the VINs `car_mapping`
  knows, which sales count towards a model, and the result list built from
  the three best-ranked models.
 */
module TopModels {
  import opened Results
  import opened PyStr
  import opened FixedWidth
  import opened IndexTable
  import opened Records
  import opened Ranking
  import opened Store
  import opened Consistency

  // ---------------------------------------------------------------------------
  // car_mapping
  // ---------------------------------------------------------------------------

  /** Entry `i` is a car line for `vin`. */
  predicate EntryFor(es: seq<Result<Option<(string, CarRef)>>>, i: int, vin: string) {
    0 <= i < |es| && es[i].Ok? && es[i].value.Some? && es[i].value.value.0 == vin
  }

  /**
    Whatever the car lines, a `car_mapping` that loads holds exactly the
    VINs it started with and those of the car lines with at least 5 fields.
   */
  lemma {:induction false} CarMappingKeys(es: seq<Result<Option<(string, CarRef)>>>, acc: map<string, CarRef>)
    ensures var r := CarMappingFrom(es, acc);
      r.Ok? ==> forall vin :: vin in r.value <==> vin in acc || exists i :: EntryFor(es, i, vin)
    decreases |es|
  {
    if es != [] {
      var r := CarMappingFrom(es, acc);
      match es[0]
      case Err(_) =>
      case Ok(None) =>
        CarMappingKeys(es[1..], acc);
        if r.Ok? {
          forall vin
            ensures vin in r.value <==> vin in acc || exists i :: EntryFor(es, i, vin)
          {
            ShiftEntries(es, vin);
          }
        }
      case Ok(Some((v, ref))) =>
        CarMappingKeys(es[1..], acc[v := ref]);
        if r.Ok? {
          forall vin
            ensures vin in r.value <==> vin in acc || exists i :: EntryFor(es, i, vin)
          {
            ShiftEntries(es, vin);
            if vin == v {
              assert EntryFor(es, 0, vin);
            }
          }
        }
    }
  }

  /** An entry for `vin` past the first is an entry of the rest. */
  lemma ShiftEntries(es: seq<Result<Option<(string, CarRef)>>>, vin: string)
    requires es != []
    ensures (exists i :: EntryFor(es, i, vin)) <==> EntryFor(es, 0, vin) || exists i :: EntryFor(es[1..], i, vin)
  {
    if exists i :: EntryFor(es, i, vin) {
      var i :| EntryFor(es, i, vin);
      if i > 0 {
        assert EntryFor(es[1..], i - 1, vin);
      }
    }
    if exists i :: EntryFor(es[1..], i, vin) {
      var i :| EntryFor(es[1..], i, vin);
      assert EntryFor(es, i + 1, vin);
    }
  }

  /** A stored car's line gives its VIN, model and price to `car_mapping`. */
  lemma StoredCarEntry(c: Car)
    requires Storable(CarFields(c))
    ensures CarEntry(Pad(Serialize(CarFields(c)))) == Ok(Some((c.vin, CarRef(c.model, c.price))))
  {
    var line := Pad(Serialize(CarFields(c)));
    CarRecordRoundTrip(c);
    ParseIntToString(c.model);
    ParseIntToString(c.price);
  }

  // ---------------------------------------------------------------------------
  // The sales loop
  // ---------------------------------------------------------------------------

  /** How many sales name a VIN the mapping knows and whose car is of `model`. */
  function KnownSales(vs: seq<Result<Option<string>>>, mapping: map<string, CarRef>, model: int): nat {
    if vs == [] then 0 else KnownSale(vs[0], mapping, model) + KnownSales(vs[1..], mapping, model)
  }

  /** Whether one sales line's VIN is a known car of `model`: its share of `KnownSales`. */
  function KnownSale(v: Result<Option<string>>, mapping: map<string, CarRef>, model: int): nat {
    if v.Ok? && v.value.Some? && v.value.value in mapping && mapping[v.value.value].model == model then 1 else 0
  }

  /** Counting one more sold car. */
  lemma CountAppend(refs: seq<CarRef>, x: CarRef, model: int)
    ensures CountOf(refs + [x], model) == CountOf(refs, model) + (if x.model == model then 1 else 0)
  {
    assert (refs + [x])[..|refs|] == refs;
  }

  /**
    The sales loop counts, for each model, exactly the sales whose VIN the
    car file knows and whose car is of that model; sales of unknown VINs are
    not counted.
   */
  lemma {:induction false} SoldFromCounts(vs: seq<Result<Option<string>>>, mapping: map<string, CarRef>, acc: seq<CarRef>, model: int)
    ensures var r := SoldFrom(vs, mapping, acc);
      r.Ok? ==> CountOf(r.value, model) == CountOf(acc, model) + KnownSales(vs, mapping, model)
    decreases |vs|
  {
    if vs != [] {
      match vs[0]
      case Err(_) =>
      case Ok(None) =>
        SoldFromCounts(vs[1..], mapping, acc, model);
      case Ok(Some(vin)) =>
        if vin in mapping {
          var x := mapping[vin];
          SoldFromCounts(vs[1..], mapping, acc + [x], model);
          CountAppend(acc, x, model);
        } else {
          SoldFromCounts(vs[1..], mapping, acc, model);
        }
    }
  }

  /** Every sold car the loop records is a car the mapping holds. */
  lemma {:induction false} SoldFromKnown(vs: seq<Result<Option<string>>>, mapping: map<string, CarRef>, acc: seq<CarRef>)
    ensures var r := SoldFrom(vs, mapping, acc);
      r.Ok? ==> (
        && |acc| <= |r.value|
        && r.value[..|acc|] == acc
        && forall j :: |acc| <= j < |r.value| ==> r.value[j] in mapping.Values)
    decreases |vs|
  {
    if vs != [] {
      match vs[0]
      case Err(_) =>
      case Ok(None) =>
        SoldFromKnown(vs[1..], mapping, acc);
      case Ok(Some(vin)) =>
        if vin in mapping {
          var acc' := acc + [mapping[vin]];
          SoldFromKnown(vs[1..], mapping, acc');
          var r := SoldFrom(vs, mapping, acc);
          assert r == SoldFrom(vs[1..], mapping, acc');
          if r.Ok? {
            var v := r.value;
            assert |acc'| == |acc| + 1;
            assert v[..|acc'|] == acc';
            assert v[..|acc'|][..|acc|] == v[..|acc|];
            assert v[|acc|] == mapping[vin];
          }
        } else {
          SoldFromKnown(vs[1..], mapping, acc);
        }
    }
  }

  /**
    Each tally of the sold cars counts exactly the known-VIN sales of its
    model, and its `max_price` is the price of one of those cars.
   */
  lemma TalliesCountKnownSales(vs: seq<Result<Option<string>>>, mapping: map<string, CarRef>)
    requires SoldFrom(vs, mapping, []).Ok?
    ensures var ts := TallyOf(SoldFrom(vs, mapping, []).value);
      forall i :: 0 <= i < |ts| ==>
        && ts[i].count == KnownSales(vs, mapping, ts[i].model)
        && CarRef(ts[i].model, ts[i].maxPrice) in mapping.Values
  {
    var refs := SoldFrom(vs, mapping, []).value;
    var ts := TallyOf(refs);
    TallyOfCounts(refs);
    SoldFromKnown(vs, mapping, []);
    forall i | 0 <= i < |ts|
      ensures ts[i].count == KnownSales(vs, mapping, ts[i].model)
      ensures CarRef(ts[i].model, ts[i].maxPrice) in mapping.Values
    {
      SoldFromCounts(vs, mapping, [], ts[i].model);
      assert Tallies(ts[i], refs);
    }
  }

  /** The known sales of two runs of sales lines add up. */
  lemma {:induction false} KnownSalesConcat(a: seq<Result<Option<string>>>, b: seq<Result<Option<string>>>, mapping: map<string, CarRef>, model: int)
    ensures KnownSales(a + b, mapping, model) == KnownSales(a, mapping, model) + KnownSales(b, mapping, model)
    decreases |a|
  {
    if a == [] {
      assert a + b == b;
    } else {
      assert (a + b)[1..] == a[1..] + b;
      KnownSalesConcat(a[1..], b, mapping, model);
    }
  }

  /** Dropping one sales line drops its share of the known sales and no more. */
  lemma KnownSalesWithout(vs: seq<Result<Option<string>>>, i: nat, mapping: map<string, CarRef>, model: int)
    requires i < |vs|
    ensures KnownSales(vs[..i] + vs[i + 1..], mapping, model) + KnownSale(vs[i], mapping, model)
      == KnownSales(vs, mapping, model)
  {
    assert vs == vs[..i] + ([vs[i]] + vs[i + 1..]);
    KnownSalesConcat(vs[..i], [vs[i]] + vs[i + 1..], mapping, model);
    KnownSalesConcat([vs[i]], vs[i + 1..], mapping, model);
    assert ([vs[i]])[1..] == [];
    KnownSalesConcat(vs[..i], vs[i + 1..], mapping, model);
  }

  /** An indexed sales line of an agreeing sales store is not blank, and its VIN is the sold VIN. */
  lemma IndexedSaleVin(f: Files, salesNumber: string)
    requires Synced(f.sales, f.salesIndex, 4)
    requires salesNumber in ParseIndex(f.salesIndex).value
    ensures var i := ParseIndex(f.salesIndex).value[salesNumber];
      0 <= i < |Lines(f.sales)| && SaleVin(Lines(f.sales)[i]) == Ok(Some(SoldVin(f, salesNumber)))
  {
    var ls := Lines(f.sales);
    var i := ParseIndex(f.salesIndex).value[salesNumber];
    IndexedAt(FieldsOf(ls), ParseIndex(f.salesIndex).value, 4, salesNumber);
    assert |Fields(ls[i])| >= 4;
  }

  /** `revert_sale` leaves the sales lines other than the removed one. */
  lemma RevertedSalesLines(f: Files, salesNumber: string)
    requires Synced(f.sales, f.salesIndex, 4)
    requires salesNumber in ParseIndex(f.salesIndex).value
    ensures var i := ParseIndex(f.salesIndex).value[salesNumber];
      && 0 <= i < |Lines(f.sales)|
      && Lines(RevertSaleOp(f, salesNumber).files.sales) == Survivors(Lines(f.sales), i)
  {
    RevertSaleSales(f, salesNumber);
  }

  /** Removing sales line `i` removes exactly its share of each model's known sales. */
  lemma SurvivorsKnownSales(ls: seq<string>, i: nat, mapping: map<string, CarRef>, model: int)
    requires i < |ls|
    ensures KnownSales(SaleVins(Survivors(ls, i)), mapping, model) + KnownSale(SaleVin(ls[i]), mapping, model)
      == KnownSales(SaleVins(ls), mapping, model)
  {
    var vs := SaleVins(ls);
    assert SaleVins(Survivors(ls, i)) == vs[..i] + vs[i + 1..];
    KnownSalesWithout(vs, i, mapping, model);
  }

  /**
    After `revert_sale` removes an indexed sale, that sale no longer counts:
    the sales of a model that `top_models_by_sales` counts drop by one when
    the sale's VIN is a known car of that model, and are unchanged otherwise.
   */
  lemma RevertUncounts(f: Files, salesNumber: string, mapping: map<string, CarRef>, model: int)
    requires Synced(f.sales, f.salesIndex, 4)
    requires salesNumber in ParseIndex(f.salesIndex).value
    ensures var g := RevertSaleOp(f, salesNumber).files;
      var vin := SoldVin(f, salesNumber);
      KnownSales(SaleVins(Lines(g.sales)), mapping, model)
        + (if vin in mapping && mapping[vin].model == model then 1 else 0)
        == KnownSales(SaleVins(Lines(f.sales)), mapping, model)
  {
    RevertedSalesLines(f, salesNumber);
    IndexedSaleVin(f, salesNumber);
    SurvivorsKnownSales(Lines(f.sales), ParseIndex(f.salesIndex).value[salesNumber], mapping, model);
  }

  // ---------------------------------------------------------------------------
  // The result loop
  // ---------------------------------------------------------------------------

  /** A scan keeps what it had and adds at most one entry per step. */
  lemma {:induction false} GatherGrows<T>(steps: seq<Result<Option<T>>>, acc: seq<T>)
    ensures var r := Gather(steps, acc);
      r.Ok? ==> |acc| <= |r.value| <= |acc| + |steps| && r.value[..|acc|] == acc
    decreases |steps|
  {
    if steps != [] {
      match steps[0]
      case Err(_) =>
      case Ok(None) =>
        GatherGrows(steps[1..], acc);
      case Ok(Some(x)) =>
        var acc' := acc + [x];
        GatherGrows(steps[1..], acc');
        var r := Gather(steps, acc);
        assert r == Gather(steps[1..], acc');
        if r.Ok? {
          var v := r.value;
          assert |acc'| == |acc| + 1;
          assert v[..|acc'|] == acc';
          assert v[..|acc'|][..|acc|] == v[..|acc|];
        }
    }
  }

  /** A result entry carries the count of the ranked model it was made from. */
  lemma StatStepCount(t: Tally, modelIndex: map<string, int>, models: string)
    requires StatStep(t, modelIndex, models).Ok? && StatStep(t, modelIndex, models).value.Some?
    ensures StatStep(t, modelIndex, models).value.value.salesNumber == t.count
  {
  }

  /** Sales counts that never go up. */
  predicate CountsDescending(top: seq<Tally>) {
    forall i, j :: 0 <= i < j < |top| ==> top[j].count <= top[i].count
  }

  /** Result entries whose sales counts never go up. */
  predicate NonIncreasing(r: seq<ModelSaleStats>) {
    forall i, j :: 0 <= i < j < |r| ==> r[j].salesNumber <= r[i].salesNumber
  }

  /** Every entry of `acc` counts at least as many sales as every model still to come. */
  predicate Above(acc: seq<ModelSaleStats>, top: seq<Tally>) {
    forall i, j :: 0 <= i < |acc| && 0 <= j < |top| ==> top[j].count <= acc[i].salesNumber
  }

  /** Each step's entry, if any, carries the count of its ranked model. */
  predicate CarriesCounts(steps: seq<Result<Option<ModelSaleStats>>>, top: seq<Tally>) {
    |steps| == |top|
    && forall i :: 0 <= i < |steps| && steps[i].Ok? && steps[i].value.Some? ==> steps[i].value.value.salesNumber == top[i].count
  }

  /** Over models ranked by count, the result loop lists counts that never go up. */
  lemma {:induction false} GatherOrdered(steps: seq<Result<Option<ModelSaleStats>>>, top: seq<Tally>, acc: seq<ModelSaleStats>)
    requires CarriesCounts(steps, top) && CountsDescending(top)
    requires NonIncreasing(acc) && Above(acc, top)
    ensures var r := Gather(steps, acc);
      r.Ok? ==> NonIncreasing(r.value)
    decreases |steps|
  {
    if steps != [] {
      assert CarriesCounts(steps[1..], top[1..]) by {
        forall i | 0 <= i < |steps[1..]| && steps[1..][i].Ok? && steps[1..][i].value.Some?
          ensures steps[1..][i].value.value.salesNumber == top[1..][i].count
        {
          assert steps[1..][i] == steps[i + 1] && top[1..][i] == top[i + 1];
        }
      }
      assert CountsDescending(top[1..]) by {
        forall i, j | 0 <= i < j < |top[1..]|
          ensures top[1..][j].count <= top[1..][i].count
        {
          assert top[1..][j] == top[j + 1] && top[1..][i] == top[i + 1];
        }
      }
      assert Above(acc, top[1..]) by {
        forall i, j | 0 <= i < |acc| && 0 <= j < |top[1..]|
          ensures top[1..][j].count <= acc[i].salesNumber
        {
          assert top[1..][j] == top[j + 1];
        }
      }
      match steps[0]
      case Err(_) =>
      case Ok(None) =>
        GatherOrdered(steps[1..], top[1..], acc);
      case Ok(Some(x)) =>
        var acc' := acc + [x];
        assert x.salesNumber == top[0].count;
        assert NonIncreasing(acc') by {
          forall i, j | 0 <= i < j < |acc'|
            ensures acc'[j].salesNumber <= acc'[i].salesNumber
          {
            if j == |acc| {
              assert acc'[i] == acc[i];
            }
          }
        }
        assert Above(acc', top[1..]) by {
          forall i, j | 0 <= i < |acc'| && 0 <= j < |top[1..]|
            ensures top[1..][j].count <= acc'[i].salesNumber
          {
            assert top[1..][j] == top[j + 1];
            if i == |acc| {
              assert top[0].count >= top[j + 1].count;
            } else {
              assert acc'[i] == acc[i];
            }
          }
        }
        GatherOrdered(steps[1..], top[1..], acc');
    }
  }

  /** A descending ranking lists its sales counts in non-increasing order. */
  lemma DescendingCounts(s: seq<Tally>)
    requires Descending(s)
    ensures CountsDescending(s)
  {
    forall i, j | 0 <= i < j < |s|
      ensures s[j].count <= s[i].count
    {
      assert !Outranks(s[j], s[i]);
    }
  }

  /**
    `top_models_by_sales` returns at most three entries, with sales counts
    that never go up.
   */
  lemma TopModelsRanked(f: Files)
    ensures var r := TopModelsOp(f);
      r.Ok? ==> |r.value| <= 3 && NonIncreasing(r.value)
  {
    var r := TopModelsOp(f);
    if r.Ok? {
      var mapping := CarMappingFrom(CarEntries(Lines(f.cars)), map[]).value;
      var refs := SoldFrom(SaleVins(Lines(f.sales)), mapping, []).value;
      var ranked := Rank(TallyOf(refs));
      var top := TopThree(ranked);
      var idx := ParseIndex(f.modelIndex).value;
      var steps := StatSteps(top, idx, f.models);
      assert r == Gather(steps, []);
      RankSorted(TallyOf(refs));
      DescendingCounts(ranked);
      forall i | 0 <= i < |steps| && steps[i].Ok? && steps[i].value.Some?
        ensures steps[i].value.value.salesNumber == top[i].count
      {
        StatStepCount(top[i], idx, f.models);
      }
      GatherGrows(steps, []);
      GatherOrdered(steps, top, []);
    }
  }

  // ---------------------------------------------------------------------------
  // The result loop on agreeing model files
  // ---------------------------------------------------------------------------

  /**
    What the model files say about a ranked model: its name and brand from
    the line its id is indexed at, with its count; nothing when the id is
    not indexed.
   */
  function ModelInfo(t: Tally, idx: map<string, int>, fss: seq<seq<string>>): Option<ModelSaleStats> {
    var key := IntToString(t.model);
    if key in idx && 0 <= idx[key] < |fss| && |fss[idx[key]]| >= 3 then
      Some(ModelSaleStats(fss[idx[key]][1], fss[idx[key]][2], t.count))
    else None
  }

  /** The ranked models the model files know, in rank order, with their names and brands. */
  function Listed(top: seq<Tally>, idx: map<string, int>, fss: seq<seq<string>>): seq<ModelSaleStats> {
    if top == [] then []
    else
      (match ModelInfo(top[0], idx, fss) case None => [] case Some(s) => [s])
      + Listed(top[1..], idx, fss)
  }

  /**
    On agreeing model files the result loop's step for a ranked model is
    what the files say about it, and a model is listed exactly when its id
    is indexed, from a line that holds that id.
   */
  lemma StatStepSynced(t: Tally, models: string, modelIndexText: string)
    requires Synced(models, modelIndexText, 3)
    ensures var idx := ParseIndex(modelIndexText).value;
      var fss := FieldsOf(Lines(models));
      var key := IntToString(t.model);
      && StatStep(t, idx, models) == Ok(ModelInfo(t, idx, fss))
      && (ModelInfo(t, idx, fss).Some? <==> key in idx)
      && (key in idx ==> fss[idx[key]][0] == key)
  {
    var idx := ParseIndex(modelIndexText).value;
    var fss := FieldsOf(Lines(models));
    var key := IntToString(t.model);
    if key in idx {
      IndexedAt(fss, idx, 3, key);
      assert |fss[idx[key]]| >= 3;
    }
    StatStepRead(t, idx, models);
  }

  /** With every indexed id on a line of the model file, a step reads that line. */
  lemma StatStepRead(t: Tally, idx: map<string, int>, models: string)
    requires WellFormed(models)
    requires IntToString(t.model) in idx ==> 0 <= idx[IntToString(t.model)] < |Lines(models)|
    ensures StatStep(t, idx, models) == Ok(ModelInfo(t, idx, FieldsOf(Lines(models))))
  {
    var key := IntToString(t.model);
    if key in idx {
      ReadIndexed(models, idx[key]);
    }
  }

  /** The result loop over steps that each say what the files know is `Listed`. */
  lemma {:induction false} GatherListed(steps: seq<Result<Option<ModelSaleStats>>>, top: seq<Tally>, idx: map<string, int>, fss: seq<seq<string>>, acc: seq<ModelSaleStats>)
    requires |steps| == |top|
    requires forall i :: 0 <= i < |top| ==> steps[i] == Ok(ModelInfo(top[i], idx, fss))
    ensures Gather(steps, acc) == Ok(acc + Listed(top, idx, fss))
    decreases |top|
  {
    if top == [] {
      assert acc + Listed(top, idx, fss) == acc;
    } else {
      assert forall i :: 0 <= i < |top[1..]| ==> steps[1..][i] == Ok(ModelInfo(top[1..][i], idx, fss));
      assert steps[0] == Ok(ModelInfo(top[0], idx, fss));
      match ModelInfo(top[0], idx, fss)
      case None =>
        GatherListed(steps[1..], top[1..], idx, fss, acc);
        assert Listed(top, idx, fss) == Listed(top[1..], idx, fss);
      case Some(s) =>
        GatherListed(steps[1..], top[1..], idx, fss, acc + [s]);
        assert Listed(top, idx, fss) == [s] + Listed(top[1..], idx, fss);
        assert acc + Listed(top, idx, fss) == (acc + [s]) + Listed(top[1..], idx, fss);
    }
  }

  /**
    On agreeing model files the result loop lists exactly the ranked models
    whose ids are indexed, in rank order, with the name and brand of their
    lines; models missing from the index are skipped.
   */
  lemma StatsSynced(top: seq<Tally>, models: string, modelIndexText: string)
    requires Synced(models, modelIndexText, 3)
    ensures var idx := ParseIndex(modelIndexText).value;
      Gather(StatSteps(top, idx, models), []) == Ok(Listed(top, idx, FieldsOf(Lines(models))))
  {
    var idx := ParseIndex(modelIndexText).value;
    var fss := FieldsOf(Lines(models));
    var steps := StatSteps(top, idx, models);
    forall i | 0 <= i < |top|
      ensures steps[i] == Ok(ModelInfo(top[i], idx, fss))
    {
      StatStepSynced(top[i], models, modelIndexText);
    }
    GatherListed(steps, top, idx, fss, []);
    assert [] + Listed(top, idx, fss) == Listed(top, idx, fss);
  }

  /** `Listed` keeps exactly the ranked models with an entry, in order. */
  lemma {:induction false} ListedCounts(top: seq<Tally>, idx: map<string, int>, fss: seq<seq<string>>)
    ensures |Listed(top, idx, fss)| <= |top|
    ensures (forall i :: 0 <= i < |top| ==> ModelInfo(top[i], idx, fss).Some?) ==> |Listed(top, idx, fss)| == |top|
    ensures (forall i :: 0 <= i < |top| ==> ModelInfo(top[i], idx, fss).None?) ==> Listed(top, idx, fss) == []
    decreases |top|
  {
    if top != [] {
      ListedCounts(top[1..], idx, fss);
      assert forall i :: 0 <= i < |top[1..]| ==> top[1..][i] == top[i + 1];
    }
  }

  /**
    On agreeing model files `top_models_by_sales` returns the indexed models
    among the three best-ranked, in rank order, with their names, brands
    and counts.
   */
  lemma TopModelsSynced(f: Files)
    requires Synced(f.models, f.modelIndex, 3)
    requires CarMappingFrom(CarEntries(Lines(f.cars)), map[]).Ok?
    requires SoldFrom(SaleVins(Lines(f.sales)), CarMappingFrom(CarEntries(Lines(f.cars)), map[]).value, []).Ok?
    ensures var mapping := CarMappingFrom(CarEntries(Lines(f.cars)), map[]).value;
      var refs := SoldFrom(SaleVins(Lines(f.sales)), mapping, []).value;
      var top := TopThree(Rank(TallyOf(refs)));
      TopModelsOp(f) == Ok(Listed(top, ParseIndex(f.modelIndex).value, FieldsOf(Lines(f.models))))
  {
    var mapping := CarMappingFrom(CarEntries(Lines(f.cars)), map[]).value;
    var refs := SoldFrom(SaleVins(Lines(f.sales)), mapping, []).value;
    var top := TopThree(Rank(TallyOf(refs)));
    StatsSynced(top, f.models, f.modelIndex);
  }
}

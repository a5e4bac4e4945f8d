/**
  What the read-only operations return: `get_cars` against a plain filter
  of the stored cars, and `get_car_info`'s join and its sales scan, also
  after `add_car`, `update_vin`, `sell_car` and `revert_sale`.
 */
module Queries {
  import opened Results
  import opened PyStr
  import opened FixedWidth
  import opened IndexTable
  import opened Records
  import opened Ranking
  import opened Store
  import opened Consistency

  // ---------------------------------------------------------------------------
  // get_cars
  // ---------------------------------------------------------------------------

  /** The car file holding `cs`, one slot per car, in order. */
  function CarLines(cs: seq<Car>): (ls: seq<string>)
    ensures |ls| == |cs|
    ensures forall i :: 0 <= i < |cs| ==> ls[i] == Pad(Serialize(CarFields(cs[i])))
  {
    seq(|cs|, i requires 0 <= i < |cs| => Pad(Serialize(CarFields(cs[i]))))
  }

  /** The cars of `cs` with `status`, in order. */
  function WithStatus(cs: seq<Car>, status: CarStatus): seq<Car> {
    if cs == [] then []
    else (if cs[0].status == status then [cs[0]] else []) + WithStatus(cs[1..], status)
  }

  /** A stored car's line is listed exactly when its status is the one asked for. */
  lemma CarLineStatus(c: Car, status: CarStatus)
    requires Storable(CarFields(c))
    ensures CarWithStatus(Pad(Serialize(CarFields(c))), status)
      == if c.status == status then Ok(Some(c)) else Ok(None)
  {
    var line := Pad(Serialize(CarFields(c)));
    CarRecordRoundTrip(c);
    assert StatusValue(c.status) == StatusValue(status) <==> c.status == status;
  }

  /** The outcome `get_cars` gives a stored car's line when asked for `status`. */
  function StoredStep(c: Car, status: CarStatus): Result<Option<Car>> {
    if c.status == status then Ok(Some(c)) else Ok(None)
  }

  /** A scan over the outcomes of stored cars is the status filter. */
  lemma {:induction false} CarsFromFilter(cs: seq<Car>, steps: seq<Result<Option<Car>>>, status: CarStatus, acc: seq<Car>)
    requires |steps| == |cs|
    requires forall i :: 0 <= i < |cs| ==> steps[i] == StoredStep(cs[i], status)
    ensures Gather(steps, acc) == Ok(acc + WithStatus(cs, status))
    decreases |cs|
  {
    if cs != [] {
      var head := if cs[0].status == status then [cs[0]] else [];
      assert steps[0] == StoredStep(cs[0], status);
      if cs[0].status == status {
        assert Gather(steps, acc) == Gather(steps[1..], acc + head);
      } else {
        assert acc + head == acc;
        assert Gather(steps, acc) == Gather(steps[1..], acc);
      }
      CarsFromFilter(cs[1..], steps[1..], status, acc + head);
      assert acc + WithStatus(cs, status) == (acc + head) + WithStatus(cs[1..], status);
    } else {
      assert acc + WithStatus(cs, status) == acc;
    }
  }

  /** A car file written from stored cars reads back as their lines. */
  lemma StoredLines(cs: seq<Car>)
    requires forall i :: 0 <= i < |cs| ==> Storable(CarFields(cs[i]))
    ensures Lines(Concat(CarLines(cs))) == CarLines(cs)
  {
    var ls := CarLines(cs);
    forall i | 0 <= i < |cs|
      ensures IsSlot(ls[i])
    {
      RecordRoundTrip(CarFields(cs[i]));
    }
    LinesOfSlots(ls);
  }

  /** What `get_cars` makes of each stored car's line. */
  lemma StoredSteps(cs: seq<Car>, status: CarStatus)
    requires forall i :: 0 <= i < |cs| ==> Storable(CarFields(cs[i]))
    ensures forall i :: 0 <= i < |cs| ==> CarSteps(CarLines(cs), status)[i] == StoredStep(cs[i], status)
  {
    var steps := CarSteps(CarLines(cs), status);
    forall i | 0 <= i < |cs|
      ensures steps[i] == StoredStep(cs[i], status)
    {
      CarLineStatus(cs[i], status);
    }
  }

  /**
    `get_cars` on a car file of stored cars returns exactly the cars with
    the requested status, in file order.
   */
  lemma GetCarsFilters(f: Files, cs: seq<Car>, status: CarStatus)
    requires forall i :: 0 <= i < |cs| ==> Storable(CarFields(cs[i]))
    requires f.cars == Concat(CarLines(cs))
    ensures GetCarsOp(f, status) == Ok(WithStatus(cs, status))
  {
    StoredLines(cs);
    StoredScan(cs, status);
  }

  /** The `get_cars` scan over the lines of stored cars is the status filter. */
  lemma StoredScan(cs: seq<Car>, status: CarStatus)
    requires forall i :: 0 <= i < |cs| ==> Storable(CarFields(cs[i]))
    ensures Gather(CarSteps(CarLines(cs), status), []) == Ok(WithStatus(cs, status))
  {
    StoredSteps(cs, status);
    CarsFromFilter(cs, CarSteps(CarLines(cs), status), status, []);
    assert [] + WithStatus(cs, status) == WithStatus(cs, status);
  }

  /** A line `get_cars` lists holds a car with the requested status. */
  lemma ListedHasStatus(line: string, status: CarStatus)
    requires CarWithStatus(line, status).Ok? && CarWithStatus(line, status).value.Some?
    ensures CarWithStatus(line, status).value.value.status == status
  {
    var data := Fields(line);
    assert data[4] == StatusValue(status);
  }

  /** Every car of `cs` has `status`. */
  predicate AllWith(cs: seq<Car>, status: CarStatus) {
    forall i :: 0 <= i < |cs| ==> cs[i].status == status
  }

  /** Every car an outcome lists has `status`. */
  predicate StepsWith(steps: seq<Result<Option<Car>>>, status: CarStatus) {
    forall i :: 0 <= i < |steps| && steps[i].Ok? && steps[i].value.Some? ==> steps[i].value.value.status == status
  }

  /** The scan keeps what it had and adds only cars the outcomes list. */
  lemma {:induction false} CarsFromSound(steps: seq<Result<Option<Car>>>, status: CarStatus, acc: seq<Car>)
    requires StepsWith(steps, status)
    ensures var r := Gather(steps, acc);
      r.Ok? ==> |acc| <= |r.value| && r.value[..|acc|] == acc && AllWith(r.value[|acc|..], status)
    decreases |steps|
  {
    if steps != [] {
      assert StepsWith(steps[1..], status) by {
        forall i | 0 <= i < |steps[1..]| && steps[1..][i].Ok? && steps[1..][i].value.Some?
          ensures steps[1..][i].value.value.status == status
        {
          assert steps[1..][i] == steps[i + 1];
        }
      }
      match steps[0]
      case Err(e) =>
      case Ok(None) =>
        CarsFromSound(steps[1..], status, acc);
      case Ok(Some(c)) =>
        var acc' := acc + [c];
        CarsFromSound(steps[1..], status, acc');
        var r := Gather(steps, acc);
        assert r == Gather(steps[1..], acc');
        if r.Ok? {
          var v := r.value;
          assert |acc'| == |acc| + 1;
          assert v[..|acc'|] == acc';
          assert v[..|acc'|][..|acc|] == v[..|acc|];
          assert v[|acc|..] == [c] + v[|acc'|..];
        }
    }
  }

  /** Whatever the car file holds, every car `get_cars` returns has the requested status. */
  lemma GetCarsSound(f: Files, status: CarStatus)
    ensures GetCarsOp(f, status).Ok? ==> AllWith(GetCarsOp(f, status).value, status)
  {
    var ls := Lines(f.cars);
    var steps := CarSteps(ls, status);
    forall i | 0 <= i < |steps| && steps[i].Ok? && steps[i].value.Some?
      ensures steps[i].value.value.status == status
    {
      ListedHasStatus(ls[i], status);
    }
    CarsFromSound(steps, status, []);
    var r := Gather(steps, []);
    if r.Ok? {
      assert r.value[0..] == r.value;
    }
  }

  // ---------------------------------------------------------------------------
  // get_car_info
  // ---------------------------------------------------------------------------

  /** The sales file holding `ss`, one slot per sale, in order. */
  function SaleLines(ss: seq<Sale>): (ls: seq<string>)
    ensures |ls| == |ss|
    ensures forall i :: 0 <= i < |ss| ==> ls[i] == Pad(Serialize(SaleFields(ss[i])))
  {
    seq(|ss|, i requires 0 <= i < |ss| => Pad(Serialize(SaleFields(ss[i]))))
  }

  /** Cost and date of the first sale of `vin` in `ss`, if there is one. */
  function FirstSaleOf(ss: seq<Sale>, vin: string): Option<(int, string)> {
    if ss == [] then None
    else if ss[0].carVin == vin then Some((ss[0].cost, ss[0].salesDate))
    else FirstSaleOf(ss[1..], vin)
  }

  /** `FirstSaleOf` finds the earliest sale of the VIN ... */
  lemma {:induction false} FirstSaleOfFound(ss: seq<Sale>, vin: string, j: int)
    requires 0 <= j < |ss| && ss[j].carVin == vin
    requires forall k :: 0 <= k < j ==> ss[k].carVin != vin
    ensures FirstSaleOf(ss, vin) == Some((ss[j].cost, ss[j].salesDate))
    decreases j
  {
    if j > 0 {
      FirstSaleOfFound(ss[1..], vin, j - 1);
    }
  }

  /** ... and nothing exactly when no sale is of that VIN. */
  lemma {:induction false} FirstSaleOfNone(ss: seq<Sale>, vin: string)
    ensures FirstSaleOf(ss, vin) == None <==> forall j :: 0 <= j < |ss| ==> ss[j].carVin != vin
    decreases |ss|
  {
    if ss != [] {
      FirstSaleOfNone(ss[1..], vin);
      assert forall j :: 1 <= j < |ss| ==> ss[j] == ss[1..][j - 1];
    }
  }

  /** The outcome the sales scan gives a stored sale's line. */
  function StoredSaleStep(s: Sale, vin: string): Result<Option<(int, string)>> {
    if s.carVin == vin then Ok(Some((s.cost, s.salesDate))) else Ok(None)
  }

  /** A stored sale's line matches exactly when its VIN is the one asked for, and gives its cost and date. */
  lemma SaleLineStep(s: Sale, vin: string)
    requires Storable(SaleFields(s))
    ensures SaleStep(Pad(Serialize(SaleFields(s))), vin) == StoredSaleStep(s, vin)
  {
    var line := Pad(Serialize(SaleFields(s)));
    RecordRoundTrip(SaleFields(s));
    ParseIntToString(s.cost);
  }

  /** The scan over stored sales' outcomes is `FirstSaleOf`. */
  lemma {:induction false} FirstSaleOfSteps(ss: seq<Sale>, steps: seq<Result<Option<(int, string)>>>, vin: string)
    requires |steps| == |ss|
    requires forall i :: 0 <= i < |ss| ==> steps[i] == StoredSaleStep(ss[i], vin)
    ensures FirstSale(steps) == Ok(FirstSaleOf(ss, vin))
    decreases |ss|
  {
    if ss != [] {
      assert steps[0] == StoredSaleStep(ss[0], vin);
      if ss[0].carVin != vin {
        FirstSaleOfSteps(ss[1..], steps[1..], vin);
      }
    }
  }

  /** A sales file written from stored sales reads back as their lines. */
  lemma StoredSaleLines(ss: seq<Sale>)
    requires forall i :: 0 <= i < |ss| ==> Storable(SaleFields(ss[i]))
    ensures Lines(Concat(SaleLines(ss))) == SaleLines(ss)
  {
    var ls := SaleLines(ss);
    forall i | 0 <= i < |ss|
      ensures IsSlot(ls[i])
    {
      RecordRoundTrip(SaleFields(ss[i]));
    }
    LinesOfSlots(ls);
  }

  /** The sales scan of `get_car_info` over a file of stored sales finds the first sale of the VIN. */
  lemma StoredFirstSale(ss: seq<Sale>, vin: string)
    requires forall i :: 0 <= i < |ss| ==> Storable(SaleFields(ss[i]))
    ensures FirstSale(SaleSteps(Lines(Concat(SaleLines(ss))), vin)) == Ok(FirstSaleOf(ss, vin))
  {
    var ls := SaleLines(ss);
    StoredSaleLines(ss);
    var steps := SaleSteps(ls, vin);
    forall i | 0 <= i < |ss|
      ensures steps[i] == StoredSaleStep(ss[i], vin)
    {
      SaleLineStep(ss[i], vin);
    }
    FirstSaleOfSteps(ss, steps, vin);
  }

  /** A line the sales scan stops at with a sale is a line for that VIN holding that cost and date. */
  lemma SaleStepFound(line: string, vin: string)
    requires SaleStep(line, vin).Ok? && SaleStep(line, vin).value.Some?
    ensures var fs := Fields(line); var sale := SaleStep(line, vin).value.value;
      |fs| >= 4 && fs[1] == vin && ParseInt(fs[2]) == Some(sale.0) && fs[3] == sale.1
  {
  }

  /** Whatever the lines, a sale the scan returns comes from the first line that is not passed over. */
  lemma {:induction false} FirstSaleFound(steps: seq<Result<Option<(int, string)>>>)
    requires FirstSale(steps).Ok? && FirstSale(steps).value.Some?
    ensures exists j ::
      && 0 <= j < |steps|
      && steps[j] == Ok(FirstSale(steps).value)
      && (forall k :: 0 <= k < j ==> steps[k] == Ok(None))
    decreases |steps|
  {
    if steps[0] == Ok(None) {
      FirstSaleFound(steps[1..]);
      var j :| 0 <= j < |steps[1..]| && steps[1..][j] == Ok(FirstSale(steps[1..]).value)
        && forall k :: 0 <= k < j ==> steps[1..][k] == Ok(None);
      assert steps[j + 1] == Ok(FirstSale(steps).value);
      forall k | 0 <= k < j + 1
        ensures steps[k] == Ok(None)
      {
        if k > 0 {
          assert steps[k] == steps[1..][k - 1];
        }
      }
    } else {
      assert steps[0] == Ok(FirstSale(steps).value);
    }
  }

  /** What `get_car_info` reports for a car, its model and its first sale. */
  function Info(c: Car, name: string, brand: string, sale: Option<(int, string)>): CarFullInfo {
    match sale
    case None => CarFullInfo(c.vin, name, brand, c.price, c.dateStart, c.status, None, None)
    case Some((cost, date)) => CarFullInfo(c.vin, name, brand, c.price, c.dateStart, c.status, Some(date), Some(cost))
  }

  /**
    A sold car whose model is known is reported with the cost and date of
    the first sale of its VIN in the sales file, or with neither when there
    is none.
   */
  lemma SoldCarInfo(f: Files, vin: string, c: Car, name: string, brand: string, ss: seq<Sale>)
    requires LookupCar(f, vin) == Ok(Some(c)) && c.status == Sold
    requires LookupModel(f, c.model) == Ok(Some((name, brand)))
    requires forall i :: 0 <= i < |ss| ==> Storable(SaleFields(ss[i]))
    requires f.sales == Concat(SaleLines(ss))
    ensures GetCarInfoOp(f, vin) == Ok(Some(Info(c, name, brand, FirstSaleOf(ss, vin))))
  {
    StoredFirstSale(ss, vin);
    SoldCarScan(f, vin, c, name, brand);
  }

  /** A sold car whose model is known is joined with what the scan of the sales file finds. */
  lemma SoldCarScan(f: Files, vin: string, c: Car, name: string, brand: string)
    requires LookupCar(f, vin) == Ok(Some(c)) && c.status == Sold
    requires LookupModel(f, c.model) == Ok(Some((name, brand)))
    requires FirstSale(SaleSteps(Lines(f.sales), vin)).Ok?
    ensures GetCarInfoOp(f, vin) == Ok(Some(Info(c, name, brand, FirstSale(SaleSteps(Lines(f.sales), vin)).value)))
  {
  }

  /**
    `get_car_info` returns `None` for a VIN that is not indexed and for a
    car line, read at the VIN's offset, with fewer than 5 fields.
   */
  lemma CarInfoNoCar(f: Files, vin: string)
    requires ParseIndex(f.carIndex).Ok?
    ensures var idx := ParseIndex(f.carIndex).value;
      && (vin !in idx ==> GetCarInfoOp(f, vin) == Ok(None))
      && (vin in idx && idx[vin] >= 0 && |Fields(ReadLineAt(f.cars, Offset(idx[vin])))| < 5 ==>
            GetCarInfoOp(f, vin) == Ok(None))
  {
  }

  /**
    For a car that reads back, `get_car_info` returns `None` when its model
    id is not indexed and when the model line, read at the id's offset, has
    fewer than 3 fields.
   */
  lemma CarInfoNoModel(f: Files, vin: string, c: Car)
    requires LookupCar(f, vin) == Ok(Some(c)) && ParseIndex(f.modelIndex).Ok?
    ensures var idx := ParseIndex(f.modelIndex).value;
      var key := IntToString(c.model);
      && (key !in idx ==> GetCarInfoOp(f, vin) == Ok(None))
      && (key in idx && idx[key] >= 0 && |Fields(ReadLineAt(f.models, Offset(idx[key])))| < 3 ==>
            GetCarInfoOp(f, vin) == Ok(None))
  {
  }

  /** Looking up a model reads only the model file and its index. */
  lemma ModelLookupFrame(f: Files, g: Files, model: int)
    requires g.models == f.models && g.modelIndex == f.modelIndex
    ensures LookupModel(g, model) == LookupModel(f, model)
  {
  }

  /** A car that is not sold and whose model is known is reported with no sale. */
  lemma UnsoldCarInfo(f: Files, vin: string, c: Car, name: string, brand: string)
    requires LookupCar(f, vin) == Ok(Some(c)) && c.status != Sold
    requires LookupModel(f, c.model) == Ok(Some((name, brand)))
    ensures GetCarInfoOp(f, vin) == Ok(Some(Info(c, name, brand, None)))
  {
  }

  /**
    After a model and then an available car of that model are added under
    new keys, `get_car_info` reports the car joined with the model, with no
    sale.
   */
  lemma AddedCarInfo(f: Files, m: Model, c: Car)
    requires Synced(f.models, f.modelIndex, 3) && Storable(ModelFields(m))
    requires Synced(f.cars, f.carIndex, 5) && Storable(CarFields(c))
    requires IntToString(m.id) !in ParseIndex(f.modelIndex).value
    requires c.vin !in ParseIndex(f.carIndex).value
    requires c.model == m.id && c.status == Available
    ensures var g := AddCarOp(AddModelOp(f, m).files, c).files;
      GetCarInfoOp(g, c.vin) == Ok(Some(CarFullInfo(c.vin, m.name, m.brand, c.price, c.dateStart, Available, None, None)))
  {
    var g1 := AddModelOp(f, m).files;
    assert LookupModel(g1, m.id) == Ok(Some((m.name, m.brand))) && g1.cars == f.cars && g1.carIndex == f.carIndex by {
      AddModelSynced(f, m);
    }
    var g := AddCarOp(g1, c).files;
    assert LookupCar(g, c.vin) == Ok(Some(c)) && g.models == g1.models && g.modelIndex == g1.modelIndex by {
      AddCarSynced(g1, c);
    }
    ModelLookupFrame(g1, g, m.id);
    UnsoldCarInfo(g, c.vin, c, m.name, m.brand);
  }

  /**
    After `update_vin` renames an indexed car to a new VIN, the old VIN is
    not found any more, and the new VIN reads back the car the old one read,
    under its new VIN; the sales file is not touched, so a sold car's sales
    still name the old VIN.
   */
  lemma RenameLaw(f: Files, oldVin: string, newVin: string)
    requires Synced(f.cars, f.carIndex, 5)
    requires var idx := ParseIndex(f.carIndex).value; oldVin in idx && newVin !in idx
    requires Storable(Renamed(f.cars, f.carIndex, oldVin, newVin))
    ensures var g := UpdateVinOp(f, oldVin, newVin).files;
      && g.sales == f.sales && g.models == f.models
      && LookupCar(g, oldVin) == Ok(None)
      && GetCarInfoOp(g, oldVin) == Ok(None)
      && LookupCar(g, newVin) ==
           match LookupCar(f, oldVin)
           case Ok(Some(c)) => Ok(Some(c.(vin := newVin)))
           case other => other
  {
    var idx := ParseIndex(f.carIndex).value;
    var n := idx[oldVin];
    var fs := Renamed(f.cars, f.carIndex, oldVin, newVin);
    var g := UpdateVinOp(f, oldVin, newVin).files;
    UpdateVinOutcomes(f, oldVin, newVin);
    RenameEffect(f, oldVin, newVin);
    assert ParseIndex(g.carIndex) == Ok((idx - {oldVin})[newVin := n]);
    assert LookupCar(g, oldVin) == Ok(None);
    assert Lines(g.cars)[n] == Pad(Serialize(fs));
    RenamedRead(f, g, oldVin, newVin, n, fs);
  }

  /**
    `get_car_info` across a rename, for an indexed car that is not sold and
    whose model is known: the old VIN reported the car with no sale, and the
    new VIN reports the same car, under its new VIN, with no sale.
   */
  lemma RenameUnsoldInfo(f: Files, oldVin: string, newVin: string, c: Car, name: string, brand: string)
    requires Synced(f.cars, f.carIndex, 5)
    requires var idx := ParseIndex(f.carIndex).value; oldVin in idx && newVin !in idx
    requires Storable(Renamed(f.cars, f.carIndex, oldVin, newVin))
    requires LookupCar(f, oldVin) == Ok(Some(c)) && c.status != Sold
    requires LookupModel(f, c.model) == Ok(Some((name, brand)))
    ensures GetCarInfoOp(f, oldVin) == Ok(Some(Info(c, name, brand, None)))
    ensures var g := UpdateVinOp(f, oldVin, newVin).files;
      GetCarInfoOp(g, newVin) == Ok(Some(Info(c.(vin := newVin), name, brand, None)))
  {
    var g := UpdateVinOp(f, oldVin, newVin).files;
    UnsoldCarInfo(f, oldVin, c, name, brand);
    RenameLaw(f, oldVin, newVin);
    UpdateVinOutcomes(f, oldVin, newVin);
    ModelLookupFrame(f, g, c.model);
    UnsoldCarInfo(g, newVin, c.(vin := newVin), name, brand);
  }

  /**
    `get_car_info` across a rename, for an indexed sold car whose model is
    known, over a sales file of stored sales: the old VIN reported the first
    sale naming the old VIN, while the new VIN reports the first sale naming
    the new VIN, because the sales file is not rewritten; so when no sale
    names the new VIN the renamed car is reported sold with no sale at all.
   */
  lemma RenameSoldInfo(f: Files, oldVin: string, newVin: string, c: Car, name: string, brand: string, ss: seq<Sale>)
    requires Synced(f.cars, f.carIndex, 5)
    requires var idx := ParseIndex(f.carIndex).value; oldVin in idx && newVin !in idx
    requires Storable(Renamed(f.cars, f.carIndex, oldVin, newVin))
    requires LookupCar(f, oldVin) == Ok(Some(c)) && c.status == Sold
    requires LookupModel(f, c.model) == Ok(Some((name, brand)))
    requires forall i :: 0 <= i < |ss| ==> Storable(SaleFields(ss[i]))
    requires f.sales == Concat(SaleLines(ss))
    ensures GetCarInfoOp(f, oldVin) == Ok(Some(Info(c, name, brand, FirstSaleOf(ss, oldVin))))
    ensures var g := UpdateVinOp(f, oldVin, newVin).files;
      && GetCarInfoOp(g, newVin) == Ok(Some(Info(c.(vin := newVin), name, brand, FirstSaleOf(ss, newVin))))
      && ((forall j :: 0 <= j < |ss| ==> ss[j].carVin != newVin) ==>
            GetCarInfoOp(g, newVin) == Ok(Some(Info(c.(vin := newVin), name, brand, None))))
  {
    var g := UpdateVinOp(f, oldVin, newVin).files;
    SoldCarInfo(f, oldVin, c, name, brand, ss);
    RenameLaw(f, oldVin, newVin);
    UpdateVinOutcomes(f, oldVin, newVin);
    ModelLookupFrame(f, g, c.model);
    SoldCarInfo(g, newVin, c.(vin := newVin), name, brand, ss);
    FirstSaleOfNone(ss, newVin);
  }

  /** The renamed line is read back at the same line number, and parses as the old one with field 0 replaced. */
  lemma RenamedRead(f: Files, g: Files, oldVin: string, newVin: string, n: int, fs: seq<string>)
    requires Synced(f.cars, f.carIndex, 5) && WellFormed(g.cars)
    requires oldVin in ParseIndex(f.carIndex).value && ParseIndex(f.carIndex).value[oldVin] == n
    requires ParseIndex(g.carIndex) == Ok((ParseIndex(f.carIndex).value - {oldVin})[newVin := n])
    requires fs == Renamed(f.cars, f.carIndex, oldVin, newVin) && Storable(fs)
    requires |Lines(g.cars)| == |Lines(f.cars)| && Lines(g.cars)[n] == Pad(Serialize(fs))
    ensures LookupCar(g, newVin) ==
      match LookupCar(f, oldVin)
      case Ok(Some(c)) => Ok(Some(c.(vin := newVin)))
      case other => other
  {
    var prior := FieldsOf(Lines(f.cars))[n];
    IndexedAt(FieldsOf(Lines(f.cars)), ParseIndex(f.carIndex).value, 5, oldVin);
    assert |prior| >= 5;
    ReadIndexed(f.cars, n);
    assert Fields(Lines(f.cars)[n]) == prior;
    ReadIndexed(g.cars, n);
    RecordRoundTrip(fs);
    CarOfRenamedFields(prior, newVin);
  }

  // ---------------------------------------------------------------------------
  // The status of a car across sell_car and revert_sale
  // ---------------------------------------------------------------------------

  /** A car line rewritten in place with a new status reads back as the same car with that status. */
  lemma RestatusedRead(f: Files, g: Files, vin: string, status: CarStatus, c: Car)
    requires Synced(f.cars, f.carIndex, 5) && WellFormed(g.cars) && g.carIndex == f.carIndex
    requires vin in ParseIndex(f.carIndex).value
    requires Storable(StatusRewritten(f.cars, f.carIndex, vin, status))
    requires Lines(g.cars) == Lines(f.cars)[ParseIndex(f.carIndex).value[vin] :=
      Pad(Serialize(StatusRewritten(f.cars, f.carIndex, vin, status)))]
    requires LookupCar(f, vin) == Ok(Some(c))
    ensures LookupCar(g, vin) == Ok(Some(c.(status := status)))
  {
    var n := ParseIndex(f.carIndex).value[vin];
    var prior := FieldsOf(Lines(f.cars))[n];
    var fs := StatusRewritten(f.cars, f.carIndex, vin, status);
    IndexedAt(FieldsOf(Lines(f.cars)), ParseIndex(f.carIndex).value, 5, vin);
    assert |prior| >= 5;
    ReadIndexed(f.cars, n);
    assert Fields(Lines(f.cars)[n]) == prior;
    ReadIndexed(g.cars, n);
    RecordRoundTrip(fs);
    CarOfRestatusedFields(prior, status);
  }

  /** Appending a stored sale appends its line to the sales file. */
  lemma SaleLinesAppend(ss: seq<Sale>, s: Sale)
    ensures Concat(SaleLines(ss + [s])) == Concat(SaleLines(ss)) + Pad(Serialize(SaleFields(s)))
  {
    var line := Pad(Serialize(SaleFields(s)));
    assert SaleLines(ss + [s]) == SaleLines(ss) + [line];
    ConcatAppend(SaleLines(ss), line);
  }

  /** `sell_car` of an indexed car with a non-empty VIN: the car reads back sold, the sale is appended, the models are untouched. */
  lemma SoldCarReads(f: Files, s: Sale, c: Car)
    requires Synced(f.sales, f.salesIndex, 4) && Synced(f.cars, f.carIndex, 5)
    requires Storable(SaleFields(s)) && s.salesNumber !in ParseIndex(f.salesIndex).value
    requires s.carVin in ParseIndex(f.carIndex).value && s.carVin != ""
    requires Storable(StatusRewritten(f.cars, f.carIndex, s.carVin, Sold))
    requires LookupCar(f, s.carVin) == Ok(Some(c))
    ensures var g := SellCarOp(f, s).files;
      && LookupCar(g, s.carVin) == Ok(Some(c.(status := Sold)))
      && g.sales == f.sales + Pad(Serialize(SaleFields(s)))
      && g.models == f.models && g.modelIndex == f.modelIndex
  {
    SellCarSynced(f, s);
    RestatusedRead(f, SellCarOp(f, s).files, s.carVin, Sold, c);
  }

  /**
    A sold car whose model is known, over a sales file of stored sales
    ending in `s`: it is reported with the first sale of its VIN, which is
    `s` when no earlier sale names the VIN.
   */
  lemma LatestSaleInfo(g: Files, vin: string, c: Car, name: string, brand: string, ss: seq<Sale>, s: Sale)
    requires LookupCar(g, vin) == Ok(Some(c)) && c.status == Sold
    requires LookupModel(g, c.model) == Ok(Some((name, brand)))
    requires forall i :: 0 <= i < |ss| ==> Storable(SaleFields(ss[i]))
    requires Storable(SaleFields(s)) && s.carVin == vin
    requires g.sales == Concat(SaleLines(ss + [s]))
    ensures GetCarInfoOp(g, vin) == Ok(Some(Info(c, name, brand, FirstSaleOf(ss + [s], vin))))
    ensures (forall j :: 0 <= j < |ss| ==> ss[j].carVin != vin) ==>
      GetCarInfoOp(g, vin) == Ok(Some(Info(c, name, brand, Some((s.cost, s.salesDate)))))
  {
    StorableAppend(ss, s);
    SoldCarInfo(g, vin, c, name, brand, ss + [s]);
    FirstSaleOfLast(ss, s);
  }

  /** Sales that can be stored, with one more that can. */
  lemma StorableAppend(ss: seq<Sale>, s: Sale)
    requires forall i :: 0 <= i < |ss| ==> Storable(SaleFields(ss[i]))
    requires Storable(SaleFields(s))
    ensures forall i :: 0 <= i < |ss + [s]| ==> Storable(SaleFields((ss + [s])[i]))
  {
  }

  /** A sale appended after sales of other VINs is the first sale of its VIN. */
  lemma FirstSaleOfLast(ss: seq<Sale>, s: Sale)
    ensures (forall j :: 0 <= j < |ss| ==> ss[j].carVin != s.carVin) ==>
      FirstSaleOf(ss + [s], s.carVin) == Some((s.cost, s.salesDate))
  {
    if forall j :: 0 <= j < |ss| ==> ss[j].carVin != s.carVin {
      FirstSaleOfFound(ss + [s], s.carVin, |ss|);
    }
  }

  /**
    After `sell_car` records a sale of an indexed car with a non-empty VIN,
    the car reads back sold and otherwise unchanged; over a sales file of
    stored sales, `get_car_info` then reports the first sale of its VIN,
    which is the new sale when no earlier sale names the VIN.
   */
  lemma SellThenInfo(f: Files, s: Sale, c: Car, name: string, brand: string, ss: seq<Sale>)
    requires Synced(f.sales, f.salesIndex, 4) && Synced(f.cars, f.carIndex, 5)
    requires Storable(SaleFields(s)) && s.salesNumber !in ParseIndex(f.salesIndex).value
    requires s.carVin in ParseIndex(f.carIndex).value && s.carVin != ""
    requires Storable(StatusRewritten(f.cars, f.carIndex, s.carVin, Sold))
    requires LookupCar(f, s.carVin) == Ok(Some(c))
    requires LookupModel(f, c.model) == Ok(Some((name, brand)))
    requires forall i :: 0 <= i < |ss| ==> Storable(SaleFields(ss[i]))
    requires f.sales == Concat(SaleLines(ss))
    ensures var g := SellCarOp(f, s).files;
      && LookupCar(g, s.carVin) == Ok(Some(c.(status := Sold)))
      && g.sales == Concat(SaleLines(ss + [s]))
      && GetCarInfoOp(g, s.carVin) == Ok(Some(Info(c.(status := Sold), name, brand, FirstSaleOf(ss + [s], s.carVin))))
      && ((forall j :: 0 <= j < |ss| ==> ss[j].carVin != s.carVin) ==>
            GetCarInfoOp(g, s.carVin) == Ok(Some(Info(c.(status := Sold), name, brand, Some((s.cost, s.salesDate))))))
  {
    var g := SellCarOp(f, s).files;
    SoldCarReads(f, s, c);
    SaleLinesAppend(ss, s);
    ModelLookupFrame(f, g, c.model);
    LatestSaleInfo(g, s.carVin, c.(status := Sold), name, brand, ss, s);
  }

  /**
    After `revert_sale` removes a sale whose VIN is an indexed car, the car
    reads back available and otherwise unchanged, and `get_car_info`
    reports it with no sale.
   */
  lemma RevertThenInfo(f: Files, salesNumber: string, c: Car, name: string, brand: string)
    requires Synced(f.sales, f.salesIndex, 4) && Synced(f.cars, f.carIndex, 5)
    requires salesNumber in ParseIndex(f.salesIndex).value
    requires SoldVin(f, salesNumber) in ParseIndex(f.carIndex).value
    requires Storable(StatusRewritten(f.cars, f.carIndex, SoldVin(f, salesNumber), Available))
    requires LookupCar(f, SoldVin(f, salesNumber)) == Ok(Some(c))
    requires LookupModel(f, c.model) == Ok(Some((name, brand)))
    ensures var g := RevertSaleOp(f, salesNumber).files;
      var vin := SoldVin(f, salesNumber);
      && LookupCar(g, vin) == Ok(Some(c.(status := Available)))
      && GetCarInfoOp(g, vin) == Ok(Some(Info(c.(status := Available), name, brand, None)))
  {
    var g := RevertSaleOp(f, salesNumber).files;
    var vin := SoldVin(f, salesNumber);
    RevertSaleSales(f, salesNumber);
    RevertSaleCars(f, salesNumber);
    RestatusedRead(f, g, vin, Available, c);
    ModelLookupFrame(f, g, c.model);
    UnsoldCarInfo(g, vin, c.(status := Available), name, brand);
  }
}

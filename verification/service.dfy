/**
  `CarService`: the six files as fields, and each operation written step by
  step as the service performs it (load the index, append or seek and
  overwrite, save the index). Every method is proved to do exactly what
  its function in `Store` says.
 */
module Service {
  import opened Results
  import opened PyStr
  import opened FixedWidth
  import opened IndexTable
  import opened Records
  import opened Ranking
  import opened Store
  import Consistency

  /** The sales scan of `get_car_info`: stops at the first line whose VIN field matches. */
  method ScanSales(ls: seq<string>, vin: string) returns (r: Result<Option<(int, string)>>)
    ensures r == FirstSale(SaleSteps(ls, vin))
  {
    ghost var steps := SaleSteps(ls, vin);
    var i := 0;
    while i < |ls|
      invariant 0 <= i <= |ls|
      invariant FirstSale(steps[i..]) == FirstSale(steps)
    {
      assert steps[i..][1..] == steps[i + 1..];
      var line := ls[i];
      if Strip(line) != "" {
        var fields := Fields(line);
        if |fields| < 2 {
          return Err(MissingField);
        }
        if fields[1] == vin {
          if |fields| < 3 {
            return Err(MissingField);
          }
          var cost := ParseInt(fields[2]);
          if cost.None? {
            return Err(BadNumber);
          }
          if |fields| < 4 {
            return Err(MissingField);
          }
          return Ok(Some((cost.value, fields[3])));
        }
      }
      i := i + 1;
    }
    assert steps[i..] == [];
    return Ok(None);
  }

  /** The rewrite of `revert_sale`: the file is truncated and every line written back in order. */
  method WriteLines(ls: seq<string>) returns (t: string)
    ensures t == Concat(ls)
  {
    t := "";
    var i := 0;
    while i < |ls|
      invariant 0 <= i <= |ls|
      invariant t == Concat(ls[..i])
    {
      assert ls[..i + 1] == ls[..i] + [ls[i]];
      ConcatAppend(ls[..i], ls[i]);
      t := t + ls[i];
      i := i + 1;
    }
    assert ls[..i] == ls;
  }

  /** The `new_sales_index` loop of `revert_sale`. */
  method RebuildIndex(ls: seq<string>) returns (index: map<string, int>)
    ensures index == Reindex(LineKeys(ls))
  {
    ghost var ks := LineKeys(ls);
    index := map[];
    var i := 0;
    while i < |ls|
      invariant 0 <= i <= |ls|
      invariant index == Reindex(ks[..i])
    {
      ReindexStep(ks, i);
      var line := ls[i];
      if Strip(line) != "" {
        var fields := Fields(line);
        assert ks[i] == Some(fields[0]);
        index := index[fields[0] := i];
      } else {
        assert ks[i] == None;
      }
      i := i + 1;
    }
    assert ks[..i] == ks;
  }

  /** The `car_mapping` loop of `top_models_by_sales`. */
  method LoadCarMapping(ls: seq<string>) returns (r: Result<map<string, CarRef>>)
    ensures r == CarMappingFrom(CarEntries(ls), map[])
  {
    ghost var es := CarEntries(ls);
    var mapping: map<string, CarRef> := map[];
    var i := 0;
    while i < |ls|
      invariant 0 <= i <= |ls|
      invariant CarMappingFrom(es[i..], mapping) == CarMappingFrom(es, map[])
    {
      assert es[i..][1..] == es[i + 1..];
      var line := ls[i];
      if Strip(line) != "" {
        var fields := Fields(line);
        if |fields| >= 5 {
          var model := ParseInt(fields[1]);
          if model.None? {
            return Err(BadNumber);
          }
          var price := ParseInt(fields[2]);
          if price.None? {
            return Err(BadNumber);
          }
          mapping := mapping[fields[0] := CarRef(model.value, price.value)];
        }
      }
      i := i + 1;
    }
    assert es[i..] == [];
    return Ok(mapping);
  }

  /** The sales loop of `top_models_by_sales`: `sales_count` and `max_price` per model. */
  method CountSales(ls: seq<string>, mapping: map<string, CarRef>) returns (r: Result<seq<Tally>>)
    ensures r == match SoldFrom(SaleVins(ls), mapping, []) case Err(e) => Err(e) case Ok(refs) => Ok(TallyOf(refs))
  {
    ghost var vs := SaleVins(ls);
    var tallies: seq<Tally> := [];
    ghost var refs: seq<CarRef> := [];
    var i := 0;
    while i < |ls|
      invariant 0 <= i <= |ls|
      invariant SoldFrom(vs[i..], mapping, refs) == SoldFrom(vs, mapping, [])
      invariant tallies == TallyOf(refs)
    {
      assert vs[i..][1..] == vs[i + 1..];
      var line := ls[i];
      if Strip(line) != "" {
        var fields := Fields(line);
        if |fields| < 2 {
          return Err(MissingField);
        }
        var vin := fields[1];
        if vin in mapping {
          var ref := mapping[vin];
          assert (refs + [ref])[..|refs|] == refs;
          tallies := Bump(tallies, ref.model, ref.price);
          refs := refs + [ref];
        }
      }
      i := i + 1;
    }
    assert vs[i..] == [];
    return Ok(tallies);
  }

  /** The result loop of `top_models_by_sales`. */
  method CollectStats(top: seq<Tally>, modelIndex: map<string, int>, models: string) returns (r: Result<seq<ModelSaleStats>>)
    ensures r == Gather(StatSteps(top, modelIndex, models), [])
  {
    ghost var steps := StatSteps(top, modelIndex, models);
    var result: seq<ModelSaleStats> := [];
    var i := 0;
    while i < |top|
      invariant 0 <= i <= |top|
      invariant Gather(steps[i..], result) == Gather(steps, [])
    {
      assert steps[i..][1..] == steps[i + 1..];
      var key := IntToString(top[i].model);
      if key in modelIndex {
        var n := modelIndex[key];
        if n < 0 {
          return Err(NegativeSeek);
        }
        var fields := Fields(ReadLineAt(models, Offset(n)));
        if |fields| >= 3 {
          result := result + [ModelSaleStats(fields[1], fields[2], top[i].count)];
        }
      }
      i := i + 1;
    }
    assert steps[i..] == [];
    return Ok(result);
  }

  class CarService {
    var models: string
    var modelIndex: string
    var cars: string
    var carIndex: string
    var sales: string
    var salesIndex: string

    /** The six files as they stand. */
    function State(): Files
      reads this
    {
      Files(models, modelIndex, cars, carIndex, sales, salesIndex)
    }

    /** A fresh store: all six files exist and are empty, and each index agrees with its file. */
    constructor ()
      ensures State() == Files("", "", "", "", "", "")
      ensures Consistency.Synced(models, modelIndex, 3) && Consistency.Synced(cars, carIndex, 5)
      ensures Consistency.Synced(sales, salesIndex, 4)
    {
      models, modelIndex := "", "";
      cars, carIndex := "", "";
      sales, salesIndex := "", "";
    }

    /** `add_model` */
    method AddModel(model: Model) returns (r: Result<Model>)
      modifies this
      ensures Step(State(), r) == AddModelOp(old(State()), model)
    {
      var loaded := LoadIndex(modelIndex);
      if loaded.Err? {
        return Err(loaded.error);
      }
      var index := loaded.value;
      var key := IntToString(model.id);
      if key in index {
        return Ok(model);
      }
      var lineNumber := |index|;
      models := models + Pad(Serialize(ModelFields(model)));
      index := index[key := lineNumber];
      modelIndex := SaveIndex(index);
      return Ok(model);
    }

    /** `add_car` */
    method AddCar(car: Car) returns (r: Result<Car>)
      modifies this
      ensures Step(State(), r) == AddCarOp(old(State()), car)
    {
      var loaded := LoadIndex(carIndex);
      if loaded.Err? {
        return Err(loaded.error);
      }
      var index := loaded.value;
      if car.vin in index {
        return Ok(car);
      }
      var lineNumber := |index|;
      cars := cars + Pad(Serialize(CarFields(car)));
      index := index[car.vin := lineNumber];
      carIndex := SaveIndex(index);
      return Ok(car);
    }

    /** The status rewrite `sell_car` and `revert_sale` end with; returns the new car file. */
    method RewriteStatus(vin: string, status: CarStatus, vinRequired: bool) returns (r: Result<string>)
      ensures r == SetStatus(cars, carIndex, vin, status, vinRequired)
    {
      var loaded := LoadIndex(carIndex);
      if loaded.Err? {
        return Err(loaded.error);
      }
      var index := loaded.value;
      if vin !in index {
        return Err(UnknownCar);
      }
      var n := index[vin];
      if n < 0 {
        return Err(NegativeSeek);
      }
      var data := Fields(ReadLineAt(cars, Offset(n)));
      if |data| < 5 || (vinRequired && data[0] == "") {
        return Err(MalformedCar);
      }
      data := data[4 := StatusValue(status)];
      return Ok(WriteAt(cars, Offset(n), Pad(Serialize(data))));
    }

    /** `sell_car` */
    method SellCar(sale: Sale) returns (r: Outcome)
      modifies this
      ensures Step(State(), r) == SellCarOp(old(State()), sale)
    {
      var loaded := LoadIndex(salesIndex);
      if loaded.Err? {
        return Fail(loaded.error);
      }
      var index := loaded.value;
      var lineNumber := |index|;
      var newSales := sales + Pad(Serialize(SaleFields(sale)));
      index := index[sale.salesNumber := lineNumber];
      var newIndexText := SaveIndex(index);
      sales, salesIndex := newSales, newIndexText;
      assert State() == old(State()).(sales := newSales, salesIndex := newIndexText);

      var rewritten := RewriteStatus(sale.carVin, Sold, true);
      if rewritten.Err? {
        return Fail(rewritten.error);
      }
      cars := rewritten.value;
      return Pass;
    }

    /** `get_cars` */
    method GetCars(status: CarStatus) returns (r: Result<seq<Car>>)
      ensures r == GetCarsOp(State(), status)
    {
      var ls := Lines(cars);
      ghost var steps := CarSteps(ls, status);
      var found: seq<Car> := [];
      var i := 0;
      while i < |ls|
        invariant 0 <= i <= |ls|
        invariant Gather(steps[i..], found) == GetCarsOp(State(), status)
      {
        assert steps[i..][1..] == steps[i + 1..];
        var line := ls[i];
        if Strip(line) != "" {
          var data := Fields(line);
          if |data| >= 5 && data[4] == StatusValue(status) {
            var car := CarOfFields(data);
            if car.Err? {
              return Err(car.error);
            }
            found := found + [car.value];
          }
        }
        i := i + 1;
      }
      assert steps[i..] == [];
      return Ok(found);
    }

    /** The car half of `get_car_info`. */
    method ReadCar(vin: string) returns (r: Result<Option<Car>>)
      ensures r == LookupCar(State(), vin)
    {
      var loaded := LoadIndex(carIndex);
      if loaded.Err? {
        return Err(loaded.error);
      }
      var index := loaded.value;
      if vin !in index {
        return Ok(None);
      }
      var n := index[vin];
      if n < 0 {
        return Err(NegativeSeek);
      }
      var data := Fields(ReadLineAt(cars, Offset(n)));
      if |data| < 5 {
        return Ok(None);
      }
      var car := CarOfFields(data);
      if car.Err? {
        return Err(car.error);
      }
      return Ok(Some(car.value));
    }

    /** The model half of `get_car_info`. */
    method ReadModel(model: int) returns (r: Result<Option<(string, string)>>)
      ensures r == LookupModel(State(), model)
    {
      var loaded := LoadIndex(modelIndex);
      if loaded.Err? {
        return Err(loaded.error);
      }
      var index := loaded.value;
      var key := IntToString(model);
      if key !in index {
        return Ok(None);
      }
      var n := index[key];
      if n < 0 {
        return Err(NegativeSeek);
      }
      var data := Fields(ReadLineAt(models, Offset(n)));
      if |data| < 3 {
        return Ok(None);
      }
      return Ok(Some((data[1], data[2])));
    }

    /** `get_car_info` */
    method GetCarInfo(vin: string) returns (r: Result<Option<CarFullInfo>>)
      ensures r == GetCarInfoOp(State(), vin)
    {
      var car := ReadCar(vin);
      if car.Err? {
        return Err(car.error);
      }
      if car.value.None? {
        return Ok(None);
      }
      var c := car.value.value;
      var model := ReadModel(c.model);
      if model.Err? {
        return Err(model.error);
      }
      if model.value.None? {
        return Ok(None);
      }
      var (name, brand) := model.value.value;
      var salesDate: Option<string> := None;
      var salesCost: Option<int> := None;
      if c.status == Sold {
        var sale := ScanSales(Lines(sales), vin);
        if sale.Err? {
          return Err(sale.error);
        }
        if sale.value.Some? {
          salesCost := Some(sale.value.value.0);
          salesDate := Some(sale.value.value.1);
        }
      }
      return Ok(Some(CarFullInfo(c.vin, name, brand, c.price, c.dateStart, c.status, salesDate, salesCost)));
    }

    /** `update_vin` */
    method UpdateVin(oldVin: string, newVin: string) returns (r: Outcome)
      modifies this
      ensures Step(State(), r) == UpdateVinOp(old(State()), oldVin, newVin)
    {
      var loaded := LoadIndex(carIndex);
      if loaded.Err? {
        return Fail(loaded.error);
      }
      var index := loaded.value;
      if oldVin !in index {
        return Pass;
      }
      if newVin in index {
        return Fail(VinTaken);
      }
      var n := index[oldVin];
      if n < 0 {
        return Fail(NegativeSeek);
      }
      var line := ReadLineAt(cars, Offset(n));
      if line == "" {
        return Fail(CarLineMissing);
      }
      var fields := Fields(line);
      fields := fields[0 := newVin];
      cars := WriteAt(cars, Offset(n), Pad(Serialize(fields)));
      index := index - {oldVin};
      index := index[newVin := n];
      carIndex := SaveIndex(index);
      return Pass;
    }

    /** The first half of `revert_sale`: the surviving sales lines and the sold VIN. */
    method TakeSale(salesNumber: string) returns (r: Result<(seq<string>, string)>)
      ensures r == RemoveSale(sales, salesIndex, salesNumber)
    {
      var loaded := LoadIndex(salesIndex);
      if loaded.Err? {
        return Err(loaded.error);
      }
      var index := loaded.value;
      if salesNumber !in index {
        return Err(UnknownSale);
      }
      var salesLines := Lines(sales);
      var at := PyIndex(|salesLines|, index[salesNumber]);
      if at.None? {
        return Err(LineOutOfRange);
      }
      var i := at.value;
      var saleFields := Fields(salesLines[i]);
      if |saleFields| < 2 {
        return Err(MissingField);
      }
      return Ok((salesLines[..i] + salesLines[i + 1..], saleFields[1]));
    }

    /** The sales half of `revert_sale`: write the remaining lines back and re-index them. */
    method RewriteSales(salesLines: seq<string>)
      modifies this
      ensures State() == old(State()).(sales := Concat(salesLines), salesIndex := IndexText(Reindex(LineKeys(salesLines))))
    {
      var newSales := WriteLines(salesLines);
      var newIndex := RebuildIndex(salesLines);
      var newIndexText := SaveIndex(newIndex);
      sales, salesIndex := newSales, newIndexText;
    }

    /** `revert_sale` */
    method RevertSale(salesNumber: string) returns (r: Outcome)
      modifies this
      ensures Step(State(), r) == RevertSaleOp(old(State()), salesNumber)
    {
      var taken := TakeSale(salesNumber);
      if taken.Err? {
        return Fail(taken.error);
      }
      var (salesLines, carVin) := taken.value;
      RewriteSales(salesLines);

      var rewritten := RewriteStatus(carVin, Available, false);
      if rewritten.Err? {
        return Fail(rewritten.error);
      }
      cars := rewritten.value;
      return Pass;
    }

    /** `top_models_by_sales` */
    method TopModelsBySales() returns (r: Result<seq<ModelSaleStats>>)
      ensures r == TopModelsOp(State())
    {
      var mapping := LoadCarMapping(Lines(cars));
      if mapping.Err? {
        return Err(mapping.error);
      }
      var tallies := CountSales(Lines(sales), mapping.value);
      if tallies.Err? {
        return Err(tallies.error);
      }
      var top := TopThree(Rank(tallies.value));
      var loaded := LoadIndex(modelIndex);
      if loaded.Err? {
        return Err(loaded.error);
      }
      r := CollectStats(top, loaded.value, models);
    }
  }
}

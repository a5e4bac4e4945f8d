/**
  What each `CarService` operation does to the six files and what it
  returns, as functions of the files before the call.

  An operation that raises part way keeps what it already wrote: its
  `Step` holds the files at the moment of the exception and `Fail`/`Err`.
 */
module Store {
  import opened Results
  import opened PyStr
  import opened FixedWidth
  import opened IndexTable
  import opened Records
  import opened Ranking

  /** The contents of the six files. */
  datatype Files = Files(
    models: string, modelIndex: string,
    cars: string, carIndex: string,
    sales: string, salesIndex: string)

  /** The files after an operation, and what it returned or raised. */
  datatype Step<T> = Step(files: Files, out: T)

  /** `seek(n * (LINE_LENGTH + 1)); readline()`; seeking to a negative offset raises. */
  function ReadRecord(t: string, n: int): Result<string> {
    if n < 0 then Err(NegativeSeek) else Ok(ReadLineAt(t, Offset(n)))
  }

  /** `seek(n * (LINE_LENGTH + 1)); write(";".join(fs).ljust(LINE_LENGTH) + "\n")` */
  function WriteRecord(t: string, n: nat, fs: seq<string>): string {
    WriteAt(t, Offset(n), Pad(Serialize(fs)))
  }

  // ---------------------------------------------------------------------------
  // add_model, add_car
  // ---------------------------------------------------------------------------

  /**
    The shared add path: nothing changes when `key` is indexed; otherwise
    the record is appended and indexed under `len(index)`. Returns the new
    data and index texts.
   */
  function AddRecord(data: string, indexText: string, key: string, fs: seq<string>): Result<(string, string)> {
    match ParseIndex(indexText)
    case Err(e) => Err(e)
    case Ok(index) =>
      if key in index then Ok((data, indexText))
      else Ok((data + Pad(Serialize(fs)), IndexText(index[key := |index|])))
  }

  /** `add_model`: returns the model it was given, stored or not. */
  function AddModelOp(f: Files, m: Model): Step<Result<Model>> {
    match AddRecord(f.models, f.modelIndex, IntToString(m.id), ModelFields(m))
    case Err(e) => Step(f, Err(e))
    case Ok((data, index)) => Step(f.(models := data, modelIndex := index), Ok(m))
  }

  /** `add_car`: returns the car it was given, stored or not. */
  function AddCarOp(f: Files, c: Car): Step<Result<Car>> {
    match AddRecord(f.cars, f.carIndex, c.vin, CarFields(c))
    case Err(e) => Step(f, Err(e))
    case Ok((data, index)) => Step(f.(cars := data, carIndex := index), Ok(c))
  }

  // ---------------------------------------------------------------------------
  // sell_car
  // ---------------------------------------------------------------------------

  /**
    The status rewrite shared by `sell_car` and `revert_sale`: finds the car
    by VIN and rewrites its line with field 4 set to `status`. A line with
    fewer than 5 fields is refused, and `sell_car` (`vinRequired`) also
    refuses one whose VIN field is empty. Returns the new car file.
   */
  function SetStatus(cars: string, carIndexText: string, vin: string, status: CarStatus, vinRequired: bool): Result<string> {
    match ParseIndex(carIndexText)
    case Err(e) => Err(e)
    case Ok(carIndex) =>
      if vin !in carIndex then Err(UnknownCar)
      else match ReadRecord(cars, carIndex[vin])
        case Err(e) => Err(e)
        case Ok(line) =>
          var data := Fields(line);
          if |data| < 5 || (vinRequired && data[0] == "") then Err(MalformedCar)
          else Ok(WriteRecord(cars, carIndex[vin], data[4 := StatusValue(status)]))
  }

  /**
    `sell_car`: appends and indexes the sale first, then finds the car by
    VIN and rewrites its line with field 4 set to `sold`.
   */
  function SellCarOp(f: Files, s: Sale): Step<Outcome> {
    match ParseIndex(f.salesIndex)
    case Err(e) => Step(f, Fail(e))
    case Ok(salesIndex) =>
      var f1 := f.(sales := f.sales + Pad(Serialize(SaleFields(s))),
                   salesIndex := IndexText(salesIndex[s.salesNumber := |salesIndex|]));
      match SetStatus(f1.cars, f1.carIndex, s.carVin, Sold, true)
      case Err(e) => Step(f1, Fail(e))
      case Ok(cars) => Step(f1.(cars := cars), Pass)
  }

  // ---------------------------------------------------------------------------
  // get_cars
  // ---------------------------------------------------------------------------

  /** One line of the `get_cars` scan: the car it contributes, if its status matches. */
  function CarWithStatus(line: string, status: CarStatus): Result<Option<Car>> {
    if Strip(line) == [] then Ok(None)
    else
      var data := Fields(line);
      if |data| >= 5 && data[4] == StatusValue(status) then
        match CarOfFields(data)
        case Err(e) => Err(e)
        case Ok(c) => Ok(Some(c))
      else Ok(None)
  }

  /** What `get_cars` makes of each line, in file order. */
  function CarSteps(ls: seq<string>, status: CarStatus): (steps: seq<Result<Option<Car>>>)
    ensures |steps| == |ls|
    ensures forall i :: 0 <= i < |ls| ==> steps[i] == CarWithStatus(ls[i], status)
  {
    seq(|ls|, i requires 0 <= i < |ls| => CarWithStatus(ls[i], status))
  }

  /**
    A scan that collects, from `acc` on, what each step yields, in order;
    the first step that raises ends it. `get_cars` and the result loop of
    `top_models_by_sales` are both such scans.
   */
  function Gather<T>(steps: seq<Result<Option<T>>>, acc: seq<T>): Result<seq<T>>
    decreases |steps|
  {
    if steps == [] then Ok(acc)
    else match steps[0]
      case Err(e) => Err(e)
      case Ok(None) => Gather(steps[1..], acc)
      case Ok(Some(x)) => Gather(steps[1..], acc + [x])
  }

  /** `get_cars`: the cars with `status`, in file order. */
  function GetCarsOp(f: Files, status: CarStatus): Result<seq<Car>> {
    Gather(CarSteps(Lines(f.cars), status), [])
  }

  // ---------------------------------------------------------------------------
  // get_car_info
  // ---------------------------------------------------------------------------

  /**
    The car half of `get_car_info`: `None` for a VIN that is not indexed or a
    line with fewer than 5 fields, otherwise the car its line holds.
   */
  function LookupCar(f: Files, vin: string): Result<Option<Car>> {
    match ParseIndex(f.carIndex)
    case Err(e) => Err(e)
    case Ok(carIndex) =>
      if vin !in carIndex then Ok(None)
      else match ReadRecord(f.cars, carIndex[vin])
        case Err(e) => Err(e)
        case Ok(line) =>
          var data := Fields(line);
          if |data| < 5 then Ok(None)
          else match CarOfFields(data)
            case Err(e) => Err(e)
            case Ok(c) => Ok(Some(c))
  }

  /**
    The model half: `None` when the model id is not indexed or its line has
    fewer than 3 fields, otherwise the model's name and brand.
   */
  function LookupModel(f: Files, model: int): Result<Option<(string, string)>> {
    match ParseIndex(f.modelIndex)
    case Err(e) => Err(e)
    case Ok(modelIndex) =>
      var key := IntToString(model);
      if key !in modelIndex then Ok(None)
      else match ReadRecord(f.models, modelIndex[key])
        case Err(e) => Err(e)
        case Ok(line) =>
          var data := Fields(line);
          if |data| < 3 then Ok(None) else Ok(Some((data[1], data[2])))
  }

  /**
    What the sales scan makes of one line: blank lines and lines for another
    VIN are passed over (`None`), a matching line gives its cost and date,
    and a line too short for the field being read raises `IndexError`.
   */
  function SaleStep(line: string, vin: string): Result<Option<(int, string)>> {
    if Strip(line) == [] then Ok(None)
    else
      var fs := Fields(line);
      if |fs| < 2 then Err(MissingField)
      else if fs[1] != vin then Ok(None)
      else if |fs| < 3 then Err(MissingField)
      else match ParseInt(fs[2])
        case None => Err(BadNumber)
        case Some(cost) => if |fs| < 4 then Err(MissingField) else Ok(Some((cost, fs[3])))
  }

  /** What the sales scan makes of each line, in file order. */
  function SaleSteps(ls: seq<string>, vin: string): (steps: seq<Result<Option<(int, string)>>>)
    ensures |steps| == |ls|
    ensures forall i :: 0 <= i < |ls| ==> steps[i] == SaleStep(ls[i], vin)
  {
    seq(|ls|, i requires 0 <= i < |ls| => SaleStep(ls[i], vin))
  }

  /** The sales scan: the first line that matches or fails decides. */
  function FirstSale(steps: seq<Result<Option<(int, string)>>>): Result<Option<(int, string)>>
    decreases |steps|
  {
    if steps == [] then Ok(None)
    else match steps[0]
      case Err(e) => Err(e)
      case Ok(None) => FirstSale(steps[1..])
      case Ok(Some(sale)) => Ok(Some(sale))
  }

  /** `get_car_info`: the car joined with its model and, when sold, its first sale. */
  function GetCarInfoOp(f: Files, vin: string): Result<Option<CarFullInfo>> {
    match LookupCar(f, vin)
    case Err(e) => Err(e)
    case Ok(None) => Ok(None)
    case Ok(Some(c)) =>
      match LookupModel(f, c.model)
      case Err(e) => Err(e)
      case Ok(None) => Ok(None)
      case Ok(Some((name, brand))) =>
        var info := CarFullInfo(c.vin, name, brand, c.price, c.dateStart, c.status, None, None);
        if c.status != Sold then Ok(Some(info))
        else match FirstSale(SaleSteps(Lines(f.sales), vin))
          case Err(e) => Err(e)
          case Ok(None) => Ok(Some(info))
          case Ok(Some((cost, date))) => Ok(Some(info.(salesDate := Some(date), salesCost := Some(cost))))
  }

  // ---------------------------------------------------------------------------
  // update_vin
  // ---------------------------------------------------------------------------

  /**
    `update_vin`: a no-op for an unknown old VIN, an error for a new VIN
    already indexed; otherwise field 0 of the car's line is rewritten and
    the index entry renamed.
   */
  function UpdateVinOp(f: Files, oldVin: string, newVin: string): Step<Outcome> {
    match ParseIndex(f.carIndex)
    case Err(e) => Step(f, Fail(e))
    case Ok(carIndex) =>
      if oldVin !in carIndex then Step(f, Pass)
      else if newVin in carIndex then Step(f, Fail(VinTaken))
      else
        var n := carIndex[oldVin];
        match ReadRecord(f.cars, n)
        case Err(e) => Step(f, Fail(e))
        case Ok(line) =>
          if line == "" then Step(f, Fail(CarLineMissing))
          else Step(f.(cars := WriteRecord(f.cars, n, Fields(line)[0 := newVin]),
                       carIndex := IndexText((carIndex - {oldVin})[newVin := n])), Pass)
  }

  // ---------------------------------------------------------------------------
  // revert_sale
  // ---------------------------------------------------------------------------

  /** The key a line is re-indexed under: its field 0, or none for a blank line. */
  function LineKey(line: string): Option<string> {
    if Strip(line) == [] then None else Some(Fields(line)[0])
  }

  /** The keys of the lines, in file order. */
  function LineKeys(ls: seq<string>): (ks: seq<Option<string>>)
    ensures |ks| == |ls|
    ensures forall j :: 0 <= j < |ls| ==> ks[j] == LineKey(ls[j])
  {
    seq(|ls|, j requires 0 <= j < |ls| => LineKey(ls[j]))
  }

  /** The rebuilt index: each key maps to its position; a later line wins. */
  function Reindex(ks: seq<Option<string>>): map<string, int> {
    if ks == [] then map[]
    else
      var m := Reindex(ks[..|ks| - 1]);
      match ks[|ks| - 1]
      case None => m
      case Some(k) => m[k := |ks| - 1]
  }

  /** Rebuilding over one more key: the line's key, if any, is mapped to its position. */
  lemma ReindexStep(ks: seq<Option<string>>, i: nat)
    requires i < |ks|
    ensures Reindex(ks[..i + 1]) == if ks[i].None? then Reindex(ks[..i]) else Reindex(ks[..i])[ks[i].value := i]
  {
    assert ks[..i + 1][..i] == ks[..i];
  }

  /**
    The first half of `revert_sale`: finds the indexed sales line (Python
    indexing, so a negative line number counts from the end) and returns
    the lines that survive its removal and the VIN it sold.
   */
  function RemoveSale(sales: string, salesIndexText: string, salesNumber: string): Result<(seq<string>, string)> {
    match ParseIndex(salesIndexText)
    case Err(e) => Err(e)
    case Ok(salesIndex) =>
      if salesNumber !in salesIndex then Err(UnknownSale)
      else RemoveLine(Lines(sales), salesIndex[salesNumber])
  }

  /**
    `lines.pop(n)` after the bounds check `-len(lines) <= n < len(lines)`,
    with the VIN field of the removed line.
   */
  function RemoveLine(ls: seq<string>, n: int): Result<(seq<string>, string)> {
    match PyIndex(|ls|, n)
    case None => Err(LineOutOfRange)
    case Some(i) =>
      var saleFields := Fields(ls[i]);
      if |saleFields| < 2 then Err(MissingField)
      else Ok((ls[..i] + ls[i + 1..], saleFields[1]))
  }

  /**
    `revert_sale`: removes the sale's line, rewrites the sales file and its
    rebuilt index, then sets field 4 of the sold car back to `available`.
   */
  function RevertSaleOp(f: Files, salesNumber: string): Step<Outcome> {
    match RemoveSale(f.sales, f.salesIndex, salesNumber)
    case Err(e) => Step(f, Fail(e))
    case Ok((rest, vin)) =>
      var f1 := f.(sales := Concat(rest), salesIndex := IndexText(Reindex(LineKeys(rest))));
      match SetStatus(f1.cars, f1.carIndex, vin, Available, false)
      case Err(e) => Step(f1, Fail(e))
      case Ok(cars) => Step(f1.(cars := cars), Pass)
  }

  // ---------------------------------------------------------------------------
  // top_models_by_sales
  // ---------------------------------------------------------------------------

  /**
    One ranked model in the result loop: a model that is not indexed or
    whose line has fewer than 3 fields is passed over; otherwise its name,
    brand and count.
   */
  function StatStep(t: Tally, modelIndex: map<string, int>, models: string): Result<Option<ModelSaleStats>> {
    var key := IntToString(t.model);
    if key !in modelIndex then Ok(None)
    else match ReadRecord(models, modelIndex[key])
      case Err(e) => Err(e)
      case Ok(line) =>
        var fs := Fields(line);
        if |fs| < 3 then Ok(None) else Ok(Some(ModelSaleStats(fs[1], fs[2], t.count)))
  }

  /** What the result loop makes of each ranked model, in order. */
  function StatSteps(top: seq<Tally>, modelIndex: map<string, int>, models: string): (steps: seq<Result<Option<ModelSaleStats>>>)
    ensures |steps| == |top|
    ensures forall i :: 0 <= i < |top| ==> steps[i] == StatStep(top[i], modelIndex, models)
  {
    seq(|top|, i requires 0 <= i < |top| => StatStep(top[i], modelIndex, models))
  }

  /** `top_models_by_sales` */
  function TopModelsOp(f: Files): Result<seq<ModelSaleStats>> {
    match CarMappingFrom(CarEntries(Lines(f.cars)), map[])
    case Err(e) => Err(e)
    case Ok(mapping) =>
      match SoldFrom(SaleVins(Lines(f.sales)), mapping, [])
      case Err(e) => Err(e)
      case Ok(refs) =>
        var top := TopThree(Rank(TallyOf(refs)));
        match ParseIndex(f.modelIndex)
        case Err(e) => Err(e)
        case Ok(modelIndex) => Gather(StatSteps(top, modelIndex, f.models), [])
  }
}

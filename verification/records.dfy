/**
  The domain values the store keeps (models, cars, sales) and the `;`-joined
  records they are written as.

  Prices and costs are whole numbers written with `str()` and read back with
  `int()`-style parsing; dates are kept as the text written to the file.
 */
module Records {
  import opened Results
  import opened PyStr
  import opened FixedWidth

  /** `CarStatus`: the two states a car moves between. */
  datatype CarStatus = Available | Sold

  /** `CarStatus.value`, the text stored in field 4 of a car record. */
  function StatusValue(s: CarStatus): string {
    match s
    case Available => "available"
    case Sold => "sold"
  }

  /** `CarStatus(value)`: looks a status up by its stored text. */
  function ParseStatus(v: string): Result<CarStatus> {
    if v == "available" then Ok(Available)
    else if v == "sold" then Ok(Sold)
    else Err(BadStatus)
  }

  /** A status survives being written and read back. */
  lemma StatusRoundTrip(s: CarStatus)
    ensures ParseStatus(StatusValue(s)) == Ok(s)
  {
  }

  /** Only the two stored texts name a status, and each names exactly one. */
  lemma ParseStatusExact(v: string)
    ensures ParseStatus(v).Ok? <==> v == StatusValue(Available) || v == StatusValue(Sold)
    ensures ParseStatus(v).Ok? ==> StatusValue(ParseStatus(v).value) == v
  {
  }

  datatype Model = Model(id: int, name: string, brand: string)

  datatype Car = Car(vin: string, model: int, price: int, dateStart: string, status: CarStatus)

  datatype Sale = Sale(salesNumber: string, carVin: string, cost: int, salesDate: string)

  /** What `get_car_info` returns: a car joined with its model and, when sold, its sale. */
  datatype CarFullInfo = CarFullInfo(
    vin: string,
    carModelName: string,
    carModelBrand: string,
    price: int,
    dateStart: string,
    status: CarStatus,
    salesDate: Option<string>,
    salesCost: Option<int>)

  /** One entry of `top_models_by_sales`. */
  datatype ModelSaleStats = ModelSaleStats(carModelName: string, brand: string, salesNumber: nat)

  /** `id;name;brand` */
  function ModelFields(m: Model): seq<string> {
    [IntToString(m.id), m.name, m.brand]
  }

  /** `vin;model;price;date_start;status` */
  function CarFields(c: Car): seq<string> {
    [c.vin, IntToString(c.model), IntToString(c.price), c.dateStart, StatusValue(c.status)]
  }

  /** `sales_number;car_vin;cost;sales_date` */
  function SaleFields(s: Sale): seq<string> {
    [s.salesNumber, s.carVin, IntToString(s.cost), s.salesDate]
  }

  /** Fields that are written as one slot and parse back to themselves. */
  predicate Storable(fs: seq<string>) {
    CleanFields(fs) && |Serialize(fs)| <= LineLength
  }

  /**
    A car from the fields of its line: `int(data[1])`, `Decimal(data[2])`,
    the date text and `CarStatus(data[4])`.
   */
  function CarOfFields(data: seq<string>): Result<Car>
    requires |data| >= 5
  {
    match ParseInt(data[1])
    case None => Err(BadNumber)
    case Some(model) =>
      match ParseInt(data[2])
      case None => Err(BadNumber)
      case Some(price) =>
        match ParseStatus(data[4])
        case Err(e) => Err(e)
        case Ok(status) => Ok(Car(data[0], model, price, data[3], status))
  }

  /** Reading a car back from the fields it was written as gives the same car. */
  lemma CarFieldsRoundTrip(c: Car)
    ensures CarOfFields(CarFields(c)) == Ok(c)
  {
    var fs := CarFields(c);
    assert fs[1] == IntToString(c.model) && fs[2] == IntToString(c.price) && fs[4] == StatusValue(c.status);
    ParseIntToString(c.model);
    ParseIntToString(c.price);
    StatusRoundTrip(c.status);
    assert CarOfFields(fs) == Ok(Car(fs[0], c.model, c.price, fs[3], c.status));
  }

  /** Only field 0 of a car line names its VIN: renaming it changes the car read back in nothing else. */
  lemma CarOfRenamedFields(data: seq<string>, vin: string)
    requires |data| >= 5
    ensures CarOfFields(data[0 := vin]) ==
      match CarOfFields(data)
      case Ok(c) => Ok(c.(vin := vin))
      case Err(e) => Err(e)
  {
  }

  /** Only field 4 of a car line holds its status: rewriting it changes the car read back in nothing else. */
  lemma CarOfRestatusedFields(data: seq<string>, status: CarStatus)
    requires |data| >= 5 && CarOfFields(data).Ok?
    ensures CarOfFields(data[4 := StatusValue(status)]) == Ok(CarOfFields(data).value.(status := status))
  {
    StatusRoundTrip(status);
  }

  /** A stored car record parses back to the car, from the padded slot. */
  lemma CarRecordRoundTrip(c: Car)
    requires Storable(CarFields(c))
    ensures IsSlot(Pad(Serialize(CarFields(c))))
    ensures Fields(Pad(Serialize(CarFields(c)))) == CarFields(c)
    ensures CarOfFields(Fields(Pad(Serialize(CarFields(c))))) == Ok(c)
  {
    RecordRoundTrip(CarFields(c));
    CarFieldsRoundTrip(c);
  }
}

/**
  Request and response shapes of the owners-and-cars service, and the
  validation its schema layer applies to them before any persistence call:
  which fields must be present, which may be null, the default of each
  optional field, and the length bound of each string field.

  A JSON object is modelled field by field (`Field<T>`): a field can be left
  out, be given as null, or be given with a value. Validating an object
  against a schema is a parse function returning `None` when the object is
  rejected. Attributes a schema does not declare are ignored, as the
  validation library does by default.
*/
module Schemas {

  datatype Option<T> = None | Some(value: T)

  /** A calendar date; the service only copies dates through and compares them for equality. */
  datatype Date = Date(year: int, month: int, day: int)

  /** How one field of an incoming object arrives. */
  datatype Field<T> = Absent | Null | Given(value: T)

  const MaxBrandLength := 20
  const MaxModelLength := 30
  const MaxNameLength := 40
  const MaxLastNameLength := 60
  const MaxEmailLength := 120

  /** Every attribute any car shape knows of, as it arrives. */
  datatype CarFields = CarFields(
    id: Field<int>,
    brand: Field<string>,
    model: Field<string>,
    productionDate: Field<Date>,
    ownerId: Field<int>)

  /** Every attribute any owner shape knows of, as it arrives. */
  datatype OwnerFields = OwnerFields(
    id: Field<int>,
    name: Field<string>,
    lastName: Field<string>,
    email: Field<string>,
    cars: Field<seq<CarFields>>)

  /** Body of a car creation: CarBase and nothing else, in particular no owner reference. */
  datatype CarCreate = CarCreate(brand: string, model: string, productionDate: Date)
  {
    predicate WithinBounds() { |brand| <= MaxBrandLength && |model| <= MaxModelLength }

    /** The object this value is serialized to. */
    function Fields(): CarFields { CarFields(Absent, Given(brand), Given(model), Given(productionDate), Absent) }
  }

  /** Body of a car update: CarBase plus a mandatory integer owner reference. */
  datatype CarUpdate = CarUpdate(brand: string, model: string, productionDate: Date, ownerId: int)
  {
    predicate WithinBounds() { |brand| <= MaxBrandLength && |model| <= MaxModelLength }

    function Fields(): CarFields { CarFields(Absent, Given(brand), Given(model), Given(productionDate), Given(ownerId)) }
  }

  /** A car in a response: CarBase plus its id and an optional owner reference. */
  datatype Car = Car(id: int, brand: string, model: string, productionDate: Date, ownerId: Option<int>)
  {
    predicate WithinBounds() { |brand| <= MaxBrandLength && |model| <= MaxModelLength }

    /** A missing owner is serialized as null. */
    function Fields(): CarFields
    {
      CarFields(Given(id), Given(brand), Given(model), Given(productionDate),
                if ownerId.Some? then Given(ownerId.value) else Null)
    }
  }

  /** Body of an owner creation: OwnerBase plus an optional list of cars to create with it. */
  datatype OwnerCreate = OwnerCreate(name: string, lastName: string, email: string, cars: Option<seq<CarCreate>>)
  {
    predicate Valid(isEmail: string -> bool)
    {
      && OwnerBounds(name, lastName, email) && isEmail(email)
      && (cars.Some? ==> forall i :: 0 <= i < |cars.value| ==> cars.value[i].WithinBounds())
    }

    function Fields(): OwnerFields
    {
      OwnerFields(Absent, Given(name), Given(lastName), Given(email),
                  if cars.Some? then Given(CarCreatesFields(cars.value)) else Null)
    }
  }

  /** Body of an owner update: OwnerBase and nothing else. */
  datatype OwnerUpdate = OwnerUpdate(name: string, lastName: string, email: string)
  {
    predicate Valid(isEmail: string -> bool) { OwnerBounds(name, lastName, email) && isEmail(email) }

    function Fields(): OwnerFields { OwnerFields(Absent, Given(name), Given(lastName), Given(email), Absent) }
  }

  /** An owner in a response: OwnerBase plus its id and an optional list of its cars. */
  datatype Owner = Owner(id: int, name: string, lastName: string, email: string, cars: Option<seq<Car>>)
  {
    predicate Valid(isEmail: string -> bool)
    {
      && OwnerBounds(name, lastName, email) && isEmail(email)
      && (cars.Some? ==> forall i :: 0 <= i < |cars.value| ==> cars.value[i].WithinBounds())
    }

    function Fields(): OwnerFields
    {
      OwnerFields(Given(id), Given(name), Given(lastName), Given(email),
                  if cars.Some? then Given(CarsFields(cars.value)) else Null)
    }
  }

  /** The objects a list of car creation bodies is serialized to. */
  function CarCreatesFields(cs: seq<CarCreate>): seq<CarFields>
  {
    seq(|cs|, i requires 0 <= i < |cs| => cs[i].Fields())
  }

  /**
    The objects a list of response cars is serialized to. It is
    `CarCreatesFields` over `Car` instead of `CarCreate`. The two are kept
    apart so that each `Fields()` calls a first-order function and the
    round-trip lemmas never need two function values to be equal.
  */
  function CarsFields(cs: seq<Car>): seq<CarFields>
  {
    seq(|cs|, i requires 0 <= i < |cs| => cs[i].Fields())
  }

  predicate OwnerBounds(name: string, lastName: string, email: string)
  {
    |name| <= MaxNameLength && |lastName| <= MaxLastNameLength && |email| <= MaxEmailLength
  }

  /** A required string field with a maximum length. */
  predicate Bounded(f: Field<string>, bound: nat)
  {
    f.Given? && |f.value| <= bound
  }

  /** The rules CarBase puts on an object: brand and model present, not null and short enough; a date present. */
  predicate CarBaseValid(p: CarFields)
  {
    Bounded(p.brand, MaxBrandLength) && Bounded(p.model, MaxModelLength) && p.productionDate.Given?
  }

  /** The rules OwnerBase puts on an object; the email syntax check belongs to an outside library and is a parameter. */
  predicate OwnerBaseValid(p: OwnerFields, isEmail: string -> bool)
  {
    && Bounded(p.name, MaxNameLength) && Bounded(p.lastName, MaxLastNameLength)
    && Bounded(p.email, MaxEmailLength) && isEmail(p.email.value)
  }

  /** An optional scalar field with a default: left out gives the default, null gives None. */
  function OrDefault<T>(f: Field<T>, default: Option<T>): Option<T>
  {
    match f
    case Absent => default
    case Null => None
    case Given(v) => Some(v)
  }

  /** Validates every entry of a list; the list is accepted only when every entry is. */
  function ParseEach<P, R>(ps: seq<P>, parse: P -> Option<R>): (r: Option<seq<R>>)
    ensures r.Some? <==> forall i :: 0 <= i < |ps| ==> parse(ps[i]).Some?
    ensures r.Some? ==> |r.value| == |ps| && forall i :: 0 <= i < |ps| ==> parse(ps[i]) == Some(r.value[i])
  {
    if ps == [] then Some([])
    else
      match (parse(ps[0]), ParseEach(ps[1..], parse))
      case (Some(x), Some(xs)) => Some([x] + xs)
      case _ => None
  }

  /**
    An `Optional[List[...]] = []` field: left out gives the empty list, null
    gives no list, a given list is validated entry by entry. The outer `None`
    means the object is rejected.
  */
  function ParseListField<P, R>(f: Field<seq<P>>, parse: P -> Option<R>): Option<Option<seq<R>>>
  {
    match f
    case Absent => Some(Some([]))
    case Null => Some(None)
    case Given(ps) =>
      match ParseEach(ps, parse)
      case Some(rs) => Some(Some(rs))
      case None => None
  }

  /** Validation of a car creation body (api/schemas.py:5-11). */
  function ParseCarCreate(p: CarFields): (r: Option<CarCreate>)
    ensures r.Some? <==> CarBaseValid(p)
    ensures r.Some? ==> r.value.WithinBounds()
    // id and owner_id are not CarCreate attributes: whatever they were, they are dropped
    ensures r.Some? ==> r.value.Fields() == p.(id := Absent, ownerId := Absent)
  {
    if CarBaseValid(p) then Some(CarCreate(p.brand.value, p.model.value, p.productionDate.value)) else None
  }

  /** Validation of a car update body (api/schemas.py:5-8, 13-14). */
  function ParseCarUpdate(p: CarFields): (r: Option<CarUpdate>)
    ensures r.Some? <==> CarBaseValid(p) && p.ownerId.Given?
    ensures r.Some? ==> r.value.WithinBounds()
    ensures r.Some? ==> r.value.Fields() == p.(id := Absent)
  {
    if CarBaseValid(p) && p.ownerId.Given? then
      Some(CarUpdate(p.brand.value, p.model.value, p.productionDate.value, p.ownerId.value))
    else None
  }

  /** Validation of a car in a response (api/schemas.py:5-8, 16-18). */
  function ParseCar(p: CarFields): (r: Option<Car>)
    ensures r.Some? <==> CarBaseValid(p) && p.id.Given?
    ensures r.Some? ==> r.value.WithinBounds() && r.value.id == p.id.value
    ensures r.Some? ==> r.value.Fields() == p.(ownerId := if p.ownerId.Absent? then Null else p.ownerId)
    // owner_id may be left out or null; either way the car has no owner
    ensures r.Some? ==> (r.value.ownerId.None? <==> !p.ownerId.Given?)
  {
    if CarBaseValid(p) && p.id.Given? then
      Some(Car(p.id.value, p.brand.value, p.model.value, p.productionDate.value, OrDefault(p.ownerId, None)))
    else None
  }

  /** Validation of an owner creation body (api/schemas.py:23-29). */
  function ParseOwnerCreate(p: OwnerFields, isEmail: string -> bool): (r: Option<OwnerCreate>)
    ensures r.Some? <==>
      && OwnerBaseValid(p, isEmail)
      && (p.cars.Given? ==> forall i :: 0 <= i < |p.cars.value| ==> CarBaseValid(p.cars.value[i]))
    ensures r.Some? ==> r.value.Valid(isEmail)
    ensures r.Some? ==> r.value.Fields().(cars := p.cars) == p.(id := Absent)
    ensures r.Some? && p.cars.Absent? ==> r.value.cars == Some([])
    ensures r.Some? && p.cars.Null? ==> r.value.cars == None
    ensures r.Some? && p.cars.Given? ==>
      && r.value.cars.Some? && |r.value.cars.value| == |p.cars.value|
      && forall i :: 0 <= i < |p.cars.value| ==> ParseCarCreate(p.cars.value[i]) == Some(r.value.cars.value[i])
  {
    if !OwnerBaseValid(p, isEmail) then None
    else
      match ParseListField(p.cars, ParseCarCreate)
      case Some(cars) => Some(OwnerCreate(p.name.value, p.lastName.value, p.email.value, cars))
      case None => None
  }

  /** Validation of an owner update body (api/schemas.py:23-26, 31-32). */
  function ParseOwnerUpdate(p: OwnerFields, isEmail: string -> bool): (r: Option<OwnerUpdate>)
    ensures r.Some? <==> OwnerBaseValid(p, isEmail)
    ensures r.Some? ==> r.value.Valid(isEmail)
    // a cars list sent with an update is dropped, as is an id
    ensures r.Some? ==> r.value.Fields() == p.(id := Absent, cars := Absent)
  {
    if OwnerBaseValid(p, isEmail) then Some(OwnerUpdate(p.name.value, p.lastName.value, p.email.value)) else None
  }

  /** Validation of an owner in a response (api/schemas.py:23-26, 34-36). */
  function ParseOwner(p: OwnerFields, isEmail: string -> bool): (r: Option<Owner>)
    ensures r.Some? <==>
      && OwnerBaseValid(p, isEmail) && p.id.Given?
      && (p.cars.Given? ==> forall i :: 0 <= i < |p.cars.value| ==> ParseCar(p.cars.value[i]).Some?)
    ensures r.Some? ==> r.value.Valid(isEmail) && r.value.id == p.id.value
    ensures r.Some? ==> r.value.Fields().(cars := p.cars) == p
    ensures r.Some? && p.cars.Absent? ==> r.value.cars == Some([])
    ensures r.Some? && p.cars.Null? ==> r.value.cars == None
    ensures r.Some? && p.cars.Given? ==>
      && r.value.cars.Some? && |r.value.cars.value| == |p.cars.value|
      && forall i :: 0 <= i < |p.cars.value| ==> ParseCar(p.cars.value[i]) == Some(r.value.cars.value[i])
  {
    if !(OwnerBaseValid(p, isEmail) && p.id.Given?) then None
    else
      match ParseListField(p.cars, ParseCar)
      case Some(cars) => Some(Owner(p.id.value, p.name.value, p.lastName.value, p.email.value, cars))
      case None => None
  }

  /** A car creation body survives serialization and validation exactly when it is within the bounds. */
  lemma CarCreateRoundTrip(c: CarCreate)
    ensures ParseCarCreate(c.Fields()) == if c.WithinBounds() then Some(c) else None
  {
  }

  /** A car update body survives serialization and validation exactly when it is within the bounds. */
  lemma CarUpdateRoundTrip(c: CarUpdate)
    ensures ParseCarUpdate(c.Fields()) == if c.WithinBounds() then Some(c) else None
  {
  }

  /** A response car survives serialization and validation exactly when it is within the bounds. */
  lemma CarRoundTrip(c: Car)
    ensures ParseCar(c.Fields()) == if c.WithinBounds() then Some(c) else None
  {
  }

  /**
    Only an update can carry an owner reference: a creation body parses the
    same whatever owner_id it holds, and an update body is accepted exactly
    when the creation body is and owner_id is an integer.
  */
  lemma OwnerReferenceOnlyOnUpdate(p: CarFields, o: Field<int>)
    ensures ParseCarCreate(p.(ownerId := o)) == ParseCarCreate(p)
    ensures ParseCarUpdate(p).Some? <==> ParseCarCreate(p).Some? && p.ownerId.Given?
  {
  }

  /** Validating each serialized entry of a list gives back the list when every entry is within bounds. */
  lemma {:induction false} CarCreatesRoundTrip(cs: seq<CarCreate>)
    ensures ParseEach(CarCreatesFields(cs), ParseCarCreate)
         == if forall i :: 0 <= i < |cs| ==> cs[i].WithinBounds() then Some(cs) else None
  {
    var fs := CarCreatesFields(cs);
    forall i | 0 <= i < |cs|
      ensures ParseCarCreate(fs[i]) == (if cs[i].WithinBounds() then Some(cs[i]) else None)
    {
      CarCreateRoundTrip(cs[i]);
    }
    var r := ParseEach(fs, ParseCarCreate);
    if r.Some? {
      assert r.value == cs;
    }
  }

  /** Response cars survive serialization and validation when every one is within bounds. */
  lemma {:induction false} CarsRoundTrip(cs: seq<Car>)
    ensures ParseEach(CarsFields(cs), ParseCar)
         == if forall i :: 0 <= i < |cs| ==> cs[i].WithinBounds() then Some(cs) else None
  {
    var fs := CarsFields(cs);
    forall i | 0 <= i < |cs|
      ensures ParseCar(fs[i]) == (if cs[i].WithinBounds() then Some(cs[i]) else None)
    {
      CarRoundTrip(cs[i]);
    }
    var r := ParseEach(fs, ParseCar);
    if r.Some? {
      assert r.value == cs;
    }
  }

  /** An owner creation body, nested cars included, survives serialization and validation exactly when it is valid. */
  lemma OwnerCreateRoundTrip(o: OwnerCreate, isEmail: string -> bool)
    ensures ParseOwnerCreate(o.Fields(), isEmail) == if o.Valid(isEmail) then Some(o) else None
  {
    if o.cars.Some? {
      var cs := o.cars.value;
      var fs := CarCreatesFields(cs);
      CarCreatesRoundTrip(cs);
      assert ParseListField(Given(fs), ParseCarCreate)
          == if forall i :: 0 <= i < |cs| ==> cs[i].WithinBounds() then Some(Some(cs)) else None;
    }
  }

  /** An owner update body survives serialization and validation exactly when it is valid. */
  lemma OwnerUpdateRoundTrip(o: OwnerUpdate, isEmail: string -> bool)
    ensures ParseOwnerUpdate(o.Fields(), isEmail) == if o.Valid(isEmail) then Some(o) else None
  {
  }

  /** A response owner, its cars included, survives serialization and validation exactly when it is valid. */
  lemma OwnerRoundTrip(o: Owner, isEmail: string -> bool)
    ensures ParseOwner(o.Fields(), isEmail) == if o.Valid(isEmail) then Some(o) else None
  {
    if o.cars.Some? {
      var cs := o.cars.value;
      var fs := CarsFields(cs);
      CarsRoundTrip(cs);
      assert ParseListField(Given(fs), ParseCar)
          == if forall i :: 0 <= i < |cs| ==> cs[i].WithinBounds() then Some(Some(cs)) else None;
    }
  }
}

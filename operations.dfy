/**
  The persistence operations of the owners-and-cars service, over an
  in-memory picture of its two tables. Each operation is one atomic change of
  the tables; session mechanics (add, flush, commit, refresh) are not
  modelled. A missing owner or car is reported as the one error kind
  `NotFound`, and an operation that reports it changes nothing.
*/
module Operations {
  import opened Schemas

  /** The one recoverable error of this layer. */
  datatype Error = NotFound

  datatype Result<T> = Ok(value: T) | Err(error: Error)

  /** The outcome of a delete, which reports success or an error but returns no row. */
  datatype Outcome = Done | Fail(error: Error)

  /** A row of the owners table (api/models.py:18-21). */
  datatype OwnerModel = OwnerModel(id: int, name: string, lastName: string, email: string)

  /** A row of the cars table (api/models.py:39-43); the owner reference is nullable and unchecked. */
  datatype CarModel = CarModel(id: int, brand: string, model: string, productionDate: Date, ownerId: Option<int>)

  /** The row built from a car creation body, with the given id and owner reference. */
  function NewCar(id: int, c: CarCreate, ownerId: Option<int>): CarModel
  {
    CarModel(id, c.brand, c.model, c.productionDate, ownerId)
  }

  /** The nested car entries of an owner creation body; a missing list and an empty one both mean none. */
  function NestedEntries(o: OwnerCreate): seq<CarCreate>
  {
    if o.cars.Some? then o.cars.value else []
  }

  /** Ids of the cars whose owner reference is `ownerId`: the owner's cars relationship. */
  function OwnedBy(cars: map<int, CarModel>, ownerId: int): set<int>
  {
    set k | k in cars && cars[k].ownerId == Some(ownerId)
  }

  /** The cars table after the bulk delete of every car that references `ownerId`. */
  function WithoutCarsOf(cars: map<int, CarModel>, ownerId: int): map<int, CarModel>
  {
    map k | k in cars && cars[k].ownerId != Some(ownerId) :: cars[k]
  }

  /**
    The cars `db_create_owner` inserts for `entries`, numbered from
    `firstId` in list order, each referencing `ownerId`.
  */
  function NestedCars(entries: seq<CarCreate>, firstId: int, ownerId: int): map<int, CarModel>
  {
    if entries == [] then map[]
    else
      var n := |entries| - 1;
      NestedCars(entries[..n], firstId, ownerId)[firstId + n := NewCar(firstId + n, entries[n], Some(ownerId))]
  }

  /** Each owner row sits under its own id, and every id lies below the generator's next value. */
  predicate OwnersKeyed(owners: map<int, OwnerModel>, next: int)
  {
    forall k :: k in owners ==> owners[k].id == k && k < next
  }

  /** Each car row sits under its own id, and every id lies below the generator's next value. */
  predicate CarsKeyed(cars: map<int, CarModel>, next: int)
  {
    forall k :: k in cars ==> cars[k].id == k && k < next
  }

  /** Every non-null owner reference of a car names an existing owner. */
  predicate ReferencesResolve(owners: map<int, OwnerModel>, cars: map<int, CarModel>)
  {
    forall k :: k in cars && cars[k].ownerId.Some? ==> cars[k].ownerId.value in owners
  }

  /** Every owner row fits the widths of its columns (api/models.py:19-21). */
  predicate OwnersFit(owners: map<int, OwnerModel>)
  {
    forall k :: k in owners ==> OwnerBounds(owners[k].name, owners[k].lastName, owners[k].email)
  }

  /** Every car row fits the widths of its columns (api/models.py:40-41). */
  predicate CarsFit(cars: map<int, CarModel>)
  {
    forall k :: k in cars ==> |cars[k].brand| <= MaxBrandLength && |cars[k].model| <= MaxModelLength
  }

  /** The nested cars take exactly the ids from `firstId` up to, not including, `firstId + |entries|`. */
  lemma {:induction false} NestedCarsKeys(entries: seq<CarCreate>, firstId: int, ownerId: int)
    ensures forall k :: k in NestedCars(entries, firstId, ownerId) <==> firstId <= k < firstId + |entries|
  {
    if entries != [] {
      NestedCarsKeys(entries[..|entries| - 1], firstId, ownerId);
    }
  }

  /** One nested car per entry. */
  lemma {:induction false} NestedCarsSize(entries: seq<CarCreate>, firstId: int, ownerId: int)
    ensures |NestedCars(entries, firstId, ownerId)| == |entries|
  {
    if entries != [] {
      var n := |entries| - 1;
      NestedCarsSize(entries[..n], firstId, ownerId);
      NestedCarsKeys(entries[..n], firstId, ownerId);
    }
  }

  /** The nested car under id k is built from the entry at position k - firstId and references the owner. */
  lemma {:induction false} NestedCarsValues(entries: seq<CarCreate>, firstId: int, ownerId: int)
    ensures forall k :: k in NestedCars(entries, firstId, ownerId) && firstId <= k < firstId + |entries| ==>
      NestedCars(entries, firstId, ownerId)[k] == NewCar(k, entries[k - firstId], Some(ownerId))
  {
    if entries != [] {
      var n := |entries| - 1;
      var prefix := entries[..n];
      NestedCarsValues(prefix, firstId, ownerId);
      NestedCarsKeys(prefix, firstId, ownerId);
      assert forall k :: k in NestedCars(prefix, firstId, ownerId) ==> entries[k - firstId] == prefix[k - firstId];
    }
  }

  /** Every nested car references the new owner. */
  lemma {:induction false} NestedCarsOwner(entries: seq<CarCreate>, firstId: int, ownerId: int)
    ensures forall k :: k in NestedCars(entries, firstId, ownerId) ==>
      NestedCars(entries, firstId, ownerId)[k].ownerId == Some(ownerId)
  {
    if entries != [] {
      NestedCarsOwner(entries[..|entries| - 1], firstId, ownerId);
    }
  }

  /**
    The key, size and value facts about the nested cars together: they are
    keyed by consecutive ids from `firstId`, one per entry, and each is built
    from its entry and references the owner.
  */
  lemma NestedCarsShape(entries: seq<CarCreate>, firstId: int, ownerId: int)
    ensures forall k :: k in NestedCars(entries, firstId, ownerId) <==> firstId <= k < firstId + |entries|
    ensures |NestedCars(entries, firstId, ownerId)| == |entries|
    ensures forall k :: k in NestedCars(entries, firstId, ownerId) ==>
      NestedCars(entries, firstId, ownerId)[k] == NewCar(k, entries[k - firstId], Some(ownerId))
  {
    NestedCarsKeys(entries, firstId, ownerId);
    NestedCarsSize(entries, firstId, ownerId);
    NestedCarsValues(entries, firstId, ownerId);
  }

  /**
    "One row per entry" restated by entry position, for callers that walk the
    entries: entry i becomes the row under `firstId + i`.
  */
  lemma NestedCarsAt(entries: seq<CarCreate>, firstId: int, ownerId: int)
    ensures forall i :: 0 <= i < |entries| ==>
      && firstId + i in NestedCars(entries, firstId, ownerId)
      && NestedCars(entries, firstId, ownerId)[firstId + i] == NewCar(firstId + i, entries[i], Some(ownerId))
  {
    var m := NestedCars(entries, firstId, ownerId);
    NestedCarsShape(entries, firstId, ownerId);
    forall i | 0 <= i < |entries|
      ensures firstId + i in m && m[firstId + i] == NewCar(firstId + i, entries[i], Some(ownerId))
    {
      assert (firstId + i) - firstId == i;
    }
  }

  /**
    Inserting the nested cars after rows whose ids all lie below `firstId`
    adds exactly |entries| rows, each under its own id, and keeps every
    earlier row.
  */
  lemma NestedInsertRows(cars: map<int, CarModel>, entries: seq<CarCreate>, firstId: int, ownerId: int)
    requires CarsKeyed(cars, firstId)
    ensures CarsKeyed(cars + NestedCars(entries, firstId, ownerId), firstId + |entries|)
    ensures |cars + NestedCars(entries, firstId, ownerId)| == |cars| + |entries|
    ensures forall k :: k in cars ==> (cars + NestedCars(entries, firstId, ownerId))[k] == cars[k]
  {
    var added := NestedCars(entries, firstId, ownerId);
    NestedCarsShape(entries, firstId, ownerId);
    assert cars.Keys !! added.Keys;
    DisjointUnionSize(cars, added);
  }

  /** The union of two maps with disjoint keys has both sizes added and keeps the rows of the first. */
  lemma DisjointUnionSize(a: map<int, CarModel>, b: map<int, CarModel>)
    requires a.Keys !! b.Keys
    ensures |a + b| == |a| + |b|
    ensures forall k :: k in a ==> (a + b)[k] == a[k]
  {
    assert (a + b).Keys == a.Keys + b.Keys;
    assert |(a + b).Keys| == |a.Keys| + |b.Keys|;
  }

  /** After the nested inserts the owner's cars are those that referenced its id before plus the new ones. */
  lemma NestedInsertOwned(cars: map<int, CarModel>, entries: seq<CarCreate>, firstId: int, ownerId: int)
    requires CarsKeyed(cars, firstId)
    ensures OwnedBy(cars + NestedCars(entries, firstId, ownerId), ownerId)
         == OwnedBy(cars, ownerId) + NestedCars(entries, firstId, ownerId).Keys
  {
    var added := NestedCars(entries, firstId, ownerId);
    NestedCarsKeys(entries, firstId, ownerId);
    NestedCarsOwner(entries, firstId, ownerId);
    assert forall k :: k in cars ==> k !in added;
  }

  /**
    Once the new owner exists, the nested cars' references resolve, and if
    every reference resolved before, no earlier car references the new id.
  */
  lemma NestedInsertResolves(owners: map<int, OwnerModel>, cars: map<int, CarModel>, entries: seq<CarCreate>,
                             firstId: int, owner: OwnerModel)
    requires ReferencesResolve(owners, cars)
    ensures ReferencesResolve(owners[owner.id := owner], cars + NestedCars(entries, firstId, owner.id))
    ensures owner.id !in owners ==> OwnedBy(cars, owner.id) == {}
  {
    var added := NestedCars(entries, firstId, owner.id);
    var after := cars + added;
    NestedCarsOwner(entries, firstId, owner.id);
    forall k | k in after && after[k].ownerId.Some?
      ensures after[k].ownerId.value in owners[owner.id := owner]
    {
      if k in added {
        assert after[k] == added[k];
      } else {
        assert after[k] == cars[k];
      }
    }
    if owner.id !in owners {
      assert forall k :: k !in OwnedBy(cars, owner.id);
    }
  }

  /** Nested cars built from entries within the bounds keep every row within the column widths. */
  lemma NestedInsertFits(cars: map<int, CarModel>, entries: seq<CarCreate>, firstId: int, ownerId: int)
    requires CarsFit(cars)
    requires forall i :: 0 <= i < |entries| ==> entries[i].WithinBounds()
    ensures CarsFit(cars + NestedCars(entries, firstId, ownerId))
  {
    var added := NestedCars(entries, firstId, ownerId);
    NestedCarsShape(entries, firstId, ownerId);
    forall k | k in added
      ensures |added[k].brand| <= MaxBrandLength && |added[k].model| <= MaxModelLength
    {
      assert entries[k - firstId].WithinBounds();
    }
  }

  /** The bulk delete removes exactly the owner's cars and keeps every other car as it was. */
  lemma CascadeRemovesOwned(cars: map<int, CarModel>, ownerId: int)
    ensures WithoutCarsOf(cars, ownerId).Keys == cars.Keys - OwnedBy(cars, ownerId)
    ensures forall k :: k in WithoutCarsOf(cars, ownerId) ==> WithoutCarsOf(cars, ownerId)[k] == cars[k]
    ensures OwnedBy(WithoutCarsOf(cars, ownerId), ownerId) == {}
    ensures |cars| == |WithoutCarsOf(cars, ownerId)| + |OwnedBy(cars, ownerId)|
  {
    var rest := WithoutCarsOf(cars, ownerId);
    var owned := OwnedBy(cars, ownerId);
    assert rest.Keys == cars.Keys - owned;
    assert cars.Keys == rest.Keys + owned;
  }

  /**
    Replacing a car's row moves it out of the cars relationship of every
    owner other than the new reference and into the new reference's.
  */
  lemma Reassign(cars: map<int, CarModel>, carId: int, car: CarModel)
    requires carId in cars
    ensures car.ownerId.Some? ==>
      OwnedBy(cars[carId := car], car.ownerId.value) == OwnedBy(cars, car.ownerId.value) + {carId}
    ensures forall o :: Some(o) != car.ownerId ==> OwnedBy(cars[carId := car], o) == OwnedBy(cars, o) - {carId}
  {
  }

  /** The rows of `table` under `ids`, in the order of `ids`. */
  function Lookup<T>(table: map<int, T>, ids: seq<int>): seq<T>
    requires forall i :: 0 <= i < |ids| ==> ids[i] in table
  {
    seq(|ids|, i requires 0 <= i < |ids| => table[ids[i]])
  }

  /** Some element of a non-empty set of ids. */
  method Pick(s: set<int>) returns (k: int)
    requires s != {}
    ensures k in s
  {
    if forall x :: x !in s {
      assert false;  // a set with no element is the empty set
    }
    k :| k in s;
  }

  /** Lists a set of ids once each, in the arbitrary order in which the store returns rows. */
  method Enumerate(ids: set<int>) returns (r: seq<int>)
    ensures |r| == |ids|
    ensures forall k :: k in r <==> k in ids
    ensures forall i :: 0 <= i < |r| ==> r[i] in ids
    ensures forall i, j :: 0 <= i < j < |r| ==> r[i] != r[j]
  {
    r := [];
    var todo := ids;
    while todo != {}
      invariant todo <= ids
      invariant |r| + |todo| == |ids|
      invariant forall k :: k in r <==> k in ids && k !in todo
      invariant forall i, j :: 0 <= i < j < |r| ==> r[i] != r[j]
      decreases todo
    {
      var k := Pick(todo);
      r := r + [k];
      todo := todo - {k};
    }
  }

  /**
    The rows `db_create_owner` adds to the session for the nested entries,
    one per entry in list order, numbered from `firstId`.
  */
  method NestedRows(entries: seq<CarCreate>, firstId: int, ownerId: int) returns (pending: map<int, CarModel>)
    ensures pending == NestedCars(entries, firstId, ownerId)
  {
    pending := map[];
    for i := 0 to |entries|
      invariant pending == NestedCars(entries[..i], firstId, ownerId)
    {
      assert entries[..i + 1][..i] == entries[..i];
      pending := pending[firstId + i := NewCar(firstId + i, entries[i], Some(ownerId))];
    }
    assert entries[..|entries|] == entries;
  }

  /**
    The two tables and the store's id generators. Each table maps an id to
    the row holding that id; every id a table holds lies below its generator.
  */
  class Store {
    var owners: map<int, OwnerModel>
    var cars: map<int, CarModel>
    var nextOwnerId: int
    var nextCarId: int

    ghost predicate Valid()
      reads this
    {
      OwnersKeyed(owners, nextOwnerId) && CarsKeyed(cars, nextCarId)
    }

    /** Every non-null owner reference of a car names an existing owner. */
    ghost predicate Referential()
      reads this
    {
      ReferencesResolve(owners, cars)
    }

    /** Every string fits the width of its column (api/models.py:19-21, 40-41). */
    ghost predicate FitsColumns()
      reads this
    {
      OwnersFit(owners) && CarsFit(cars)
    }

    /** Empty tables; both generators start at 1. */
    constructor ()
      ensures Valid() && Referential() && FitsColumns()
      ensures owners == map[] && cars == map[]
    {
      owners := map[];
      cars := map[];
      nextOwnerId := 1;
      nextCarId := 1;
    }

    /** db_get_owners: every owner row, once each. */
    method GetOwners() returns (r: seq<OwnerModel>)
      requires Valid()
      ensures |r| == |owners|
      ensures forall i :: 0 <= i < |r| ==> r[i].id in owners && owners[r[i].id] == r[i]
      ensures forall k :: k in owners ==> owners[k] in r
      ensures forall i, j :: 0 <= i < j < |r| ==> r[i].id != r[j].id
    {
      var ids := Enumerate(owners.Keys);
      r := Lookup(owners, ids);
      forall k | k in owners
        ensures owners[k] in r
      {
        var i :| 0 <= i < |ids| && ids[i] == k;
        assert r[i] == owners[k];
      }
    }

    /** db_create_owner: one owner row, then one car row per nested entry, each referencing the new owner. */
    method CreateOwner(o: OwnerCreate) returns (r: OwnerModel)
      requires Valid()
      modifies this
      ensures Valid()
      ensures r == OwnerModel(r.id, o.name, o.lastName, o.email)
      ensures r.id !in old(owners) && owners == old(owners)[r.id := r]
      ensures cars == old(cars) + NestedCars(NestedEntries(o), old(nextCarId), r.id)
      ensures r.id == old(nextOwnerId) && nextOwnerId == old(nextOwnerId) + 1
      ensures nextCarId == old(nextCarId) + |NestedEntries(o)|
      ensures old(Referential()) ==> Referential() && OwnedBy(old(cars), r.id) == {}
      ensures old(FitsColumns()) && OwnerBounds(o.name, o.lastName, o.email)
              && (forall i :: 0 <= i < |NestedEntries(o)| ==> NestedEntries(o)[i].WithinBounds())
              ==> FitsColumns()
    {
      ghost var owners0, cars0, firstId := owners, cars, nextCarId;
      // first commit: the owner row, with the next owner id
      r := OwnerModel(nextOwnerId, o.name, o.lastName, o.email);
      owners := owners[r.id := r];
      nextOwnerId := nextOwnerId + 1;
      // second commit: one row per nested entry, all referencing the new owner
      var entries := NestedEntries(o);
      var pending := NestedRows(entries, nextCarId, r.id);
      cars := cars + pending;
      nextCarId := nextCarId + |entries|;
      assert OwnersKeyed(owners, nextOwnerId);
      assert CarsKeyed(cars, nextCarId) by {
        NestedInsertRows(cars0, entries, firstId, r.id);
      }
      assert ReferencesResolve(owners0, cars0) ==> ReferencesResolve(owners, cars) && OwnedBy(cars0, r.id) == {} by {
        if ReferencesResolve(owners0, cars0) {
          NestedInsertResolves(owners0, cars0, entries, firstId, r);
        }
      }
      assert OwnersFit(owners0) && OwnerBounds(o.name, o.lastName, o.email) ==> OwnersFit(owners);
      assert CarsFit(cars0) && (forall i :: 0 <= i < |entries| ==> entries[i].WithinBounds()) ==> CarsFit(cars) by {
        if CarsFit(cars0) && (forall i :: 0 <= i < |entries| ==> entries[i].WithinBounds()) {
          NestedInsertFits(cars0, entries, firstId, r.id);
        }
      }
    }

    /** db_get_owner_cars: NotFound for a missing owner, else every car referencing the owner, once each. */
    method GetOwnerCars(ownerId: int) returns (r: Result<seq<CarModel>>)
      requires Valid()
      ensures r.Err? <==> ownerId !in owners
      ensures r.Err? ==> r.error == NotFound
      ensures r.Ok? ==> |r.value| == |OwnedBy(cars, ownerId)|
      ensures r.Ok? ==> forall i :: 0 <= i < |r.value| ==>
        && r.value[i].id in cars && cars[r.value[i].id] == r.value[i] && r.value[i].ownerId == Some(ownerId)
      ensures r.Ok? ==> forall k :: k in cars && cars[k].ownerId == Some(ownerId) ==> cars[k] in r.value
      ensures r.Ok? ==> forall i, j :: 0 <= i < j < |r.value| ==> r.value[i].id != r.value[j].id
    {
      if ownerId !in owners {
        return Err(NotFound);
      }
      var ids := Enumerate(OwnedBy(cars, ownerId));
      var found := Lookup(cars, ids);
      forall k | k in cars && cars[k].ownerId == Some(ownerId)
        ensures cars[k] in found
      {
        assert k in OwnedBy(cars, ownerId);
        var i :| 0 <= i < |ids| && ids[i] == k;
        assert found[i] == cars[k];
      }
      r := Ok(found);
    }

    /** db_delete_owner: NotFound for a missing owner; else the bulk delete of its cars, then the owner. */
    method DeleteOwner(ownerId: int) returns (r: Outcome)
      requires Valid()
      modifies this
      ensures Valid()
      ensures r.Fail? <==> ownerId !in old(owners)
      ensures r.Fail? ==> r.error == NotFound && owners == old(owners) && cars == old(cars)
      ensures r.Done? ==> owners == old(owners) - {ownerId} && cars == WithoutCarsOf(old(cars), ownerId)
      ensures r.Done? ==> cars.Keys == old(cars).Keys - OwnedBy(old(cars), ownerId)
      ensures r.Done? ==> |old(owners)| + |old(cars)| == |owners| + |cars| + 1 + |OwnedBy(old(cars), ownerId)|
      ensures nextOwnerId == old(nextOwnerId) && nextCarId == old(nextCarId)
      ensures old(Referential()) ==> Referential()
      ensures old(FitsColumns()) ==> FitsColumns()
    {
      if ownerId !in owners {
        return Fail(NotFound);
      }
      cars := WithoutCarsOf(cars, ownerId);
      owners := owners - {ownerId};
      CascadeRemovesOwned(old(cars), ownerId);
      r := Done;
    }

    /** db_update_owner: NotFound for a missing owner; else name, last name and email replaced, id kept. */
    method UpdateOwner(ownerId: int, u: OwnerUpdate) returns (r: Result<OwnerModel>)
      requires Valid()
      modifies this
      ensures Valid()
      ensures r.Err? <==> ownerId !in old(owners)
      ensures r.Err? ==> r.error == NotFound && owners == old(owners)
      ensures r.Ok? ==> r.value == OwnerModel(ownerId, u.name, u.lastName, u.email)
      ensures r.Ok? ==> owners == old(owners)[ownerId := r.value]
      ensures cars == old(cars) && nextOwnerId == old(nextOwnerId) && nextCarId == old(nextCarId)
      ensures old(Referential()) ==> Referential()
      ensures old(FitsColumns()) && OwnerBounds(u.name, u.lastName, u.email) ==> FitsColumns()
    {
      if ownerId !in owners {
        return Err(NotFound);
      }
      var owner := owners[ownerId];
      owner := owner.(name := u.name);
      owner := owner.(lastName := u.lastName);
      owner := owner.(email := u.email);
      owners := owners[ownerId := owner];
      r := Ok(owner);
    }

    /** db_get_cars: every car row, once each. */
    method GetCars() returns (r: seq<CarModel>)
      requires Valid()
      ensures |r| == |cars|
      ensures forall i :: 0 <= i < |r| ==> r[i].id in cars && cars[r[i].id] == r[i]
      ensures forall k :: k in cars ==> cars[k] in r
      ensures forall i, j :: 0 <= i < j < |r| ==> r[i].id != r[j].id
    {
      var ids := Enumerate(cars.Keys);
      r := Lookup(cars, ids);
      forall k | k in cars
        ensures cars[k] in r
      {
        var i :| 0 <= i < |ids| && ids[i] == k;
        assert r[i] == cars[k];
      }
    }

    /** db_create_car: one car row with a fresh id and no owner, since a creation body has no owner reference. */
    method CreateCar(c: CarCreate) returns (r: CarModel)
      requires Valid()
      modifies this
      ensures Valid()
      ensures r == NewCar(r.id, c, None)
      ensures r.id !in old(cars) && cars == old(cars)[r.id := r]
      ensures r.id == old(nextCarId) && nextCarId == old(nextCarId) + 1
      ensures owners == old(owners) && nextOwnerId == old(nextOwnerId)
      ensures old(Referential()) ==> Referential()
      ensures old(FitsColumns()) && c.WithinBounds() ==> FitsColumns()
    {
      r := NewCar(nextCarId, c, None);
      cars := cars[r.id := r];
      nextCarId := nextCarId + 1;
    }

    /** db_delete_car: NotFound for a missing car; else that car alone is removed. */
    method DeleteCar(carId: int) returns (r: Outcome)
      requires Valid()
      modifies this
      ensures Valid()
      ensures r.Fail? <==> carId !in old(cars)
      ensures r.Fail? ==> r.error == NotFound && cars == old(cars)
      ensures r.Done? ==> cars == old(cars) - {carId}
      ensures owners == old(owners) && nextOwnerId == old(nextOwnerId) && nextCarId == old(nextCarId)
      ensures old(Referential()) ==> Referential()
      ensures old(FitsColumns()) ==> FitsColumns()
    {
      if carId !in cars {
        return Fail(NotFound);
      }
      cars := cars - {carId};
      r := Done;
    }

    /**
      db_update_car: NotFound for a missing car; else brand, model, date and
      owner reference replaced, id kept. The new owner reference is not
      checked against the owners table.
    */
    method UpdateCar(carId: int, u: CarUpdate) returns (r: Result<CarModel>)
      requires Valid()
      modifies this
      ensures Valid()
      ensures r.Err? <==> carId !in old(cars)
      ensures r.Err? ==> r.error == NotFound && cars == old(cars)
      ensures r.Ok? ==> r.value == CarModel(carId, u.brand, u.model, u.productionDate, Some(u.ownerId))
      ensures r.Ok? ==> cars == old(cars)[carId := r.value]
      ensures owners == old(owners) && nextOwnerId == old(nextOwnerId) && nextCarId == old(nextCarId)
      ensures r.Ok? ==> OwnedBy(cars, u.ownerId) == OwnedBy(old(cars), u.ownerId) + {carId}
      ensures r.Ok? ==> forall o :: o != u.ownerId ==> OwnedBy(cars, o) == OwnedBy(old(cars), o) - {carId}
      // the reference is kept consistent exactly when the caller names an existing owner
      ensures r.Ok? && old(Referential()) ==> (Referential() <==> u.ownerId in owners)
      ensures old(FitsColumns()) && u.WithinBounds() ==> FitsColumns()
    {
      if carId !in cars {
        return Err(NotFound);
      }
      var car := cars[carId];
      car := car.(brand := u.brand);
      car := car.(model := u.model);
      car := car.(productionDate := u.productionDate);
      car := car.(ownerId := Some(u.ownerId));
      cars := cars[carId := car];
      Reassign(old(cars), carId, car);
      r := Ok(car);
    }
  }
}

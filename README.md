# Owners and cars: persistence operations and request schemas

A model of the service that keeps **owners** and their **cars**. It has two parts.

- `schemas.dfy` (module `Schemas`) models the request and response schemas:
  - `CarCreate`, `CarUpdate` and `Car`;
  - `OwnerCreate`, `OwnerUpdate` and `Owner`.

  A JSON object reaches the service as a record of fields. Each field is `Absent`, `Null` or `Given(v)`. Validation against a schema is a parse function. It returns `None` exactly when the schema rejects the object. Each schema value also has a `Fields()` serialisation. The lemmas prove that parsing a serialised value gives it back exactly when the value is valid: for the car schemas, when it respects the column bounds; for the owner schemas, when it also passes the email syntax check.
- `operations.dfy` (module `Operations`) models the persistence operations as the class `Store`. `Store` holds:
  - the owners table and the cars table, each a map from id to row;
  - the two id generators of the store.

  Each `db_*` function is a method of `Store`. Its contract states:
  - the new state of both tables and of the generators;
  - the `NotFound` case, which changes nothing;
  - the invariants the operation preserves.

  The invariants are:
  - `Valid`: rows sit under their own ids, and every id lies below its generator;
  - `Referential`: every non-null owner reference of a car names an existing owner;
  - `FitsColumns`: every string fits the width of its column.

  The effects on the owners' cars relationships (`OwnedBy`) are stated through pure map-level functions. Lemmas about those functions prove:
  - the nested inserts of owner creation;
  - the cascade of owner deletion;
  - the reassignment of a car on update.

Three facts about the code shape the model:

- **A created car never has an owner.** The creation schema `CarCreate` (api/schemas.py:10-11) has no `owner_id`, and an unknown field is ignored. So `db_create_car` always stores a null owner reference. `Schemas.OwnerReferenceOnlyOnUpdate` and `Operations.Store.CreateCar` state this.
- **An update cannot clear a car's owner.** `CarUpdate.owner_id` is a required integer (api/schemas.py:14), so a body with a null or missing `owner_id` is rejected. `Schemas.ParseCarUpdate` requires the field to be given, and `Operations.Store.UpdateCar` always stores an owner reference.
- **An update's owner reference is not checked.** `db_update_car` (api/operations.py:187-193) does not look the new owner up. Short of the database's own foreign-key enforcement, which is not modelled (see the foreign-key line under "## Left out"), it stores whatever integer it receives. So `Referential` is not part of `Valid`, and `Operations.Store.UpdateCar` states exactly when the update keeps it.

## Model

| member | source | states |
|---|---|---|
| Schemas.ParseCarCreate | api/schemas.py:5-11 | accepted iff brand, model and production date are given and brand ≤ 20, model ≤ 30 characters; an `id` or `owner_id` in the body is ignored, and the result serialises back to the body without them |
| Schemas.ParseCarUpdate | api/schemas.py:5-14 | accepted iff the car base fields are valid and an integer `owner_id` is given (neither absent nor null); the result carries that owner id |
| Schemas.ParseCar | api/schemas.py:16-18 | accepted iff the base fields are valid and an id is given; an absent or null `owner_id` becomes no owner, a given one is kept |
| Schemas.ParseOwnerCreate | api/schemas.py:23-29 | accepted iff name ≤ 40, last name ≤ 60, email ≤ 120 characters and syntactically an email, and every nested car entry is a valid car creation body; absent `cars` means the empty list, null means none |
| Schemas.ParseOwnerUpdate | api/schemas.py:23-32 | accepted iff the owner base fields are valid; any `cars` or `id` in the body is ignored |
| Schemas.ParseOwner | api/schemas.py:34-36 | accepted iff the base fields are valid, an id is given and every nested car is a valid `Car`; absent `cars` defaults to the empty list; the result carries the body's id, name, last name and email |
| Schemas.ParseEach | api/schemas.py:29 | a list is accepted iff every element is, and then the result has one parsed value per element, in order |
| Schemas.OwnerReferenceOnlyOnUpdate | api/schemas.py:10-14 | an owner reference never changes how a creation body parses; an update body parses iff the same body parses for creation and carries an owner reference |
| Schemas.CarCreateRoundTrip | api/schemas.py:5-11 | parsing a serialised car creation body gives it back iff it respects the bounds |
| Schemas.CarUpdateRoundTrip | api/schemas.py:13-14 | parsing a serialised car update body gives it back iff it respects the bounds |
| Schemas.CarRoundTrip | api/schemas.py:16-18 | parsing a serialised car gives it back iff it respects the bounds, including a null owner reference |
| Schemas.CarCreatesRoundTrip | api/schemas.py:29 | a list of car creation bodies survives serialisation and parsing iff each entry respects the bounds |
| Schemas.CarsRoundTrip | api/schemas.py:36 | a list of cars survives serialisation and parsing iff each car respects the bounds |
| Schemas.OwnerCreateRoundTrip | api/schemas.py:23-29 | parsing a serialised owner creation body gives it back iff it is valid, nested entries included |
| Schemas.OwnerUpdateRoundTrip | api/schemas.py:31-32 | parsing a serialised owner update body gives it back iff it is valid |
| Schemas.OwnerRoundTrip | api/schemas.py:34-36 | parsing a serialised owner gives it back iff it is valid, nested cars included |
| Operations.NestedCarsKeys | api/operations.py:35-38 | the cars inserted for the nested entries take exactly the consecutive ids from the first free car id, one per entry |
| Operations.NestedCarsSize | api/operations.py:35-38 | exactly N car rows are built for N nested entries |
| Operations.NestedCarsValues | api/operations.py:37 | the row under each new id holds the brand, model and production date of the matching entry |
| Operations.NestedCarsOwner | api/operations.py:37 | every nested car references the new owner |
| Operations.NestedCarsShape | api/operations.py:35-38 | the nested rows are keyed by their consecutive ids, one per entry, each built from its entry and referencing the owner |
| Operations.NestedCarsAt | api/operations.py:36-38 | for each entry position i there is a new row under the first id plus i, built from entry i |
| Operations.NestedInsertRows | api/operations.py:35-39 | inserting the nested cars adds exactly N rows, keeps every earlier row, and keeps every id below the advanced generator |
| Operations.NestedInsertOwned | api/operations.py:35-39 | after the nested inserts, the owner's cars are the cars that referenced it before plus exactly the new rows |
| Operations.NestedInsertResolves | api/operations.py:30-39 | once the owner row exists, the nested cars' references resolve; if references resolved before, no earlier car referenced the fresh owner id |
| Operations.NestedInsertFits | api/operations.py:35-39 | nested entries within the bounds keep every car row within its column widths |
| Operations.CascadeRemovesOwned | api/operations.py:80-82 | the bulk delete removes exactly the cars that reference the owner and keeps all others unchanged; the table shrinks by their number |
| Operations.Reassign | api/operations.py:187-190 | replacing a car's row moves its id into the new referenced owner's cars and out of every other owner's |
| Operations.Enumerate | api/operations.py:16 | lists each id of a set exactly once, in some order |
| Operations.NestedRows | api/operations.py:35-38 | the loop over the nested entries builds exactly the rows of `NestedCars` |
| Operations.Store.constructor | api/models.py:5-45 | both tables start empty and satisfy every invariant |
| Operations.Store.GetOwners | api/operations.py:6-16 | read-only; returns every owner row exactly once and nothing else |
| Operations.Store.CreateOwner | api/operations.py:19-41 | adds one owner with a fresh id and the given name, last name and email, then N cars for N nested entries, each referencing the new owner, with fresh consecutive ids; earlier rows are untouched; `Valid` is kept, and so are referential integrity and the column widths (the latter for bounded input) |
| Operations.Store.GetOwnerCars | api/operations.py:44-62 | `NotFound` iff no owner has the id; otherwise exactly the cars that reference the owner, once each; read-only |
| Operations.Store.DeleteOwner | api/operations.py:65-83 | `NotFound` iff the owner is absent, and then both tables are unchanged; otherwise the owner and exactly its k cars are removed and every other row is kept; the row count drops by k + 1; referential integrity is preserved |
| Operations.Store.UpdateOwner | api/operations.py:86-113 | `NotFound` iff the owner is absent; otherwise name, last name and email are replaced, and the id, all cars and all other owners are unchanged |
| Operations.Store.GetCars | api/operations.py:116-126 | read-only; returns every car row exactly once and nothing else |
| Operations.Store.CreateCar | api/operations.py:129-145 | adds one car under the next car id, which advances by one, with the given brand, model and date and a null owner reference; the owners table is unchanged |
| Operations.Store.DeleteCar | api/operations.py:148-164 | `NotFound` iff the car is absent, and then nothing changes; otherwise exactly that car is removed; owners and other cars are unchanged |
| Operations.Store.UpdateCar | api/operations.py:167-195 | `NotFound` iff the car is absent; otherwise brand, model, date and owner reference are replaced and the id is kept; the car moves to the new owner's cars; the reference is not checked, so referential integrity survives iff the new owner exists |

## Left out

- Request routing and the mapping of `NoResultFound` to HTTP 404 (api/main.py) are not part of this model. `NoResultFound` is the `NotFound` error value.
- Database sessions and configuration (api/database.py) are not part of this model. So are the session mechanics: add, flush, refresh, and closing the session.
- `db_create_owner` commits twice: once for the owner and once for its cars. The model runs the two steps one after the other and assumes both succeed. A failure between the commits is not modelled.
- Failures of the database itself are not modelled: lost connections, constraint violations and failed commits.
- The foreign-key constraint on `owner_id` (api/models.py:43) is not modelled: the store accepts any owner reference, as when the database does not enforce it. `UpdateCar` states what the code guarantees without it.
- Ids are modelled as one increasing counter per table. The model does not capture how the database really generates ids (for example, reuse after a delete).
- The email syntax check of `EmailStr` comes from an external library. It appears as the parameter `isEmail`. The normalisation that library applies to addresses is left out.
- Dates are opaque year/month/day triples. Calendar validity and the parsing of date strings are left out.
- Pydantic's lax coercions (numeric strings to integers, and so on) are left out. A field is either given with a value of its type or it is not.
- Row order is left out. The list operations return rows in an arbitrary order, which the code does not specify either.
- Operations.Store.GetOwnerCars: does not model the eager loading of each car's owner object (`joinedload`). The loaded owner is the row under the car's owner reference, which the result already names.
- Response serialisation of `OwnerModel.cars` through the relationship (api/models.py:23) is not a separate operation here. `OwnedBy` gives the same set of cars.
- Column widths (api/models.py:19-21, 40-41) are not checked by the store. `FitsColumns` states when they hold.

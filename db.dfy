/**
 * The storage layer: one `Database` object over the on-device database's
 * four collections. Every screen reaches the data through it.
 *
 * Each storage request is one atomic state transition. What the storage
 * subsystem answers is a parameter: `available` for opening, `commits` for
 * a single transaction, and a `Fault` for the requests of a cascade.
 */
module Db {
  import opened Types
  import opened Merge

  /** The schema version `init` opens the database at. */
  const DbVersion: nat := 3

  datatype StoreName = Cars | Parts | Offers | Contacts

  const AllStores: set<StoreName> := {Cars, Parts, Offers, Contacts}

  /** A value held in one of the collections. */
  datatype Record =
    | CarRecord(car: Car)
    | PartRecord(part: Part)
    | OfferRecord(offer: Offer)
    | ContactRecord(contact: Contact)

  /** The collection's key path: `id` for cars, parts and offers, `phone` for contacts. */
  function KeyOf(r: Record): string {
    match r
    case CarRecord(c) => c.id
    case PartRecord(p) => p.id
    case OfferRecord(o) => o.id
    case ContactRecord(c) => c.phone
  }

  /** The record shape each collection holds. */
  predicate Holds(name: StoreName, r: Record) {
    match name
    case Cars => r.CarRecord?
    case Parts => r.PartRecord?
    case Offers => r.OfferRecord?
    case Contacts => r.ContactRecord?
  }

  datatype Error =
    | NotInitialized      // an operation before `init` has succeeded
    | StorageUnavailable  // the database could not be opened
    | TransactionFailure  // the storage subsystem rejected a request

  datatype Outcome = Pass | Fail(error: Error)

  datatype Result<T> = Success(value: T) | Failure(error: Error)

  /** The delete request of a cascade that the storage subsystem rejects, if any. */
  datatype Fault = NoFault | RejectDelete(store: StoreName, key: string)

  /** `allOffers.filter(o => o.partId === partId)`, by identifier. */
  function OfferIdsFor(all: set<Record>, partId: string): set<string> {
    set r | r in all && r.OfferRecord? && r.offer.partId == partId :: r.offer.id
  }

  /** `allParts.filter(p => p.carId === carId)`, by identifier. */
  function PartIdsFor(all: set<Record>, carId: string): set<string> {
    set r | r in all && r.PartRecord? && r.part.carId == carId :: r.part.id
  }

  /** True when `f` lets every delete of `keys` from `store` through. */
  predicate Spares(f: Fault, store: StoreName, keys: set<string>) {
    !(f.RejectDelete? && f.store == store && f.key in keys)
  }

  /** The keys of the parts of car `carId`. */
  function PartsOf(parts: map<string, Part>, carId: string): set<string> {
    set k | k in parts && parts[k].carId == carId
  }

  /** The keys of the offers for any of the parts `partIds`. */
  function OffersOf(offers: map<string, Offer>, partIds: set<string>): set<string> {
    set k | k in offers && offers[k].partId in partIds
  }

  /** `after` is `before` with some entries removed, each of them an offer for one of `partIds`. */
  predicate OffersTrimmed(before: map<string, Offer>, after: map<string, Offer>, partIds: set<string>) {
    && after.Keys <= before.Keys
    && (forall k | k in after :: after[k] == before[k])
    && (forall k | k in before && k !in after :: before[k].partId in partIds)
  }

  /** `after` is `before` with some of car `carId`'s parts removed. */
  predicate PartsTrimmed(before: map<string, Part>, after: map<string, Part>, carId: string) {
    && after.Keys <= before.Keys
    && (forall k | k in after :: after[k] == before[k])
    && (forall k | k in before && k !in after :: before[k].carId == carId)
  }

  /** Referential integrity: every part's car is stored, and every offer's part. */
  predicate Linked(cars: map<string, Car>, parts: map<string, Part>, offers: map<string, Offer>) {
    && (forall k | k in parts :: parts[k].carId in cars)
    && (forall k | k in offers :: offers[k].partId in parts)
  }

  /** The contents of the four collections. */
  datatype Tables = Tables(
    cars: map<string, Car>,
    parts: map<string, Part>,
    offers: map<string, Offer>,
    contacts: map<string, Contact>)
  {
    /** Every record sits under its own key. */
    predicate Keyed() {
      && (forall k | k in cars :: cars[k].id == k)
      && (forall k | k in parts :: parts[k].id == k)
      && (forall k | k in offers :: offers[k].id == k)
      && (forall k | k in contacts :: contacts[k].phone == k)
    }

    /** Collection `name` as the generic operations see it. */
    function Table(name: StoreName): map<string, Record> {
      match name
      case Cars => map k | k in cars :: CarRecord(cars[k])
      case Parts => map k | k in parts :: PartRecord(parts[k])
      case Offers => map k | k in offers :: OfferRecord(offers[k])
      case Contacts => map k | k in contacts :: ContactRecord(contacts[k])
    }

    /** `store.put(r)`: `r` under its key, replacing what was there. */
    function Stored(r: Record): Tables {
      match r
      case CarRecord(c) => this.(cars := cars[c.id := c])
      case PartRecord(p) => this.(parts := parts[p.id := p])
      case OfferRecord(o) => this.(offers := offers[o.id := o])
      case ContactRecord(c) => this.(contacts := contacts[c.phone := c])
    }

    /** `store.delete(key)` on collection `name`. */
    function Without(name: StoreName, key: string): Tables {
      match name
      case Cars => this.(cars := cars - {key})
      case Parts => this.(parts := parts - {key})
      case Offers => this.(offers := offers - {key})
      case Contacts => this.(contacts := contacts - {key})
    }
  }

  /**
   * What the device holds between sessions: a schema version, the
   * collections it has, and their records, each under its own key.
   * A database at the current version was built by this version's upgrade
   * and has all four collections.
   */
  predicate Persisted(version: nat, provisioned: set<StoreName>, t: Tables) {
    && (version == DbVersion ==> provisioned == AllStores)
    && (Cars !in provisioned ==> t.cars == map[])
    && (Parts !in provisioned ==> t.parts == map[])
    && (Offers !in provisioned ==> t.offers == map[])
    && (Contacts !in provisioned ==> t.contacts == map[])
    && t.Keyed()
  }

  class Database {
    /** Whether `init` has succeeded: the handle `this.db` is set. */
    var ready: bool
    var version: nat
    var provisioned: set<StoreName>
    var cars: map<string, Car>
    var parts: map<string, Part>
    var offers: map<string, Offer>
    var contacts: map<string, Contact>

    function State(): Tables
      reads this
    {
      Tables(cars, parts, offers, contacts)
    }

    ghost predicate Valid()
      reads this
    {
      && Persisted(version, provisioned, State())
      && (ready ==> version == DbVersion)
    }

    /** A `Database` object over what the device already holds; its handle is not open yet. */
    constructor (version: nat, provisioned: set<StoreName>, t: Tables)
      requires Persisted(version, provisioned, t)
      ensures Valid() && !ready
      ensures this.version == version && this.provisioned == provisioned && State() == t
    {
      this.ready := false;
      this.version := version;
      this.provisioned := provisioned;
      this.cars := t.cars;
      this.parts := t.parts;
      this.offers := t.offers;
      this.contacts := t.contacts;
    }

    /**
     * Opens the database at version `DbVersion`. An older database is
     * upgraded by creating only the collections it lacks; a newer one
     * cannot be opened. No record is touched either way.
     */
    method Init(available: bool) returns (res: Outcome)
      requires Valid()
      modifies this
      ensures Valid() && State() == old(State())
      ensures !available || old(version) > DbVersion ==>
        && res == Fail(StorageUnavailable)
        && ready == old(ready) && version == old(version) && provisioned == old(provisioned)
      ensures available && old(version) <= DbVersion ==>
        && res == Pass && ready && version == DbVersion
        && provisioned == old(provisioned) + AllStores
        && (Cars !in old(provisioned) ==> cars == map[])
        && (Parts !in old(provisioned) ==> parts == map[])
        && (Offers !in old(provisioned) ==> offers == map[])
        && (Contacts !in old(provisioned) ==> contacts == map[])
    {
      if !available || version > DbVersion {
        return Fail(StorageUnavailable);
      }
      if version < DbVersion {
        // the upgrade handler: create each collection that is missing
        if Cars !in provisioned { provisioned := provisioned + {Cars}; }
        if Parts !in provisioned { provisioned := provisioned + {Parts}; }
        if Offers !in provisioned { provisioned := provisioned + {Offers}; }
        if Contacts !in provisioned { provisioned := provisioned + {Contacts}; }
        version := DbVersion;
        assert provisioned == AllStores by {
          forall n: StoreName ensures n in provisioned && n in AllStores {
            match n {
              case Cars =>
              case Parts =>
              case Offers =>
              case Contacts =>
            }
          }
        }
      }
      ready := true;
      res := Pass;
    }

    /** Every record of collection `name`. */
    method GetAll(name: StoreName) returns (res: Result<set<Record>>)
      requires Valid()
      ensures !ready ==> res == Failure(NotInitialized)
      ensures ready ==> res == Success(State().Table(name).Values)
    {
      if !ready {
        return Failure(NotInitialized);
      }
      res := Success(State().Table(name).Values);
    }

    /** The record stored under `key`, or `None` when there is none: absence is not an error. */
    method GetById(name: StoreName, key: string) returns (res: Result<Option<Record>>)
      requires Valid()
      ensures !ready ==> res == Failure(NotInitialized)
      ensures ready && key in State().Table(name) ==> res == Success(Some(State().Table(name)[key]))
      ensures ready && key !in State().Table(name) ==> res == Success(None)
      ensures ready && res.value.Some? ==> Holds(name, res.value.value) && KeyOf(res.value.value) == key
    {
      if !ready {
        return Failure(NotInitialized);
      }
      var t := State().Table(name);
      res := Success(if key in t then Some(t[key]) else None);
    }

    /** Inserts `r` under its key, or overwrites what is there: last write wins. */
    method Put(name: StoreName, r: Record, commits: bool) returns (res: Outcome)
      requires Valid() && Holds(name, r)
      modifies this
      ensures Valid() && ready == old(ready) && version == old(version) && provisioned == old(provisioned)
      ensures res == (if !old(ready) then Fail(NotInitialized) else if !commits then Fail(TransactionFailure) else Pass)
      ensures State() == if res.Pass? then old(State()).Stored(r) else old(State())
    {
      if !ready {
        return Fail(NotInitialized);
      }
      if !commits {
        return Fail(TransactionFailure);
      }
      match r {
        case CarRecord(c) => cars := cars[c.id := c];
        case PartRecord(p) => parts := parts[p.id := p];
        case OfferRecord(o) => offers := offers[o.id := o];
        case ContactRecord(c) => contacts := contacts[c.phone := c];
      }
      res := Pass;
    }

    /** Removes the record under `key`; a missing key is not an error. */
    method Delete(name: StoreName, key: string, commits: bool) returns (res: Outcome)
      requires Valid()
      modifies this
      ensures Valid() && ready == old(ready) && version == old(version) && provisioned == old(provisioned)
      ensures res == (if !old(ready) then Fail(NotInitialized) else if !commits then Fail(TransactionFailure) else Pass)
      ensures State() == if res.Pass? then old(State()).Without(name, key) else old(State())
    {
      if !ready {
        return Fail(NotInitialized);
      }
      if !commits {
        return Fail(TransactionFailure);
      }
      match name {
        case Cars => cars := cars - {key};
        case Parts => parts := parts - {key};
        case Offers => offers := offers - {key};
        case Contacts => contacts := contacts - {key};
      }
      res := Pass;
    }

    /**
     * Deletes the offers of part `partId`, one request each, then the part.
     * A rejected request ends the cascade there without undoing the deletes
     * before it, so the part outlives none of its offers' removals.
     */
    method DeletePart(partId: string, fault: Fault) returns (res: Outcome)
      requires Valid()
      modifies this
      ensures Valid() && ready == old(ready) && version == old(version) && provisioned == old(provisioned)
      ensures cars == old(cars) && contacts == old(contacts)
      ensures res.Pass? <==>
        old(ready) && Spares(fault, Offers, OffersOf(old(offers), {partId})) && Spares(fault, Parts, {partId})
      ensures !old(ready) ==> res == Fail(NotInitialized) && parts == old(parts) && offers == old(offers)
      ensures old(ready) && res.Fail? ==> res == Fail(TransactionFailure)
      ensures res.Pass? ==>
        && offers == old(offers) - OffersOf(old(offers), {partId})
        && parts == old(parts) - {partId}
      ensures res.Fail? ==> parts == old(parts) && OffersTrimmed(old(offers), offers, {partId})
      ensures Linked(old(cars), old(parts), old(offers)) ==> Linked(cars, parts, offers)
    {
      var all := GetAll(Offers);
      if all.Failure? {
        return Fail(all.error);
      }
      ghost var doomed := OffersOf(offers, {partId});
      var pending := OfferIdsFor(all.value, partId);
      OfferIdsOfTable(State(), partId);
      while pending != {}
        invariant Valid() && ready && version == old(version) && provisioned == old(provisioned)
        invariant cars == old(cars) && parts == old(parts) && contacts == old(contacts)
        invariant pending <= doomed
        invariant offers == old(offers) - (doomed - pending)
        invariant Spares(fault, Offers, doomed - pending)
        decreases pending
      {
        var id :| id in pending;
        var r := Delete(Offers, id, fault != RejectDelete(Offers, id));
        if r.Fail? {
          return r;
        }
        pending := pending - {id};
      }
      assert doomed - pending == doomed;
      PartCascadeLinked(old(cars), old(parts), old(offers), partId);
      res := Delete(Parts, partId, fault != RejectDelete(Parts, partId));
    }

    /**
     * Deletes every part of car `carId` with `DeletePart`, then the car.
     * Children go before their parent: a rejected request leaves the car
     * and the undeleted parts in place, and never a part without its car
     * or an offer without its part.
     */
    method DeleteCar(carId: string, fault: Fault) returns (res: Outcome)
      requires Valid()
      modifies this
      ensures Valid() && ready == old(ready) && version == old(version) && provisioned == old(provisioned)
      ensures contacts == old(contacts)
      ensures res.Pass? <==>
        && old(ready)
        && Spares(fault, Offers, OffersOf(old(offers), PartsOf(old(parts), carId)))
        && Spares(fault, Parts, PartsOf(old(parts), carId))
        && Spares(fault, Cars, {carId})
      ensures !old(ready) ==>
        res == Fail(NotInitialized) && cars == old(cars) && parts == old(parts) && offers == old(offers)
      ensures old(ready) && res.Fail? ==> res == Fail(TransactionFailure)
      ensures res.Pass? ==>
        && cars == old(cars) - {carId}
        && parts == old(parts) - PartsOf(old(parts), carId)
        && offers == old(offers) - OffersOf(old(offers), PartsOf(old(parts), carId))
      ensures res.Fail? ==>
        && cars == old(cars)
        && PartsTrimmed(old(parts), parts, carId)
        && OffersTrimmed(old(offers), offers, PartsOf(old(parts), carId))
      ensures Linked(old(cars), old(parts), old(offers)) ==> Linked(cars, parts, offers)
    {
      var all := GetAll(Parts);
      if all.Failure? {
        return Fail(all.error);
      }
      var pending := PartIdsFor(all.value, carId);
      PartIdsOfTable(State(), carId);
      res := DeleteParts(carId, pending, fault);
      if res.Fail? {
        return;
      }
      CarCascadeLinked(old(cars), old(parts), old(offers), carId);
      res := Delete(Cars, carId, fault != RejectDelete(Cars, carId));
    }

    /**
     * The loop of `DeleteCar`: `DeletePart` for each of the parts `doomed`
     * of car `carId`, stopping at the first failure.
     */
    method DeleteParts(ghost carId: string, doomed: set<string>, fault: Fault) returns (res: Outcome)
      requires Valid() && ready
      requires doomed == PartsOf(parts, carId)
      modifies this
      ensures Valid() && ready && version == old(version) && provisioned == old(provisioned)
      ensures cars == old(cars) && contacts == old(contacts)
      ensures res.Pass? <==> Spares(fault, Offers, OffersOf(old(offers), doomed)) && Spares(fault, Parts, doomed)
      ensures res.Fail? ==> res == Fail(TransactionFailure)
      ensures res.Pass? ==>
        && parts == old(parts) - doomed
        && offers == old(offers) - OffersOf(old(offers), doomed)
      ensures res.Fail? ==> PartsTrimmed(old(parts), parts, carId) && OffersTrimmed(old(offers), offers, doomed)
      ensures Linked(old(cars), old(parts), old(offers)) ==> Linked(cars, parts, offers)
    {
      var pending := doomed;
      while pending != {}
        invariant Valid() && ready && version == old(version) && provisioned == old(provisioned)
        invariant cars == old(cars) && contacts == old(contacts)
        invariant pending <= doomed
        invariant parts == old(parts) - (doomed - pending)
        invariant offers == old(offers) - OffersOf(old(offers), doomed - pending)
        invariant Spares(fault, Parts, doomed - pending)
        invariant Spares(fault, Offers, OffersOf(old(offers), doomed - pending))
        decreases pending
      {
        var id :| id in pending;
        ghost var done := doomed - pending;
        var r := DeletePart(id, fault);
        if r.Fail? {
          StoppedCascade(old(cars), old(parts), old(offers), carId, done, id, offers, fault);
          return r;
        }
        CascadeStep(old(offers), done, id);
        assert doomed - (pending - {id}) == done + {id};
        pending := pending - {id};
      }
      assert doomed - pending == doomed;
      CascadePrefix(old(cars), old(parts), old(offers), carId, doomed);
      res := Pass;
    }

    /**
     * Records a supplier's quote. The offer is stored with its phone reduced
     * to digits, and the contact under that phone is created or merged, in
     * one transaction over both collections: both writes happen or neither.
     */
    method SaveOffer(offer: Offer, car: Car, now: int, freshId: string, commits: bool) returns (res: Outcome)
      requires Valid()
      modifies this
      ensures Valid() && ready == old(ready) && version == old(version) && provisioned == old(provisioned)
      ensures cars == old(cars) && parts == old(parts)
      ensures res == (if !old(ready) then Fail(NotInitialized) else if !commits then Fail(TransactionFailure) else Pass)
      ensures res.Fail? ==> offers == old(offers) && contacts == old(contacts)
      ensures res.Pass? ==>
        var key := NormalizePhone(offer.phone);
        && offers == old(offers)[offer.id := offer.(phone := key)]
        && contacts == old(contacts)[key := MergeContact(Lookup(old(contacts), key), offer, car, now, freshId)]
    {
      if !ready {
        return Fail(NotInitialized);
      }
      var cleanPhone := NormalizePhone(offer.phone);
      var sanitized := offer.(phone := cleanPhone);
      if !commits {
        return Fail(TransactionFailure);
      }
      var contact := MergeContact(Lookup(contacts, cleanPhone), offer, car, now, freshId);
      assert contact.phone == cleanPhone;
      SavedPersisted(version, provisioned, State(), sanitized, contact);
      ghost var after := State().(offers := offers[sanitized.id := sanitized], contacts := contacts[cleanPhone := contact]);
      // the transaction commits both writes at once
      offers, contacts := offers[sanitized.id := sanitized], contacts[cleanPhone := contact];
      assert State() == after;
      res := Pass;
    }
  }

  /** A committed put is read back: `getById` on the record's key returns the record. */
  method PutThenGet(db: Database, name: StoreName, r: Record) returns (got: Result<Option<Record>>)
    requires db.Valid() && db.ready && Holds(name, r)
    modifies db
    ensures got == Success(Some(r))
  {
    var _ := db.Put(name, r, true);
    StoredTable(old(db.State()), name, r);
    got := db.GetById(name, KeyOf(r));
  }

  /**
   * A car deleted without a storage fault is gone, no part refers to it,
   * no offer refers to one of its parts, and the supplier directory is as
   * it was.
   */
  method DeleteCarThenRead(db: Database, carId: string) returns (car: Result<Option<Record>>, parts: Result<set<Record>>)
    requires db.Valid() && db.ready
    modifies db
    ensures car == Success(None)
    ensures parts.Success? && forall r | r in parts.value :: r.PartRecord? && r.part.carId != carId
    ensures forall k | k in db.offers :: db.offers[k].partId !in PartsOf(old(db.parts), carId)
    ensures db.contacts == old(db.contacts)
  {
    var _ := db.DeleteCar(carId, NoFault);
    car := db.GetById(Cars, carId);
    parts := db.GetAll(Parts);
  }

  /** Storing an offer and a contact, each under its own key, keeps a provisioned database persisted. */
  lemma SavedPersisted(version: nat, provisioned: set<StoreName>, t: Tables, o: Offer, c: Contact)
    requires Persisted(version, provisioned, t) && provisioned == AllStores
    ensures Persisted(version, provisioned, t.(offers := t.offers[o.id := o], contacts := t.contacts[c.phone := c]))
  {
  }

  /**
   * `allOffers.filter(o => o.partId === partId)` over what `getAll` read:
   * exactly the keys of the part's offers.
   */
  lemma OfferIdsOfTable(t: Tables, partId: string)
    requires t.Keyed()
    ensures OfferIdsFor(t.Table(Offers).Values, partId) == OffersOf(t.offers, {partId})
  {
    forall k | k in OffersOf(t.offers, {partId}) ensures k in OfferIdsFor(t.Table(Offers).Values, partId) {
      assert k in t.Table(Offers) && t.Table(Offers)[k] == OfferRecord(t.offers[k]);
    }
  }

  /**
   * `allParts.filter(p => p.carId === carId)` over what `getAll` read:
   * exactly the keys of the car's parts.
   */
  lemma PartIdsOfTable(t: Tables, carId: string)
    requires t.Keyed()
    ensures PartIdsFor(t.Table(Parts).Values, carId) == PartsOf(t.parts, carId)
  {
    forall k | k in PartsOf(t.parts, carId) ensures k in PartIdsFor(t.Table(Parts).Values, carId) {
      assert k in t.Table(Parts) && t.Table(Parts)[k] == PartRecord(t.parts[k]);
    }
  }

  /** `contactStore.get(key)`. */
  function Lookup(contacts: map<string, Contact>, key: string): Option<Contact> {
    if key in contacts then Some(contacts[key]) else None
  }

  /**
   * Upsert, last write wins: after a put, the collection maps the record's
   * key to the record, every other key as before, and the other
   * collections are untouched.
   */
  lemma StoredTable(t: Tables, name: StoreName, r: Record)
    requires Holds(name, r)
    ensures t.Stored(r).Table(name) == t.Table(name)[KeyOf(r) := r]
    ensures forall n | n != name :: t.Stored(r).Table(n) == t.Table(n)
  {
  }

  /**
   * A delete removes exactly the key from exactly its collection; deleting a
   * missing key changes nothing.
   */
  lemma WithoutTable(t: Tables, name: StoreName, key: string)
    ensures t.Without(name, key).Table(name) == t.Table(name) - {key}
    ensures forall n | n != name :: t.Without(name, key).Table(n) == t.Table(n)
    ensures key !in t.Table(name) ==> t.Without(name, key) == t
  {
  }

  /**
   * Referential integrity survives a car's cascade: removing the car, its
   * parts and their offers leaves no part without its car and no offer
   * without its part.
   */
  lemma CarCascadeLinked(cars: map<string, Car>, parts: map<string, Part>, offers: map<string, Offer>, carId: string)
    ensures var doomed := PartsOf(parts, carId);
            Linked(cars, parts, offers) ==> Linked(cars - {carId}, parts - doomed, offers - OffersOf(offers, doomed))
  {
    CascadePrefix(cars, parts, offers, carId, PartsOf(parts, carId));
  }

  /**
   * Referential integrity survives a part's cascade: removing the part and
   * its offers leaves no offer without its part.
   */
  lemma PartCascadeLinked(cars: map<string, Car>, parts: map<string, Part>, offers: map<string, Offer>, partId: string)
    ensures Linked(cars, parts, offers) ==> Linked(cars, parts - {partId}, offers - OffersOf(offers, {partId}))
  {
  }

  /**
   * Any point of a car's cascade between two part deletions: with the parts
   * `done` of car `carId` and all their offers gone, only the car's parts and
   * their offers are missing, and integrity still holds.
   */
  lemma CascadePrefix(cars: map<string, Car>, parts: map<string, Part>, offers: map<string, Offer>,
                      carId: string, done: set<string>)
    requires done <= PartsOf(parts, carId)
    ensures PartsTrimmed(parts, parts - done, carId)
    ensures OffersTrimmed(offers, offers - OffersOf(offers, done), PartsOf(parts, carId))
    ensures Linked(cars, parts, offers) ==> Linked(cars, parts - done, offers - OffersOf(offers, done))
  {
  }

  /**
   * A car's cascade stopped inside the cascade of part `id`: what was
   * removed so far are offers of the parts `done` and some offers of `id`.
   */
  lemma TrimmedAcrossParts(offers: map<string, Offer>, done: set<string>, id: string,
                           after: map<string, Offer>, doomed: set<string>)
    requires done + {id} <= doomed
    requires OffersTrimmed(offers - OffersOf(offers, done), after, {id})
    ensures OffersTrimmed(offers, after, doomed)
  {
  }

  /**
   * A car's cascade that stopped inside the cascade of its part `id`, after
   * the parts `done`: only the car's parts and their offers are missing,
   * integrity still holds, and the rejected request was one of the car's.
   */
  lemma StoppedCascade(cars: map<string, Car>, parts: map<string, Part>, offers: map<string, Offer>,
                       carId: string, done: set<string>, id: string, after: map<string, Offer>, fault: Fault)
    requires done + {id} <= PartsOf(parts, carId)
    requires OffersTrimmed(offers - OffersOf(offers, done), after, {id})
    requires !(Spares(fault, Offers, OffersOf(offers - OffersOf(offers, done), {id})) && Spares(fault, Parts, {id}))
    ensures PartsTrimmed(parts, parts - done, carId)
    ensures OffersTrimmed(offers, after, PartsOf(parts, carId))
    ensures !(Spares(fault, Offers, OffersOf(offers, PartsOf(parts, carId))) && Spares(fault, Parts, PartsOf(parts, carId)))
    ensures Linked(cars, parts, offers) ==> Linked(cars, parts - done, offers - OffersOf(offers, done))
  {
    CascadePrefix(cars, parts, offers, carId, done);
    TrimmedAcrossParts(offers, done, id, after, PartsOf(parts, carId));
    CascadeStep(offers, done, id);
  }

  /**
   * One step of a car's cascade: once the offers of the parts `done` are
   * gone, deleting the offers of part `id` leaves exactly the offers of
   * parts outside `done + {id}`, and those are the offers still to go.
   */
  lemma CascadeStep(offers: map<string, Offer>, done: set<string>, id: string)
    ensures var rest := offers - OffersOf(offers, done);
            && rest - OffersOf(rest, {id}) == offers - OffersOf(offers, done + {id})
            && OffersOf(offers, done + {id}) == OffersOf(offers, done) + OffersOf(rest, {id})
            && OffersOf(rest, {id}) <= OffersOf(offers, done + {id})
  {
  }
}

/** The product lifecycle of the expiration-control screen: the product store
    (a map from id to product, standing for the Realm database), the pending
    reminders of the push-notification service (a map from key to fire
    instant), and the product list shown on screen, sorted by expiration. */
module Inventory {
  import opened Text
  import opened Reminders

  /** The name field accepts at most this many characters. */
  const MaxNameLength: nat := 50

  /** A stored product; instants are integer milliseconds. */
  datatype Product = Product(id: string, name: string, expirationDate: int, createdAt: int)

  /** Why adding a product was refused. */
  datatype AddError =
    | EmptyName         // the name is empty or only white space
    | StoreUnavailable  // the database handle is not open
    | DuplicateId       // the store already holds a product with this primary key

  datatype AddResult = Added(product: Product) | Failed(error: AddError)

  /** A name as it is stored: non-empty, trimmed, within the length limit. */
  predicate ValidName(name: string) {
    name != [] && IsTrimmed(name) && |name| <= MaxNameLength
  }

  /** Every stored name is valid. */
  predicate NamesValid(store: map<string, Product>) {
    forall id :: id in store ==> ValidName(store[id].name)
  }

  /** The store is keyed by primary key: each product sits under its own id. */
  predicate WellKeyed(store: map<string, Product>) {
    forall id :: id in store ==> store[id].id == id
  }

  /** Ascending by expiration instant. */
  predicate SortedByExpiration(list: seq<Product>) {
    forall i, j :: 0 <= i < j < |list| ==> list[i].expirationDate <= list[j].expirationDate
  }

  /** `list` shows every stored product exactly once, sorted by expiration. */
  ghost predicate IsListing(list: seq<Product>, store: map<string, Product>) {
    SortedByExpiration(list) && multiset(list) == multiset(store.Values)
  }

  /** Every pending reminder belongs to a stored product, and each stored
      product has exactly the reminders its plan gave it when it was created:
      the key of horizon h is pending, at that horizon's instant, exactly when
      that instant was after the product's creation instant. */
  ghost predicate RemindersMatchStore(store: map<string, Product>, scheduled: map<string, int>) {
    && (forall id, h :: id in store ==>
          (Key(id, h) in scheduled <==> FireAt(store[id].expirationDate, h) > store[id].createdAt))
    && (forall id, h :: id in store && Key(id, h) in scheduled ==>
          scheduled[Key(id, h)] == FireAt(store[id].expirationDate, h))
    && (forall k :: k in scheduled ==> exists id :: id in store && k in ReminderKeys(id))
  }

  /** `p` inserted before the first element that does not expire earlier:
      the list gains exactly one element. */
  function InsertByExpiration(p: Product, list: seq<Product>): (r: seq<Product>)
    ensures multiset(r) == multiset(list) + multiset{p}
  {
    if list == [] || p.expirationDate <= list[0].expirationDate then [p] + list
    else
      assert list == [list[0]] + list[1..];
      [list[0]] + InsertByExpiration(p, list[1..])
  }

  /** Inserting into a sorted list keeps it sorted. */
  lemma {:induction false} InsertKeepsSorted(p: Product, list: seq<Product>)
    requires SortedByExpiration(list)
    ensures SortedByExpiration(InsertByExpiration(p, list))
  {
    if list != [] && p.expirationDate > list[0].expirationDate {
      var rest := InsertByExpiration(p, list[1..]);
      InsertKeepsSorted(p, list[1..]);
      forall i | 0 <= i < |rest| ensures list[0].expirationDate <= rest[i].expirationDate {
        assert rest[i] in multiset(rest);
        if rest[i] != p {
          assert rest[i] in list[1..];
        }
      }
    }
  }

  /** Taking one entry out of a well-keyed map removes exactly its value. */
  lemma RemoveEntryValues(m: map<string, Product>, id: string)
    requires WellKeyed(m) && id in m
    ensures multiset((m - {id}).Values) + multiset{m[id]} == multiset(m.Values)
  {
    var rest := m - {id};
    assert m.Values == rest.Values + {m[id]} by {
      forall v | v in m.Values ensures v in rest.Values + {m[id]} {
        var k :| k in m && m[k] == v;
        if k != id {
          assert rest[k] == v;
        }
      }
    }
    assert m[id] !in rest.Values;
  }

  /** The store's products sorted ascending by expiration instant. */
  method SortedListing(store: map<string, Product>) returns (list: seq<Product>)
    requires WellKeyed(store)
    ensures IsListing(list, store)
  {
    list := [];
    var rest := store;
    while rest != map[]
      invariant forall id :: id in rest ==> id in store && rest[id] == store[id]
      invariant SortedByExpiration(list)
      invariant multiset(list) + multiset(rest.Values) == multiset(store.Values)
      decreases |rest|
    {
      var id :| id in rest;
      RemoveEntryValues(rest, id);
      InsertKeepsSorted(rest[id], list);
      list := InsertByExpiration(rest[id], list);
      rest := rest - {id};
    }
    assert rest.Values == {};
  }

  /** Adding a product that is not yet stored, with its plan scheduled at its
      creation instant, keeps the reminders in step with the store. */
  lemma AddKeepsRemindersMatched(store: map<string, Product>, scheduled: map<string, int>, p: Product)
    requires RemindersMatchStore(store, scheduled)
    requires p.id !in store
    ensures RemindersMatchStore(store[p.id := p],
                                ScheduleAll(scheduled, Plan(p.id, p.expirationDate, p.createdAt)))
  {
    var store' := store[p.id := p];
    var scheduled' := ScheduleAll(scheduled, Plan(p.id, p.expirationDate, p.createdAt));
    ScheduleAllPlan(scheduled, p.id, p.expirationDate, p.createdAt);
    AbsentProductHasNoReminders(store, scheduled, p.id);
    forall id, h | id in store'
      ensures Key(id, h) in scheduled' <==> FireAt(store'[id].expirationDate, h) > store'[id].createdAt
      ensures Key(id, h) in scheduled' ==> scheduled'[Key(id, h)] == FireAt(store'[id].expirationDate, h)
    {
      if id != p.id && Key(id, h) in ReminderKeys(p.id) {
        KeyOwnerUnique(Key(id, h), id, p.id);
      }
    }
    forall k | k in scheduled' ensures exists id :: id in store' && k in ReminderKeys(id) {
      if k !in ReminderKeys(p.id) {
        var owner :| owner in store && k in ReminderKeys(owner);
        assert owner in store';
      } else {
        assert p.id in store';
      }
    }
  }

  /** Removing a product and cancelling its three keys keeps the reminders in
      step with the store. */
  lemma DeleteKeepsRemindersMatched(store: map<string, Product>, scheduled: map<string, int>, id: string)
    requires RemindersMatchStore(store, scheduled)
    ensures RemindersMatchStore(store - {id}, scheduled - ReminderKeys(id))
  {
    var store' := store - {id};
    var scheduled' := scheduled - ReminderKeys(id);
    forall other, h | other in store'
      ensures Key(other, h) !in ReminderKeys(id)
    {
      if Key(other, h) in ReminderKeys(id) {
        KeyOwnerUnique(Key(other, h), other, id);
      }
    }
    forall k | k in scheduled' ensures exists o :: o in store' && k in ReminderKeys(o) {
      var owner :| owner in store && k in ReminderKeys(owner);
      assert owner in store';
    }
  }

  /** A product that is not stored has none of its keys pending. */
  lemma AbsentProductHasNoReminders(store: map<string, Product>, scheduled: map<string, int>, id: string)
    requires RemindersMatchStore(store, scheduled)
    requires id !in store
    ensures forall h :: Key(id, h) !in scheduled
  {
    forall h ensures Key(id, h) !in scheduled {
      if Key(id, h) in scheduled {
        var owner :| owner in store && Key(id, h) in ReminderKeys(owner);
        KeyOwnerUnique(Key(id, h), id, owner);
      }
    }
  }

  /** The invariant of the screen's state: records sit under their ids, names
      are valid, reminders are in step with the store, and the list shown is
      the store sorted by expiration. */
  ghost predicate ValidState(store: map<string, Product>, scheduled: map<string, int>, products: seq<Product>) {
    && WellKeyed(store)
    && NamesValid(store)
    && RemindersMatchStore(store, scheduled)
    && IsListing(products, store)
  }

  /** Storing a fresh product with a valid name, scheduling its plan at its
      creation instant and reloading the list keeps the invariant. */
  lemma AddKeepsValid(store: map<string, Product>, scheduled: map<string, int>, products: seq<Product>, p: Product)
    requires WellKeyed(store) && NamesValid(store)
    requires RemindersMatchStore(store, scheduled)
    requires p.id !in store && ValidName(p.name)
    requires IsListing(products, store[p.id := p])
    ensures ValidState(store[p.id := p], ScheduleAll(scheduled, Plan(p.id, p.expirationDate, p.createdAt)), products)
  {
    AddKeepsRecordsValid(store, p);
    AddKeepsRemindersMatched(store, scheduled, p);
  }

  /** Storing a fresh product with a valid name under its own id keeps every
      record under its id and every stored name valid. */
  lemma AddKeepsRecordsValid(store: map<string, Product>, p: Product)
    requires WellKeyed(store) && NamesValid(store)
    requires ValidName(p.name)
    ensures WellKeyed(store[p.id := p])
    ensures NamesValid(store[p.id := p])
  {
  }

  /** Removing a product, cancelling its keys and reloading the list keeps the invariant. */
  lemma DeleteKeepsValid(store: map<string, Product>, scheduled: map<string, int>, products: seq<Product>, id: string)
    requires WellKeyed(store) && NamesValid(store)
    requires RemindersMatchStore(store, scheduled)
    requires IsListing(products, store - {id})
    ensures ValidState(store - {id}, scheduled - ReminderKeys(id), products)
  {
    DeleteKeepsRecordsValid(store, id);
    DeleteKeepsRemindersMatched(store, scheduled, id);
  }

  /** Removing an entry keeps every record under its id and every stored name valid. */
  lemma DeleteKeepsRecordsValid(store: map<string, Product>, id: string)
    requires WellKeyed(store) && NamesValid(store)
    ensures WellKeyed(store - {id})
    ensures NamesValid(store - {id})
  {
  }

  /** Deleting a product right after adding it restores both the store and
      the pending reminders: the three cancels remove everything the add scheduled. */
  lemma AddThenDeleteRestores(store: map<string, Product>, scheduled: map<string, int>, p: Product)
    requires RemindersMatchStore(store, scheduled)
    requires p.id !in store
    ensures store[p.id := p] - {p.id} == store
    ensures ScheduleAll(scheduled, Plan(p.id, p.expirationDate, p.createdAt)) - ReminderKeys(p.id) == scheduled
  {
    var after := ScheduleAll(scheduled, Plan(p.id, p.expirationDate, p.createdAt));
    ScheduleAllPlan(scheduled, p.id, p.expirationDate, p.createdAt);
    AbsentProductHasNoReminders(store, scheduled, p.id);
    forall k | k in ReminderKeys(p.id) ensures k !in scheduled {
      var h :| k == Key(p.id, h);
    }
    assert (after - ReminderKeys(p.id)).Keys == scheduled.Keys;
  }

  /** A listing holds exactly the stored products. */
  lemma ListingShowsStore(list: seq<Product>, store: map<string, Product>, p: Product)
    requires IsListing(list, store)
    ensures p in list <==> p in store.Values
  {
    assert p in list <==> p in multiset(list);
  }

  /** The screen's state: the store, the notification service's pending
      reminders, and the list shown. */
  class Tracker {
    /** Whether the database handle has been opened. */
    const storeAvailable: bool
    /** The product records, by primary key. */
    var store: map<string, Product>
    /** The notification service's pending reminders: key to fire instant. */
    var scheduled: map<string, int>
    /** The product list on screen. */
    var products: seq<Product>

    ghost predicate Valid()
      reads this
    {
      ValidState(store, scheduled, products)
    }

    constructor (storeAvailable: bool)
      ensures Valid()
      ensures this.storeAvailable == storeAvailable
      ensures store == map[] && scheduled == map[] && products == []
    {
      this.storeAvailable := storeAvailable;
      store := map[];
      scheduled := map[];
      products := [];
    }

    /** Reload the list shown on screen from the store. */
    method LoadProducts()
      requires WellKeyed(store)
      modifies this`products
      ensures IsListing(products, store)
    {
      products := SortedListing(store);
    }

    /** Issue the schedule calls of a product's reminder plan, seen at `now`. */
    method ScheduleNotifications(p: Product, now: int)
      modifies this`scheduled
      ensures scheduled == ScheduleAll(old(scheduled), Plan(p.id, p.expirationDate, now))
    {
      var expDate := p.expirationDate;
      ghost var issued: seq<Reminder> := [];

      if expDate > now {
        assert [Reminder(Key(p.id, AtExpiration), expDate)][..0] == [];
        scheduled := scheduled[Key(p.id, AtExpiration) := expDate];
        issued := issued + [Reminder(Key(p.id, AtExpiration), expDate)];
      }
      assert scheduled == ScheduleAll(old(scheduled), issued);

      var sevenDaysBefore := expDate - 7 * Expiration.DAY;
      if sevenDaysBefore > now {
        assert (issued + [Reminder(Key(p.id, SevenDaysBefore), sevenDaysBefore)])[..|issued|] == issued;
        scheduled := scheduled[Key(p.id, SevenDaysBefore) := sevenDaysBefore];
        issued := issued + [Reminder(Key(p.id, SevenDaysBefore), sevenDaysBefore)];
      }
      assert scheduled == ScheduleAll(old(scheduled), issued);

      var thirtyDaysBefore := expDate - 30 * Expiration.DAY;
      if thirtyDaysBefore > now {
        assert (issued + [Reminder(Key(p.id, ThirtyDaysBefore), thirtyDaysBefore)])[..|issued|] == issued;
        scheduled := scheduled[Key(p.id, ThirtyDaysBefore) := thirtyDaysBefore];
        issued := issued + [Reminder(Key(p.id, ThirtyDaysBefore), thirtyDaysBefore)];
      }
      assert scheduled == ScheduleAll(old(scheduled), issued);
      assert issued == Plan(p.id, p.expirationDate, now);
    }

    /** Register a product named `name` expiring at `expirationDate`, under the
        fresh id `id`, at instant `now`. */
    method Add(name: string, expirationDate: int, id: string, now: int) returns (r: AddResult)
      requires Valid()
      requires |name| <= MaxNameLength
      modifies this
      ensures Valid()
      ensures r == Failed(EmptyName) <==> AllWhitespace(name)
      ensures r == Failed(StoreUnavailable) <==> !AllWhitespace(name) && !storeAvailable
      ensures r == Failed(DuplicateId) <==> !AllWhitespace(name) && storeAvailable && id in old(store)
      ensures r.Failed? ==> store == old(store) && scheduled == old(scheduled) && products == old(products)
      ensures r.Added? <==> !AllWhitespace(name) && storeAvailable && id !in old(store)
      ensures r.Added? ==> r.product == Product(id, Trim(name), expirationDate, now)
      ensures r.Added? ==> store == old(store)[id := r.product]
      ensures r.Added? ==> scheduled == ScheduleAll(old(scheduled), Plan(id, expirationDate, now))
    {
      var trimmed := Trim(name);
      TrimEmptyIff(name);
      if trimmed == [] {
        return Failed(EmptyName);
      }
      if !storeAvailable {
        return Failed(StoreUnavailable);
      }
      if id in store {
        // creating a second record with the same primary key throws
        return Failed(DuplicateId);
      }
      var p := Product(id, trimmed, expirationDate, now);
      CreateAndSchedule(p);
      r := Added(p);
    }

    /** The database write that adds a product (create the record, schedule
        its reminders at its creation instant), followed by the list reload
        that runs once the write has returned. */
    method CreateAndSchedule(p: Product)
      requires Valid()
      requires p.id !in store && ValidName(p.name)
      modifies this`store, this`scheduled, this`products
      ensures Valid()
      ensures store == old(store)[p.id := p]
      ensures scheduled == ScheduleAll(old(scheduled), Plan(p.id, p.expirationDate, p.createdAt))
    {
      ghost var store0, scheduled0 := store, scheduled;
      store := store[p.id := p];
      assert WellKeyed(store);
      ScheduleNotifications(p, p.createdAt);
      LoadProducts();
      AddKeepsValid(store0, scheduled0, products, p);
    }

    /** The confirmed deletion of the product with id `id`. */
    method Delete(id: string) returns (ok: bool)
      requires Valid()
      modifies this
      ensures Valid()
      ensures ok == storeAvailable
      ensures !ok ==> store == old(store) && scheduled == old(scheduled) && products == old(products)
      ensures ok ==> store == old(store) - {id}
      ensures ok ==> scheduled == old(scheduled) - ReminderKeys(id)
      ensures ok && id !in old(store) ==> scheduled == old(scheduled)
      ensures ok ==> forall h :: Key(id, h) !in scheduled
    {
      if !storeAvailable {
        return false;
      }
      if id in store {
        RemoveAndCancel(id);
      } else {
        // the record is not found: nothing is removed and nothing cancelled
        AbsentProductHasNoReminders(store, scheduled, id);
        assert scheduled == scheduled - ReminderKeys(id);
        assert store == store - {id};
        LoadProducts();
      }
      AbsentProductHasNoReminders(store, scheduled, id);
      ok := true;
    }

    /** The database write that deletes a found product (remove the record,
        cancel its three reminder keys), followed by the list reload that runs
        once the write has returned. */
    method RemoveAndCancel(id: string)
      requires Valid()
      requires id in store
      modifies this`store, this`scheduled, this`products
      ensures Valid()
      ensures store == old(store) - {id}
      ensures scheduled == old(scheduled) - ReminderKeys(id)
    {
      ghost var store0, scheduled0 := store, scheduled;
      store := store - {id};
      var pending := scheduled;
      pending := pending - {Key(id, AtExpiration)};
      pending := pending - {Key(id, SevenDaysBefore)};
      pending := pending - {Key(id, ThirtyDaysBefore)};
      CancelKeysInTurn(scheduled0, id);
      scheduled := pending;
      assert WellKeyed(store);
      LoadProducts();
      DeleteKeepsValid(store0, scheduled0, products, id);
    }
  }
}

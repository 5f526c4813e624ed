/**
  The object-database facade: save, find and delete application objects
  against the store, which a `DatastoreDb` holds as its table.
 */
module ObjectDb {
  import opened Wrappers
  import opened Entities
  import opened Store

  // ---------------------------------------------------------------------
  // What the write operations leave in the table
  // ---------------------------------------------------------------------

  /**
    Saving `o` into `t`: the table then holds one record at `o`'s key, and it
    decodes to `o`; every other key is as it was.
   */
  function Saved(t: Table, o: Obj): (r: Table)
    requires Mappable(o)
    ensures ToEntity(o).value.key in r
    ensures FromEntity(o.cls, Entity(ToEntity(o).value.key, r[ToEntity(o).value.key])) == o
    ensures forall k :: k != ToEntity(o).value.key ==> (k in r <==> k in t)
    ensures forall k :: k != ToEntity(o).value.key && k in t ==> r[k] == t[k]
  {
    var e := ToEntity(o).value;
    EntityRoundTrip(o);
    t[e.key := e.properties]
  }

  /** Saving each object of `os` in turn, first to last. */
  function SaveEach(t: Table, os: seq<Obj>): Table
    requires forall i :: 0 <= i < |os| ==> Mappable(os[i])
  {
    if os == [] then t else Saved(SaveEach(t, os[..|os| - 1]), os[|os| - 1])
  }

  /** Deleting `o` from `t`: its key is gone and every other key is as it was. */
  function Deleted(t: Table, o: Obj): (r: Table)
    requires Mappable(o)
    ensures ToEntity(o).value.key !in r
    ensures forall k :: k != ToEntity(o).value.key ==> (k in r <==> k in t)
    ensures forall k :: k in r ==> r[k] == t[k]
  {
    t - {ToEntity(o).value.key}
  }

  /** Deleting each object of `os` in turn, first to last. */
  function DeleteEach(t: Table, os: seq<Obj>): Table
    requires forall i :: 0 <= i < |os| ==> Mappable(os[i])
  {
    if os == [] then t else Deleted(DeleteEach(t, os[..|os| - 1]), os[|os| - 1])
  }

  /** The entities of a batch of objects, or `None` as soon as one cannot be mapped. */
  function ToEntities(os: seq<Obj>): (r: Option<seq<Entity>>)
    ensures r.Some? <==> forall i :: 0 <= i < |os| ==> Mappable(os[i])
    ensures r.Some? ==> |r.value| == |os| && forall i :: 0 <= i < |os| ==> r.value[i] == ToEntity(os[i]).value
  {
    if os == [] then Some([])
    else
      var init := ToEntities(os[..|os| - 1]);
      var last := ToEntity(os[|os| - 1]);
      if init.None? || last.None? then None else Some(init.value + [last.value])
  }

  /** The keys of a batch of objects, or `None` as soon as one has no identifier. */
  function ObjectKeys(os: seq<Obj>): (r: Option<seq<Key>>)
    ensures r.Some? <==> forall i :: 0 <= i < |os| ==> Mappable(os[i])
    ensures r.Some? ==> |r.value| == |os| && forall i :: 0 <= i < |os| ==> r.value[i] == ToEntity(os[i]).value.key
  {
    if os == [] then Some([])
    else
      var init := ObjectKeys(os[..|os| - 1]);
      var last := DatastoreDb.ObjectKey(os[|os| - 1]);
      if init.None? || last.None? then None else Some(init.value + [last.value])
  }

  // ---------------------------------------------------------------------
  // What the read operations return
  // ---------------------------------------------------------------------

  /** `o` is the decoding, as class `cls`, of a stored record of `cls`'s kind that `filter` admits. */
  ghost predicate Yields(t: Table, cls: ClassDesc, filter: Option<Filter>, o: Obj) {
    exists k :: Selected(t, EntityKind(cls), filter, k) && o == FromEntity(cls, Entity(k, t[k]))
  }

  /** Every (field, value) pair of the constraints holds in the record. */
  predicate SatisfiesAll(rec: Record, constraints: map<string, Value>) {
    forall name :: name in constraints ==> name in rec && rec[name] == constraints[name]
  }

  /** The stored keys of the given kind whose records satisfy every constraint. */
  function KeysWhere(t: Table, kind: string, constraints: map<string, Value>): set<Key> {
    set k | k in t && k.kind == kind && SatisfiesAll(t[k], constraints)
  }

  /** `o` is the decoding, as class `cls`, of a stored record of `cls`'s kind that satisfies every constraint. */
  ghost predicate YieldsWhere(t: Table, cls: ClassDesc, constraints: map<string, Value>, o: Obj) {
    exists k :: k in t && k.kind == EntityKind(cls) && SatisfiesAll(t[k], constraints) && o == FromEntity(cls, Entity(k, t[k]))
  }

  /** `o` is the object of class `cls` stored under one of `ids`. */
  ghost predicate StoredForSomeId(t: Table, cls: ClassDesc, ids: seq<Ident>, o: Obj) {
    exists j :: 0 <= j < |ids| && Key(EntityKind(cls), ids[j]) in t && o == DecodedAt(t, cls, ids[j])
  }

  /** The positions in `ids` whose key in `cls`'s kind is stored. */
  function StoredIdPositions(t: Table, cls: ClassDesc, ids: seq<Ident>): set<nat> {
    set j: nat | j < |ids| && Key(EntityKind(cls), ids[j]) in t
  }

  /** One equality filter per constraint, and nothing else. */
  predicate EqualityFiltersFor(fs: seq<Filter>, constraints: map<string, Value>) {
    && |fs| == |constraints|
    && (forall i :: 0 <= i < |fs| ==>
          fs[i].PropertyEq? && fs[i].name in constraints && constraints[fs[i].name] == fs[i].value)
    && (forall name :: name in constraints ==> PropertyEq(name, constraints[name]) in fs)
  }

  /** Decodes each entity as an object of class `cls`. */
  function DecodeAll(cls: ClassDesc, es: seq<Entity>): seq<Obj> {
    seq(|es|, i requires 0 <= i < |es| => FromEntity(cls, es[i]))
  }

  /** The object stored under `id` in `cls`'s kind, decoded as `cls`. */
  function DecodedAt(t: Table, cls: ClassDesc, id: Ident): Obj
    requires Key(EntityKind(cls), id) in t
  {
    var k := Key(EntityKind(cls), id);
    FromEntity(cls, Entity(k, t[k]))
  }

  /** The objects a batch lookup of `keys` gives when the store answers in the order `answer`. */
  function Answered(t: Table, cls: ClassDesc, keys: seq<Key>, answer: seq<nat>): seq<Obj>
    requires AnswerOrder(answer, |LookupAll(t, keys)|)
  {
    DecodeAll(cls, Arrange(LookupAll(t, keys), answer))
  }

  /** The objects stored under `ids`, in the order of the ids. */
  function ObjectsAt(t: Table, cls: ClassDesc, ids: seq<Ident>): seq<Obj>
    requires forall j :: 0 <= j < |ids| ==> Key(EntityKind(cls), ids[j]) in t
  {
    seq(|ids|, j requires 0 <= j < |ids| => DecodedAt(t, cls, ids[j]))
  }

  class DatastoreDb {
    /** The contents of the store this facade writes to and reads from. */
    var table: Table

    /** A facade over a store that already holds `initial`. */
    constructor (initial: Table)
      ensures table == initial
    {
      table := initial;
    }

    /**
      The key an object is deleted under: the kind of its class and its
      identifier. It is the very key saving the object writes to.
     */
    static function ObjectKey(o: Obj): (k: Option<Key>)
      ensures k.Some? <==> ToEntity(o).Some?
      ensures k.Some? ==> k.value == ToEntity(o).value.key
    {
      match GetObjectId(o)
      case None => None
      case Some(id) => Some(Key(EntityKind(o.cls), id))
    }

    static function FirstOrNull<T>(xs: seq<T>): Option<T> {
      if xs == [] then None else Some(xs[0])
    }

    /**
      Upserts `o`. An object without a usable identifier cannot be mapped
      and leaves the store as it was.
     */
    method Save(o: Obj) returns (mapped: bool)
      modifies this
      ensures mapped == Mappable(o)
      ensures table == if mapped then Saved(old(table), o) else old(table)
      ensures mapped ==> FindById(o.cls, GetObjectId(o).value) == Some(o)
    {
      var e := ToEntity(o);
      if e.None? {
        return false;
      }
      table := table[e.value.key := e.value.properties];
      mapped := true;
    }

    /**
      Upserts a batch in one request. Every object is mapped first, so one
      unmappable object leaves the store as it was.
     */
    method SaveAll(os: seq<Obj>) returns (mapped: bool)
      modifies this
      ensures mapped == forall i :: 0 <= i < |os| ==> Mappable(os[i])
      ensures table == if mapped then SaveEach(old(table), os) else old(table)
    {
      var entities := ToEntities(os);
      if entities.None? {
        return false;
      }
      SaveAllIsSaveEach(table, os, entities.value);
      table := UpsertAll(table, entities.value);
      mapped := true;
    }

    /**
      Up to `limit` objects of class `cls`, in the store's order: the first
      `limit` objects of the kind the scan meets, and all of them when there
      are fewer.
     */
    function Find(cls: ClassDesc, limit: nat, order: seq<Key>): (r: seq<Obj>)
      reads this
      requires ScanOrder(order, table)
      ensures |r| <= limit
      ensures |r| == Min(limit, |SelectedKeys(table, EntityKind(cls), None)|)
      ensures forall i :: 0 <= i < |r| ==> Yields(table, cls, None, r[i])
      ensures |r| <= |Scan(table, order, EntityKind(cls), None)|
      ensures forall i :: 0 <= i < |r| ==> r[i] == FromEntity(cls, Scan(table, order, EntityKind(cls), None)[i])
      ensures |r| < limit ==>
        forall k :: k in table && k.kind == EntityKind(cls) ==> FromEntity(cls, Entity(k, table[k])) in r
      ensures r == [] <==> limit == 0 || forall k :: k in table ==> k.kind != EntityKind(cls)
    {
      FindByFilter(cls, None, limit, order)
    }

    /** Some object of class `cls`, or `None` exactly when the store holds none of its kind. */
    function FindOne(cls: ClassDesc, order: seq<Key>): (r: Option<Obj>)
      reads this
      requires ScanOrder(order, table)
      ensures r.None? <==> forall k :: k in table ==> k.kind != EntityKind(cls)
      ensures r.Some? ==> Yields(table, cls, None, r.value)
    {
      FirstOrNull(FindByFilter(cls, None, 1, order))
    }

    /**
      Up to `limit` objects of class `cls` whose records `filter` admits, in
      the store's order: the first `limit` such objects the scan meets, and
      all of them when there are fewer.
     */
    function FindByFilter(cls: ClassDesc, filter: Option<Filter>, limit: nat, order: seq<Key>): (r: seq<Obj>)
      reads this
      requires ScanOrder(order, table)
      ensures |r| <= limit
      ensures |r| == Min(limit, |SelectedKeys(table, EntityKind(cls), filter)|)
      ensures forall i :: 0 <= i < |r| ==> Yields(table, cls, filter, r[i])
      ensures |r| <= |Scan(table, order, EntityKind(cls), filter)|
      ensures forall i :: 0 <= i < |r| ==> r[i] == FromEntity(cls, Scan(table, order, EntityKind(cls), filter)[i])
      ensures |r| < limit ==>
        forall k :: Selected(table, EntityKind(cls), filter, k) ==> FromEntity(cls, Entity(k, table[k])) in r
      ensures r == [] <==> limit == 0 || forall k :: k in table ==> !Selected(table, EntityKind(cls), filter, k)
    {
      var es := Query(table, order, EntityKind(cls), filter, limit);
      DecodedYield(table, cls, filter, es);
      DecodedEach(cls, es);
      DecodeAll(cls, es)
    }

    /**
      Turns a constraint map into one equality filter per entry, in whatever
      order the map is walked.
     */
    static method ConstraintFilters(constraints: map<string, Value>) returns (filters: seq<Filter>)
      ensures EqualityFiltersFor(filters, constraints)
    {
      filters := [];
      var rest := constraints.Keys;
      while rest != {}
        invariant rest <= constraints.Keys
        invariant |filters| + |rest| == |constraints|
        invariant forall i :: 0 <= i < |filters| ==>
          filters[i].PropertyEq? && filters[i].name in constraints.Keys - rest &&
          constraints[filters[i].name] == filters[i].value
        invariant forall name :: name in constraints.Keys - rest ==> PropertyEq(name, constraints[name]) in filters
        decreases rest
      {
        var name :| name in rest;
        filters := filters + [PropertyEq(name, constraints[name])];
        rest := rest - {name};
      }
    }

    /**
      Up to `limit` objects of class `cls` whose records satisfy every
      constraint: the constraints are ANDed. The result does not depend on
      the order the constraint map is walked in.
     */
    method FindByConstraints(cls: ClassDesc, constraints: map<string, Value>, limit: nat, order: seq<Key>)
      returns (r: seq<Obj>)
      requires ScanOrder(order, table)
      ensures |r| <= limit
      ensures |r| == Min(limit, |KeysWhere(table, EntityKind(cls), constraints)|)
      ensures forall i :: 0 <= i < |r| ==> YieldsWhere(table, cls, constraints, r[i])
      ensures |r| < limit ==>
        forall k :: k in KeysWhere(table, EntityKind(cls), constraints) ==> FromEntity(cls, Entity(k, table[k])) in r
      ensures r == [] <==>
        limit == 0 || forall k :: k in table && k.kind == EntityKind(cls) ==> !SatisfiesAll(table[k], constraints)
      ensures forall fs :: EqualityFiltersFor(fs, constraints) ==>
        r == FindByFilter(cls, Some(AllOf(fs)), limit, order)
    {
      var filters := ConstraintFilters(constraints);
      r := FindByFilter(cls, Some(AllOf(filters)), limit, order);
      forall rec
        ensures Admits(Some(AllOf(filters)), rec) <==> SatisfiesAll(rec, constraints)
      {
        AllOfMatchesConstraints(filters, constraints, rec);
      }
      SameSelection(table, EntityKind(cls), filters, constraints);
      forall i | 0 <= i < |r|
        ensures YieldsWhere(table, cls, constraints, r[i])
      {
        var k :| Selected(table, EntityKind(cls), Some(AllOf(filters)), k) && r[i] == FromEntity(cls, Entity(k, table[k]));
      }
      forall fs | EqualityFiltersFor(fs, constraints)
        ensures r == FindByFilter(cls, Some(AllOf(fs)), limit, order)
      {
        forall rec
          ensures Admits(Some(AllOf(fs)), rec) == Admits(Some(AllOf(filters)), rec)
        {
          AllOfMatchesConstraints(fs, constraints, rec);
        }
        ScanSameFilter(table, order, EntityKind(cls), Some(AllOf(fs)), Some(AllOf(filters)));
      }
    }

    /** Some object of class `cls` satisfying every constraint, or `None` when there is none. */
    method FindOneByConstraints(cls: ClassDesc, constraints: map<string, Value>, order: seq<Key>)
      returns (r: Option<Obj>)
      requires ScanOrder(order, table)
      ensures r.None? <==> forall k :: k in table && k.kind == EntityKind(cls) ==> !SatisfiesAll(table[k], constraints)
      ensures r.Some? ==> YieldsWhere(table, cls, constraints, r.value)
    {
      var found := FindByConstraints(cls, constraints, 1, order);
      r := FirstOrNull(found);
    }

    /**
      The stored objects of class `cls` for the given ids: one per id that
      has a stored object, none for an id that has not, in the order
      `answer` the store answers in.
     */
    function FindByIds(cls: ClassDesc, ids: seq<Ident>, answer: seq<nat>): (r: seq<Obj>)
      reads this
      requires AnswerOrder(answer, |StoredIdPositions(table, cls, ids)|)
      ensures |r| <= |ids| && |r| == |StoredIdPositions(table, cls, ids)|
      ensures forall i :: 0 <= i < |r| ==> StoredForSomeId(table, cls, ids, r[i])
      ensures forall j :: 0 <= j < |ids| && Key(EntityKind(cls), ids[j]) in table ==> DecodedAt(table, cls, ids[j]) in r
      ensures (forall j :: 0 <= j < |ids| ==> Key(EntityKind(cls), ids[j]) in table) ==>
        AnswerOrder(answer, |ids|) && r == Arrange(ObjectsAt(table, cls, ids), answer) &&
        multiset(r) == multiset(ObjectsAt(table, cls, ids))
      ensures (forall j :: 0 <= j < |ids| ==> Key(EntityKind(cls), ids[j]) in table) ==>
        (forall i :: 0 <= i < |answer| ==> answer[i] == 0) ==> r == ObjectsAt(table, cls, ids)
      ensures cls.idRule.IdMember? && Distinct(ids) ==> Distinct(r)
    {
      var keys := seq(|ids|, i requires 0 <= i < |ids| => Key(EntityKind(cls), ids[i]));
      LookupAllCount(table, keys);
      assert StoredPositions(table, keys) == StoredIdPositions(table, cls, ids);
      LookedUpDecoded(table, cls, ids, keys, answer);
      LookedUpComplete(table, cls, ids, keys, answer);
      LookedUpAllStored(table, cls, ids, keys, answer);
      LookedUpDistinct(table, cls, ids, keys, answer);
      Answered(table, cls, keys, answer)
    }

    /** The object of class `cls` stored under `id`, or `None` when nothing is stored there. */
    function FindById(cls: ClassDesc, id: Ident): (r: Option<Obj>)
      reads this
      ensures r.None? <==> Key(EntityKind(cls), id) !in table
      ensures r.Some? ==> r.value == DecodedAt(table, cls, id)
    {
      match Lookup(table, Key(EntityKind(cls), id))
      case None => None
      case Some(e) => Some(FromEntity(cls, e))
    }

    /** Removes `o`'s record; every other record stays. */
    method Delete(o: Obj) returns (mapped: bool)
      modifies this
      ensures mapped == Mappable(o)
      ensures table == if mapped then Deleted(old(table), o) else old(table)
      ensures mapped ==> FindById(o.cls, GetObjectId(o).value).None?
    {
      var k := ObjectKey(o);
      if k.None? {
        return false;
      }
      table := table - {k.value};
      mapped := true;
    }

    /**
      Removes the record of every object of the batch in one request. Every
      key is computed first, so one unmappable object leaves the store as it
      was.
     */
    method DeleteAll(os: seq<Obj>) returns (mapped: bool)
      modifies this
      ensures mapped == forall i :: 0 <= i < |os| ==> Mappable(os[i])
      ensures table == if mapped then DeleteEach(old(table), os) else old(table)
      ensures mapped ==> forall i :: 0 <= i < |os| ==> ToEntity(os[i]).value.key !in table
    {
      var keys := ObjectKeys(os);
      if keys.None? {
        return false;
      }
      DeleteAllIsDeleteEach(table, os, keys.value);
      table := Store.DeleteAll(table, keys.value);
      mapped := true;
    }
  }

  // ---------------------------------------------------------------------
  // Lemmas
  // ---------------------------------------------------------------------

  /** Decoding the entities of a query gives objects that the query yields. */
  lemma DecodedYield(t: Table, cls: ClassDesc, filter: Option<Filter>, es: seq<Entity>)
    requires forall i :: 0 <= i < |es| ==>
      Selected(t, EntityKind(cls), filter, es[i].key) && es[i].properties == t[es[i].key]
    ensures |DecodeAll(cls, es)| == |es|
    ensures forall i :: 0 <= i < |es| ==> Yields(t, cls, filter, DecodeAll(cls, es)[i])
  {
    forall i | 0 <= i < |es|
      ensures Yields(t, cls, filter, DecodeAll(cls, es)[i])
    {
      var k := es[i].key;
      assert DecodeAll(cls, es)[i] == FromEntity(cls, Entity(k, t[k]));
    }
  }

  /** Decoding the entities of a batch lookup gives objects stored under the requested ids, whatever the answer order. */
  lemma LookedUpDecoded(t: Table, cls: ClassDesc, ids: seq<Ident>, keys: seq<Key>, answer: seq<nat>)
    requires keys == seq(|ids|, i requires 0 <= i < |ids| => Key(EntityKind(cls), ids[i]))
    requires AnswerOrder(answer, |LookupAll(t, keys)|)
    ensures |Answered(t, cls, keys, answer)| == |LookupAll(t, keys)|
    ensures forall i :: 0 <= i < |Answered(t, cls, keys, answer)| ==>
      StoredForSomeId(t, cls, ids, Answered(t, cls, keys, answer)[i])
  {
    var inOrder := DecodeAll(cls, LookupAll(t, keys));
    var r := Answered(t, cls, keys, answer);
    InOrderDecoded(t, cls, ids, keys);
    DecodeArranged(cls, LookupAll(t, keys), answer);
    ArrangeMembers(inOrder, answer);
    forall i | 0 <= i < |r|
      ensures StoredForSomeId(t, cls, ids, r[i])
    {
      assert r[i] in inOrder;
    }
  }

  /** Decoding the entities of the in-order batch lookup gives objects stored under the requested ids. */
  lemma InOrderDecoded(t: Table, cls: ClassDesc, ids: seq<Ident>, keys: seq<Key>)
    requires keys == seq(|ids|, i requires 0 <= i < |ids| => Key(EntityKind(cls), ids[i]))
    ensures forall o :: o in DecodeAll(cls, LookupAll(t, keys)) ==> StoredForSomeId(t, cls, ids, o)
  {
    var es := LookupAll(t, keys);
    var r := DecodeAll(cls, es);
    forall i | 0 <= i < |r|
      ensures StoredForSomeId(t, cls, ids, r[i])
    {
      var j :| 0 <= j < |keys| && keys[j] == es[i].key;
      assert r[i] == FromEntity(cls, es[i]);
      assert es[i] == Entity(keys[j], t[keys[j]]);
      assert Key(EntityKind(cls), ids[j]) in t;
      assert r[i] == DecodedAt(t, cls, ids[j]);
    }
  }

  /** Decoding a sequence of entities decodes each of them, in place. */
  lemma DecodedEach(cls: ClassDesc, es: seq<Entity>)
    ensures forall e :: e in es ==> FromEntity(cls, e) in DecodeAll(cls, es)
  {
    forall e | e in es
      ensures FromEntity(cls, e) in DecodeAll(cls, es)
    {
      var i :| 0 <= i < |es| && es[i] == e;
      assert DecodeAll(cls, es)[i] == FromEntity(cls, e);
    }
  }

  /** Decoding commutes with the store's answer order: decoding the answered entities answers the decoded objects. */
  lemma {:induction false} DecodeArranged(cls: ClassDesc, es: seq<Entity>, answer: seq<nat>)
    requires AnswerOrder(answer, |es|)
    ensures DecodeAll(cls, Arrange(es, answer)) == Arrange(DecodeAll(cls, es), answer)
    decreases |es|
  {
    if es != [] {
      var p := answer[0];
      var rest := es[..p] + es[p + 1..];
      var os := DecodeAll(cls, es);
      AnswerOrderTail(answer, |es|);
      DecodeArranged(cls, rest, answer[1..]);
      assert DecodeAll(cls, rest) == os[..p] + os[p + 1..];
      assert DecodeAll(cls, [es[p]] + Arrange(rest, answer[1..])) ==
        [os[p]] + DecodeAll(cls, Arrange(rest, answer[1..]));
    }
  }

  /** A batch lookup by ids finds the object of every id that has one stored, whatever the answer order. */
  lemma LookedUpComplete(t: Table, cls: ClassDesc, ids: seq<Ident>, keys: seq<Key>, answer: seq<nat>)
    requires keys == seq(|ids|, i requires 0 <= i < |ids| => Key(EntityKind(cls), ids[i]))
    requires AnswerOrder(answer, |LookupAll(t, keys)|)
    ensures forall j :: 0 <= j < |ids| && Key(EntityKind(cls), ids[j]) in t ==>
      DecodedAt(t, cls, ids[j]) in Answered(t, cls, keys, answer)
  {
    var es := LookupAll(t, keys);
    LookupAllComplete(t, keys);
    DecodedEach(cls, es);
    forall j | 0 <= j < |ids| && Key(EntityKind(cls), ids[j]) in t
      ensures DecodedAt(t, cls, ids[j]) in DecodeAll(cls, es)
    {
      assert keys[j] == Key(EntityKind(cls), ids[j]);
    }
    DecodeArranged(cls, es, answer);
    ArrangeMembers(DecodeAll(cls, es), answer);
  }

  /**
    When every id is stored, a batch lookup by ids answers the objects of
    the ids, one per id, in the store's answer order, and so in the order
    of the ids when the store answers in order.
   */
  lemma LookedUpAllStored(t: Table, cls: ClassDesc, ids: seq<Ident>, keys: seq<Key>, answer: seq<nat>)
    requires keys == seq(|ids|, i requires 0 <= i < |ids| => Key(EntityKind(cls), ids[i]))
    requires AnswerOrder(answer, |LookupAll(t, keys)|)
    ensures (forall j :: 0 <= j < |ids| ==> Key(EntityKind(cls), ids[j]) in t) ==>
      AnswerOrder(answer, |ids|) && Answered(t, cls, keys, answer) == Arrange(ObjectsAt(t, cls, ids), answer) &&
      multiset(Answered(t, cls, keys, answer)) == multiset(ObjectsAt(t, cls, ids))
    ensures (forall j :: 0 <= j < |ids| ==> Key(EntityKind(cls), ids[j]) in t) ==>
      (forall i :: 0 <= i < |answer| ==> answer[i] == 0) ==> Answered(t, cls, keys, answer) == ObjectsAt(t, cls, ids)
  {
    if forall j :: 0 <= j < |ids| ==> Key(EntityKind(cls), ids[j]) in t {
      var es := LookupAll(t, keys);
      LookupAllStored(t, keys);
      assert DecodeAll(cls, es) == ObjectsAt(t, cls, ids);
      DecodeArranged(cls, es, answer);
      ArrangePermutes(ObjectsAt(t, cls, ids), answer);
      ArrangeInOrder(ObjectsAt(t, cls, ids), answer);
    }
  }

  /** For a class keyed by its `id` member, a batch lookup of different ids answers different objects, whatever the answer order. */
  lemma LookedUpDistinct(t: Table, cls: ClassDesc, ids: seq<Ident>, keys: seq<Key>, answer: seq<nat>)
    requires keys == seq(|ids|, i requires 0 <= i < |ids| => Key(EntityKind(cls), ids[i]))
    requires AnswerOrder(answer, |LookupAll(t, keys)|)
    ensures cls.idRule.IdMember? && Distinct(ids) ==> Distinct(Answered(t, cls, keys, answer))
  {
    if cls.idRule.IdMember? && Distinct(ids) {
      InOrderDistinct(t, cls, ids, keys);
      DecodeArranged(cls, LookupAll(t, keys), answer);
      ArrangeDistinct(DecodeAll(cls, LookupAll(t, keys)), answer);
    }
  }

  /** For a class keyed by its `id` member, the in-order batch lookup of different ids gives different objects. */
  lemma InOrderDistinct(t: Table, cls: ClassDesc, ids: seq<Ident>, keys: seq<Key>)
    requires keys == seq(|ids|, i requires 0 <= i < |ids| => Key(EntityKind(cls), ids[i]))
    requires cls.idRule.IdMember? && Distinct(ids)
    ensures Distinct(DecodeAll(cls, LookupAll(t, keys)))
  {
    assert Distinct(keys);
    LookupAllDistinct(t, keys);
    var es := LookupAll(t, keys);
    var r := DecodeAll(cls, es);
    forall i, j | 0 <= i < j < |r|
      ensures r[i] != r[j]
    {
      assert es[i].key.kind == es[j].key.kind by {
        var a :| 0 <= a < |keys| && keys[a] == es[i].key;
        var b :| 0 <= b < |keys| && keys[b] == es[j].key;
      }
      assert r[i].fields[ID_FIELD] == IdentValue(es[i].key.id);
      assert r[j].fields[ID_FIELD] == IdentValue(es[j].key.id);
    }
  }

  /** Looking up one stored id and one missing id answers exactly the stored object. */
  lemma FindByIdsSkipsMissing(db: DatastoreDb, cls: ClassDesc, stored: Ident, missing: Ident)
    requires Key(EntityKind(cls), stored) in db.table && Key(EntityKind(cls), missing) !in db.table
    ensures StoredIdPositions(db.table, cls, [stored, missing]) == {0}
    ensures db.FindByIds(cls, [stored, missing], [0]) == [DecodedAt(db.table, cls, stored)]
  {
    var ids := [stored, missing];
    assert StoredIdPositions(db.table, cls, ids) == {0};
    var r := db.FindByIds(cls, ids, [0]);
    assert StoredForSomeId(db.table, cls, ids, r[0]);
  }

  /** The equality filters of a constraint map, ANDed, select exactly the keys whose records satisfy every constraint. */
  lemma SameSelection(t: Table, kind: string, fs: seq<Filter>, constraints: map<string, Value>)
    requires EqualityFiltersFor(fs, constraints)
    ensures forall k :: Selected(t, kind, Some(AllOf(fs)), k) <==> k in KeysWhere(t, kind, constraints)
    ensures SelectedKeys(t, kind, Some(AllOf(fs))) == KeysWhere(t, kind, constraints)
  {
    forall k | k in t
      ensures Matches(AllOf(fs), t[k]) <==> SatisfiesAll(t[k], constraints)
    {
      AllOfMatchesConstraints(fs, constraints, t[k]);
    }
  }

  /** The equality filters of a constraint map, ANDed, admit exactly the records satisfying every constraint. */
  lemma AllOfMatchesConstraints(fs: seq<Filter>, constraints: map<string, Value>, rec: Record)
    requires EqualityFiltersFor(fs, constraints)
    ensures Matches(AllOf(fs), rec) <==> SatisfiesAll(rec, constraints)
  {
    if Matches(AllOf(fs), rec) {
      forall name | name in constraints
        ensures name in rec && rec[name] == constraints[name]
      {
        assert Matches(PropertyEq(name, constraints[name]), rec);
      }
    }
    if SatisfiesAll(rec, constraints) {
      forall g | g in fs
        ensures Matches(g, rec)
      {
        var i :| 0 <= i < |fs| && fs[i] == g;
      }
    }
  }

  /** A batch upsert of the objects' entities leaves the table as saving them one by one in order. */
  lemma {:induction false} SaveAllIsSaveEach(t: Table, os: seq<Obj>, es: seq<Entity>)
    requires ToEntities(os) == Some(es)
    ensures forall i :: 0 <= i < |os| ==> Mappable(os[i])
    ensures UpsertAll(t, es) == SaveEach(t, os)
    decreases |os|
  {
    if os == [] {
      UpsertAllEmpty(t);
    } else {
      var init := os[..|os| - 1];
      var e := ToEntity(os[|os| - 1]).value;
      assert ToEntities(init).Some?;
      var initEs := ToEntities(init).value;
      assert es == initEs + [e];
      SaveAllIsSaveEach(t, init, initEs);
      UpsertAllSnoc(t, initEs, e);
    }
  }

  /** A batch delete of the objects' keys leaves the table as deleting them one by one. */
  lemma {:induction false} DeleteAllIsDeleteEach(t: Table, os: seq<Obj>, keys: seq<Key>)
    requires ObjectKeys(os) == Some(keys)
    ensures forall i :: 0 <= i < |os| ==> Mappable(os[i])
    ensures Store.DeleteAll(t, keys) == DeleteEach(t, os)
    decreases |os|
  {
    if os != [] {
      var init := os[..|os| - 1];
      assert ObjectKeys(init).Some?;
      var initKeys := ObjectKeys(init).value;
      assert keys == initKeys + [ToEntity(os[|os| - 1]).value.key];
      DeleteAllIsDeleteEach(t, init, initKeys);
    }
  }

  /** Saving again under the same key overwrites: only the latest save is kept (upsert). */
  lemma SaveOverwrites(t: Table, o1: Obj, o2: Obj)
    requires Mappable(o1) && Mappable(o2)
    requires ToEntity(o1).value.key == ToEntity(o2).value.key
    ensures Saved(Saved(t, o1), o2) == Saved(t, o2)
  {
  }

  /**
    After saving a batch, each object of it is stored under its key and reads
    back as itself, unless a later object of the batch has the same key.
   */
  lemma {:induction false} SaveEachKeepsLast(t: Table, os: seq<Obj>, i: nat)
    requires forall j :: 0 <= j < |os| ==> Mappable(os[j])
    requires i < |os|
    requires forall j :: i < j < |os| ==> ToEntity(os[j]).value.key != ToEntity(os[i]).value.key
    ensures ToEntity(os[i]).value.key in SaveEach(t, os)
    ensures FromEntity(os[i].cls, Entity(ToEntity(os[i]).value.key, SaveEach(t, os)[ToEntity(os[i]).value.key])) == os[i]
    decreases |os|
  {
    if i < |os| - 1 {
      SaveEachKeepsLast(t, os[..|os| - 1], i);
    }
  }

  /** `findOne` answers with the first object `find` would list, for any positive limit. */
  lemma FindOneIsFirstFound(db: DatastoreDb, cls: ClassDesc, n: nat, order: seq<Key>)
    requires ScanOrder(order, db.table) && n >= 1
    ensures db.FindOne(cls, order).None? <==> db.Find(cls, n, order) == []
    ensures db.FindOne(cls, order).Some? ==> db.FindOne(cls, order).value == db.Find(cls, n, order)[0]
  {
    QueryPrefix(db.table, order, EntityKind(cls), None, 1, n);
  }

  /** Once the only object of its kind is deleted, `findOne` for that kind answers `None`. */
  lemma FindOneAfterDelete(db: DatastoreDb, t: Table, o: Obj, order: seq<Key>)
    requires Mappable(o) && db.table == Deleted(t, o)
    requires forall k :: k in t && k.kind == EntityKind(o.cls) ==> k == ToEntity(o).value.key
    requires ScanOrder(order, db.table)
    ensures db.FindOne(o.cls, order).None?
  {
  }
}

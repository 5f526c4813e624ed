/**
  The object-to-record mapping the database facade relies on: the kind of a
  class, the identifier of an object, and the conversion of an object to a
  stored entity and back. The reflective mapper itself is not part of this
  model; these functions state what the facade needs of it.
 */
module Entities {
  import opened Wrappers
  import opened Decimal
  import Follower

  /** A stored property value: a `long`, a string or a boolean. */
  datatype Value = IntVal(i: Long) | StrVal(s: string) | BoolVal(b: bool)

  /** The properties of one stored entity, by name. */
  type Record = map<string, Value>

  /** A key's identifier: a numeric id or a string name. */
  datatype Ident = LongId(n: Long) | NameId(name: string)

  /** A key: the kind of the object's class and the object's identifier. */
  datatype Key = Key(kind: string, id: Ident)

  /** One stored entity: its key and its properties. */
  datatype Entity = Entity(key: Key, properties: Record)

  /**
    Where a class keeps its identifier: in a member named `id` (a field or
    an `id()` accessor returning a stored value), or in an `id()` accessor
    that joins two `long` fields with ':' the way `Follower.id()` does.
   */
  datatype IdRule = IdMember | PairKey(left: string, right: string)

  /** A mapped class: its simple name and where its identifier comes from. */
  datatype ClassDesc = ClassDesc(name: string, idRule: IdRule)

  /** An application object: its class and its field values by name. */
  datatype Obj = Obj(cls: ClassDesc, fields: map<string, Value>)

  const ID_FIELD: string := "id"

  /** The kind of a class: a fixed function of the class alone. */
  function EntityKind(cls: ClassDesc): string {
    cls.name
  }

  /** The value an identifier takes as a field. */
  function IdentValue(id: Ident): Value {
    match id
    case LongId(n) => IntVal(n)
    case NameId(s) => StrVal(s)
  }

  /**
    The identifier of an object, or `None` when it has none that can key a
    record (a missing or boolean `id`, or a missing pair field).
   */
  function GetObjectId(o: Obj): Option<Ident> {
    match o.cls.idRule
    case IdMember =>
      if ID_FIELD !in o.fields then None
      else (match o.fields[ID_FIELD]
        case IntVal(n) => Some(LongId(n))
        case StrVal(s) => Some(NameId(s))
        case BoolVal(_) => None)
    case PairKey(left, right) =>
      if left in o.fields && right in o.fields && o.fields[left].IntVal? && o.fields[right].IntVal? then
        Some(NameId(Follower.Follower(o.fields[left].i, o.fields[right].i).Id()))
      else None
  }

  predicate Mappable(o: Obj) {
    GetObjectId(o).Some?
  }

  /**
    The entity an object is saved as: keyed by its kind and identifier. An
    identifier held in `id` lives in the key only; every other field becomes
    a property.
   */
  function ToEntity(o: Obj): (e: Option<Entity>)
    ensures e.Some? <==> Mappable(o)
    ensures e.Some? ==> e.value.key.kind == EntityKind(o.cls) && e.value.key.id == GetObjectId(o).value
  {
    match GetObjectId(o)
    case None => None
    case Some(id) =>
      var properties := if o.cls.idRule.IdMember? then o.fields - {ID_FIELD} else o.fields;
      Some(Entity(Key(EntityKind(o.cls), id), properties))
  }

  /**
    A fresh object of class `cls` built from a stored entity: its properties
    become fields, and an `id` member is set from the key.
   */
  function FromEntity(cls: ClassDesc, e: Entity): Obj {
    if cls.idRule.IdMember? then Obj(cls, e.properties[ID_FIELD := IdentValue(e.key.id)])
    else Obj(cls, e.properties)
  }

  /** Decoding a saved object's entity gives back every field value it was saved with. */
  lemma EntityRoundTrip(o: Obj)
    requires Mappable(o)
    ensures FromEntity(o.cls, ToEntity(o).value) == o
  {
    var e := ToEntity(o).value;
    if o.cls.idRule.IdMember? {
      assert IdentValue(e.key.id) == o.fields[ID_FIELD];
      assert e.properties[ID_FIELD := IdentValue(e.key.id)] == o.fields;
    }
  }

  /** The mapped class of `Follower`: keyed by `id()`, which joins `userId` and `followerId`. */
  const FOLLOWER_CLASS: ClassDesc := ClassDesc("Follower", PairKey("userId", "followerId"))

  /** A `Follower` as an application object. */
  function FollowerObject(f: Follower.Follower): (o: Obj)
    ensures o.cls == FOLLOWER_CLASS && Mappable(o)
    ensures GetObjectId(o) == Some(NameId(f.Id()))
  {
    Obj(FOLLOWER_CLASS, map["userId" := IntVal(f.userId), "followerId" := IntVal(f.followerId)])
  }

  /**
    In the store, the no-duplicates claim: two followers are saved under the
    same key exactly when they are the same (user, follower) pair.
   */
  lemma FollowerKeysUnique(f: Follower.Follower, g: Follower.Follower)
    ensures ToEntity(FollowerObject(f)).value.key == ToEntity(FollowerObject(g)).value.key <==> f == g
  {
    Follower.IdInjective(f, g);
  }
}

/**
  The facade's test cases as client code: each method drives a fresh
  `DatastoreDb` and states the answers the tests expect, which follow from
  the facade's contracts alone.
 */
module Scenarios {
  import opened Wrappers
  import opened Entities
  import opened Store
  import opened ObjectDb
  import Follower

  /** A class keyed by a numeric `id` field, with one other `long` field. */
  const CURSOR_CLASS: ClassDesc := ClassDesc("FollowersCursor", IdMember)
  const USER_CLASS: ClassDesc := ClassDesc("User", IdMember)

  function Cursor(id: Decimal.Long, cursor: Decimal.Long): (o: Obj)
    ensures Mappable(o) && ToEntity(o).value.key == Key("FollowersCursor", LongId(id))
  {
    Obj(CURSOR_CLASS, map["id" := IntVal(id), "cursor" := IntVal(cursor)])
  }

  function User(id: Decimal.Long, depthGoal: Decimal.Long): (o: Obj)
    ensures Mappable(o) && ToEntity(o).value.key == Key("User", LongId(id))
  {
    Obj(USER_CLASS, map["id" := IntVal(id), "depthGoal" := IntVal(depthGoal)])
  }

  /** Save one object, find it as the one object of its kind, delete it, and find nothing. */
  method SaveFindOneAndDelete() returns (before: Option<Obj>, saved: Option<Obj>, after: Option<Obj>)
    ensures before == None
    ensures saved == Some(Cursor(1, 10))
    ensures after == None
  {
    var cursor := Cursor(1, 10);
    var k := ToEntity(cursor).value.key;
    var db := new DatastoreDb(map[]);
    before := db.FindOne(CURSOR_CLASS, []);
    var ok := db.Save(cursor);
    assert db.table.Keys == {k};
    saved := db.FindOne(CURSOR_CLASS, [k]);
    ok := db.Delete(cursor);
    after := db.FindOne(CURSOR_CLASS, []);
  }

  /** Saving a batch of two saves the first, then the second. */
  lemma SaveEachOfTwo(t: Table, a: Obj, b: Obj)
    requires Mappable(a) && Mappable(b)
    ensures SaveEach(t, [a, b]) == Saved(Saved(t, a), b)
    ensures SaveEach(t, [a, b])
      == t[ToEntity(a).value.key := ToEntity(a).value.properties][ToEntity(b).value.key := ToEntity(b).value.properties]
  {
    assert [a, b][..1] == [a] && [a][..0] == [];
    assert SaveEach(t, [a]) == Saved(SaveEach(t, []), a);
  }

  /** The key a follower is saved under. */
  function FollowerKey(f: Follower.Follower): (k: Key)
    ensures ToEntity(FollowerObject(f)) == Some(Entity(k, FollowerObject(f).fields))
  {
    Key("Follower", NameId(f.Id()))
  }

  /** A fresh facade after saving two different followers in one batch, and a scan order for it. */
  method SaveTwoFollowers(a: Follower.Follower, b: Follower.Follower, swap: bool) returns (db: DatastoreDb, order: seq<Key>)
    requires a != b
    ensures db.table == TwoFollowers(a, b)
    ensures FollowerKey(a) != FollowerKey(b)
    ensures ScanOrder(order, db.table)
  {
    db := new DatastoreDb(map[]);
    var ok := db.SaveAll([FollowerObject(a), FollowerObject(b)]);
    TwoFollowersSaved(a, b);
    order := TwoFollowersOrder(a, b, swap);
  }

  lemma TwoFollowersSaved(a: Follower.Follower, b: Follower.Follower)
    ensures forall i :: 0 <= i < 2 ==> Mappable([FollowerObject(a), FollowerObject(b)][i])
    ensures SaveEach(map[], [FollowerObject(a), FollowerObject(b)]) == TwoFollowers(a, b)
  {
    SaveTwoInto(map[], FollowerObject(a), Entity(FollowerKey(a), FollowerObject(a).fields), FollowerObject(b), Entity(FollowerKey(b), FollowerObject(b).fields));
  }

  /** Saving a batch of two objects writes exactly their two entities, the second last. */
  lemma SaveTwoInto(t: Table, a: Obj, ea: Entity, b: Obj, eb: Entity)
    requires ToEntity(a) == Some(ea) && ToEntity(b) == Some(eb)
    ensures forall i :: 0 <= i < 2 ==> Mappable([a, b][i])
    ensures SaveEach(t, [a, b]) == t[ea.key := ea.properties][eb.key := eb.properties]
  {
    SaveEachOfTwo(t, a, b);
  }

  /** Either order of two different followers' keys is a scan order of the store holding them. */
  function TwoFollowersOrder(a: Follower.Follower, b: Follower.Follower, swap: bool): (order: seq<Key>)
    requires a != b
    ensures FollowerKey(a) != FollowerKey(b)
    ensures ScanOrder(order, TwoFollowers(a, b))
  {
    Follower.IdInjective(a, b);
    TwoKeysOrder(FollowerKey(a), FollowerObject(a).fields, FollowerKey(b), FollowerObject(b).fields, swap);
    if swap then [FollowerKey(b), FollowerKey(a)] else [FollowerKey(a), FollowerKey(b)]
  }

  lemma TwoKeysOrder(ka: Key, ra: Record, kb: Key, rb: Record, swap: bool)
    requires ka != kb
    ensures ScanOrder(if swap then [kb, ka] else [ka, kb], map[ka := ra, kb := rb])
  {
  }

  function TwoFollowers(a: Follower.Follower, b: Follower.Follower): Table {
    map[FollowerKey(a) := FollowerObject(a).fields, FollowerKey(b) := FollowerObject(b).fields]
  }

  /** The constraints "user id is `u`". */
  function ByUser(u: Decimal.Long): map<string, Value> {
    map["userId" := IntVal(u)]
  }

  /** The constraints "user id and follower id are `g`'s", which the test passes as one map. */
  function ByPair(g: Follower.Follower): map<string, Value> {
    map["userId" := IntVal(g.userId), "followerId" := IntVal(g.followerId)]
  }

  /** A follower satisfies a constraint on the user id alone exactly when its user id is that one. */
  lemma UserConstraint(f: Follower.Follower, u: Decimal.Long)
    ensures SatisfiesAll(FollowerObject(f).fields, ByUser(u)) <==> f.userId == u
  {
    assert "userId" in ByUser(u);
  }

  /** Constraints on both ids are ANDed: a follower satisfies them exactly when it is that pair. */
  lemma PairConstraint(f: Follower.Follower, g: Follower.Follower)
    ensures SatisfiesAll(FollowerObject(f).fields, ByPair(g)) <==> f == g
  {
    assert "userId" in ByPair(g) && "followerId" in ByPair(g);
  }

  /** In a store of two followers, a constrained find that only one of them satisfies answers with that one. */
  lemma TwoFollowersWhere(a: Follower.Follower, b: Follower.Follower, c: map<string, Value>, o: Obj)
    requires YieldsWhere(TwoFollowers(a, b), FOLLOWER_CLASS, c, o)
    ensures !SatisfiesAll(FollowerObject(b).fields, c) ==> o == FollowerObject(a)
    ensures !SatisfiesAll(FollowerObject(a).fields, c) ==> o == FollowerObject(b)
  {
    TwoRecordsWhere(FollowerKey(a), FollowerObject(a).fields, FollowerKey(b), FollowerObject(b).fields, FOLLOWER_CLASS, c, o);
  }

  /** The generic step: the yielded object decodes one of the two records, and only a record that satisfies the constraints. */
  lemma TwoRecordsWhere(ka: Key, ra: Record, kb: Key, rb: Record, cls: ClassDesc, c: map<string, Value>, o: Obj)
    requires YieldsWhere(map[ka := ra, kb := rb], cls, c, o)
    ensures !SatisfiesAll(rb, c) ==> o == FromEntity(cls, Entity(ka, ra))
    ensures !SatisfiesAll(ra, c) ==> o == FromEntity(cls, Entity(kb, rb))
  {
  }

  /** In a store of two records of one kind, nothing satisfies the constraints exactly when neither record does. */
  lemma TwoRecordsNone(ka: Key, ra: Record, kb: Key, rb: Record, kind: string, c: map<string, Value>)
    requires ka != kb && ka.kind == kind && kb.kind == kind
    ensures (forall k :: k in map[ka := ra, kb := rb] && k.kind == kind ==> !SatisfiesAll(map[ka := ra, kb := rb][k], c))
      <==> !SatisfiesAll(ra, c) && !SatisfiesAll(rb, c)
  {
    var t := map[ka := ra, kb := rb];
    assert t[ka] == ra && t[kb] == rb;
  }

  /**
    The constrained-find test, for any two followers `a` and `b` with
    different user ids (the test saves (3, 4) and (5, 6)), in either scan
    order: constraining the user id to `a`'s finds `a`.
   */
  method FindByUserId(a: Follower.Follower, b: Follower.Follower, swap: bool) returns (found: Option<Obj>)
    requires a.userId != b.userId
    ensures found == Some(FollowerObject(a))
  {
    var db, order := SaveTwoFollowers(a, b, swap);
    UserConstraint(a, a.userId);
    UserConstraint(b, a.userId);
    TwoRecordsNone(FollowerKey(a), FollowerObject(a).fields, FollowerKey(b), FollowerObject(b).fields, "Follower", ByUser(a.userId));
    found := db.FindOneByConstraints(FOLLOWER_CLASS, ByUser(a.userId), order);
    TwoFollowersWhere(a, b, ByUser(a.userId), found.value);
  }

  /** Continuing the same test: constraining both ids to `b`'s finds `b`. */
  method FindByBothIds(a: Follower.Follower, b: Follower.Follower, swap: bool) returns (found: Option<Obj>)
    requires a != b
    ensures found == Some(FollowerObject(b))
  {
    var db, order := SaveTwoFollowers(a, b, swap);
    PairConstraint(a, b);
    PairConstraint(b, b);
    TwoRecordsNone(FollowerKey(a), FollowerObject(a).fields, FollowerKey(b), FollowerObject(b).fields, "Follower", ByPair(b));
    found := db.FindOneByConstraints(FOLLOWER_CLASS, ByPair(b), order);
    TwoFollowersWhere(a, b, ByPair(b), found.value);
  }

  /** Continuing the same test: constraining both ids to a pair that is neither finds nothing (the test asks for (-5, 6)). */
  method FindByOtherIds(a: Follower.Follower, b: Follower.Follower, other: Follower.Follower, swap: bool)
    returns (none: Option<Obj>)
    requires a != b && other != a && other != b
    ensures none == None
  {
    var db, order := SaveTwoFollowers(a, b, swap);
    PairConstraint(a, other);
    PairConstraint(b, other);
    TwoRecordsNone(FollowerKey(a), FollowerObject(a).fields, FollowerKey(b), FollowerObject(b).fields, "Follower", ByPair(other));
    none := db.FindOneByConstraints(FOLLOWER_CLASS, ByPair(other), order);
  }

  /**
    Save two users in one batch, look both up by id, and put the two found
    users in id order, as the test does before checking each one. The store
    answers in id order, or swapped when `swap` holds; the reordering as the
    test writes it gives the same two users only in the first case.
   */
  method FindByIds(swap: bool) returns (users: seq<Obj>, found1: Obj, found2: Obj)
    ensures users == if swap then [User(2, 1), User(1, 2)] else [User(1, 2), User(2, 1)]
    ensures found1 == User(1, 2) && found2 == User(2, 1)
    ensures OrderByIdAsWritten(users[0], users[1]) == if swap then (User(2, 1), User(2, 1)) else (User(1, 2), User(2, 1))
  {
    var u1, u2 := User(1, 2), User(2, 1);
    var db := new DatastoreDb(map[]);
    var ok := db.SaveAll([u1, u2]);
    SaveEachOfTwo(map[], u1, u2);
    TwoUsersFound(db, swap);
    users := db.FindByIds(USER_CLASS, [LongId(1), LongId(2)], if swap then [1, 0] else [0, 0]);
    OrderTwoFound(users, swap);
    var ordered := OrderById(users[0], users[1]);
    found1, found2 := ordered.0, ordered.1;
  }

  /** Looking up users 1 and 2 after their batch save answers both, in the store's answer order. */
  lemma TwoUsersFound(db: DatastoreDb, swap: bool)
    requires db.table == Saved(Saved(map[], User(1, 2)), User(2, 1))
    ensures AnswerOrder(if swap then [1, 0] else [0, 0], |StoredIdPositions(db.table, USER_CLASS, [LongId(1), LongId(2)])|)
    ensures db.FindByIds(USER_CLASS, [LongId(1), LongId(2)], if swap then [1, 0] else [0, 0])
      == if swap then [User(2, 1), User(1, 2)] else [User(1, 2), User(2, 1)]
  {
    TwoUsersStored(db.table);
    ArrangeTwo(User(1, 2), User(2, 1), swap);
  }

  /**
    The two found users in either answer order: reordered by id they are
    user 1 then user 2; the reordering as written agrees on the in-order
    answer and loses user 1 from the swapped one.
   */
  lemma OrderTwoFound(users: seq<Obj>, swap: bool)
    requires users == if swap then [User(2, 1), User(1, 2)] else [User(1, 2), User(2, 1)]
    ensures OrderById(users[0], users[1]) == (User(1, 2), User(2, 1))
    ensures OrderByIdAsWritten(users[0], users[1]) == if swap then (User(2, 1), User(2, 1)) else (User(1, 2), User(2, 1))
  {
    if swap {
      OrderByIdAsWrittenLosesUser();
      OrderByIdEitherOrder(User(2, 1), User(1, 2));
    } else {
      OrderByIdEitherOrder(User(1, 2), User(2, 1));
    }
  }

  /** After the batch save of users 1 and 2, both ids are stored, and they hold those users. */
  lemma TwoUsersStored(t: Table)
    requires t == Saved(Saved(map[], User(1, 2)), User(2, 1))
    ensures StoredIdPositions(t, USER_CLASS, [LongId(1), LongId(2)]) == {0, 1}
    ensures forall j :: 0 <= j < 2 ==> Key(EntityKind(USER_CLASS), [LongId(1), LongId(2)][j]) in t
    ensures ObjectsAt(t, USER_CLASS, [LongId(1), LongId(2)]) == [User(1, 2), User(2, 1)]
  {
    var k1 := Key("User", LongId(1));
    var t1 := Saved(map[], User(1, 2));
    assert t[k1] == t1[k1];
    assert StoredIdPositions(t, USER_CLASS, [LongId(1), LongId(2)]) == {0, 1};
  }

  /** Two results answered in order, or swapped. */
  lemma ArrangeTwo<T>(x: T, y: T, swap: bool)
    ensures AnswerOrder(if swap then [1, 0] else [0, 0], 2)
    ensures Arrange([x, y], if swap then [1, 0] else [0, 0]) == if swap then [y, x] else [x, y]
  {
    var answer: seq<nat> := if swap then [1, 0] else [0, 0];
    assert AnswerOrder(answer, 2);
    ArrangeCons([x, y], answer[0], answer[1..]);
    assert answer == [answer[0]] + answer[1..];
    assert AnswerOrder(answer[1..], 1);
    ArrangeCons(if swap then [x] else [y], 0, []);
    assert answer[1..] == [0] + [];
    if swap {
      assert [x, y][..1] + [x, y][2..] == [x];
    } else {
      assert [x, y][..0] + [x, y][1..] == [y];
    }
  }

  /** The `id` a user object answers with. */
  function UserId(o: Obj): int {
    if ID_FIELD in o.fields && o.fields[ID_FIELD].IntVal? then o.fields[ID_FIELD].i else 0
  }

  /**
    The test's reordering of the two found users, as written: when the first
    has the larger id, the intended swap assigns the first user to both.
   */
  function OrderByIdAsWritten(found1: Obj, found2: Obj): (Obj, Obj) {
    if UserId(found1) > UserId(found2) then
      var temp := found1;
      var second := found1;
      (temp, second)
    else (found1, found2)
  }

  /**
    When the store answers the larger id first, the reordering as written
    loses the user with the smaller id: both places hold the same user.
   */
  lemma OrderByIdAsWrittenLosesUser()
    ensures OrderByIdAsWritten(User(2, 1), User(1, 2)) == (User(2, 1), User(2, 1))
    ensures multiset{User(2, 1), User(2, 1)} != multiset{User(2, 1), User(1, 2)}
  {
    assert UserId(User(2, 1)) == 2 && UserId(User(1, 2)) == 1;
    assert User(2, 1) != User(1, 2) by {
      assert User(2, 1).fields["id"] != User(1, 2).fields["id"];
    }
  }

  /** Puts two found users in id order: both users are kept, the smaller id first. */
  function OrderById(found1: Obj, found2: Obj): (r: (Obj, Obj))
    ensures UserId(r.0) <= UserId(r.1)
    ensures multiset{r.0, r.1} == multiset{found1, found2}
  {
    if UserId(found1) > UserId(found2) then (found2, found1) else (found1, found2)
  }

  /** Whichever order the store answers the two users in, the reordering gives user 1 then user 2. */
  lemma OrderByIdEitherOrder(a: Obj, b: Obj)
    requires multiset{a, b} == multiset{User(1, 2), User(2, 1)}
    ensures OrderById(a, b) == (User(1, 2), User(2, 1))
  {
    var r := OrderById(a, b);
    assert UserId(User(1, 2)) == 1 && UserId(User(2, 1)) == 2;
    assert User(1, 2) != User(2, 1) by {
      assert User(1, 2).fields["id"] != User(2, 1).fields["id"];
    }
    assert r.0 in multiset{User(1, 2), User(2, 1)} && r.1 in multiset{User(1, 2), User(2, 1)};
  }

  /** Look a user up by id before and after saving it. */
  method FindById() returns (before: Option<Obj>, after: Option<Obj>)
    ensures before == None
    ensures after == Some(User(8, 5))
  {
    var db := new DatastoreDb(map[]);
    before := db.FindById(USER_CLASS, LongId(8));
    var ok := db.Save(User(8, 5));
    after := db.FindById(USER_CLASS, LongId(8));
  }
}

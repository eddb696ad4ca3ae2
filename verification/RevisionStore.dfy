/** The part of the store that holds fleets and their revisions. Each method is
    one atomic step under the store's mutex (one transaction on Postgres). */
module RevisionStore {
  import opened Wrappers
  import opened Json
  import opened Model

  datatype Revision = Revision(
    id: int, fleet: string, number: int, config: Value,
    hosts: seq<ProxyHost>, certs: seq<Certificate>,
    etag: string, signature: string, alg: string
  )

  datatype Fleet = Fleet(published: Option<int>)

  datatype StoreError = NotFound | Conflict

  datatype Db = Db(fleets: map<string, Fleet>, revisions: map<int, Revision>, lastId: int)

  predicate Holds(db: Db, fleet: string, number: int, id: int) {
    id in db.revisions && db.revisions[id].fleet == fleet && db.revisions[id].number == number
  }

  ghost predicate NumberTaken(db: Db, fleet: string, number: int) {
    exists id :: Holds(db, fleet, number, id)
  }

  // The state after storing r under a fresh id.
  function Stored(db: Db, r: Revision, publish: bool): Db
    requires r.fleet in db.fleets
  {
    var id := db.lastId + 1;
    var fleets := if publish then db.fleets[r.fleet := Fleet(Some(id))] else db.fleets;
    Db(fleets, db.revisions[id := r.(id := id)], id)
  }

  /** CreateRevision: the new state, and the stored revision or the error. */
  ghost function Created(db: Db, r: Revision, publish: bool): (Db, Result<Revision, StoreError>) {
    if r.fleet !in db.fleets then (db, Failure(NotFound))
    else if NumberTaken(db, r.fleet, r.number) then (db, Failure(Conflict))
    else (Stored(db, r, publish), Success(r.(id := db.lastId + 1)))
  }

  /** m is the highest revision number of a fleet, or 0. */
  ghost predicate IsTop(db: Db, fleet: string, m: int) {
    && m >= 0 && (m == 0 || NumberTaken(db, fleet, m))
    && forall id :: id in db.revisions && db.revisions[id].fleet == fleet ==> db.revisions[id].number <= m
  }

  function Published(db: Db, fleet: string): Option<Revision> {
    if fleet in db.fleets && db.fleets[fleet].published.Some? && db.fleets[fleet].published.value in db.revisions
    then Some(db.revisions[db.fleets[fleet].published.value])
    else None
  }

  class Store {
    var fleets: map<string, Fleet>
    var revisions: map<int, Revision>
    var revisionSeq: int

    function State(): Db
      reads this
    {
      Db(fleets, revisions, revisionSeq)
    }

    constructor ()
      ensures State() == Db(map[], map[], 0)
    {
      fleets, revisions, revisionSeq := map[], map[], 0;
    }

    method CreateFleet(id: string) returns (r: Result<Fleet, StoreError>)
      modifies this
      ensures id in old(fleets) ==> r == Failure(Conflict) && State() == old(State())
      ensures id !in old(fleets) ==>
        r == Success(Fleet(None)) && State() == old(State()).(fleets := old(fleets)[id := Fleet(None)])
    {
      if id in fleets {
        return Failure(Conflict);
      }
      fleets := fleets[id := Fleet(None)];
      r := Success(Fleet(None));
    }

    method GetFleet(id: string) returns (r: Result<Fleet, StoreError>)
      ensures r == if id in fleets then Success(fleets[id]) else Failure(NotFound)
    {
      if id !in fleets {
        return Failure(NotFound);
      }
      r := Success(fleets[id]);
    }

    method CreateRevision(r: Revision, makePublished: bool) returns (res: Result<Revision, StoreError>)
      modifies this
      ensures (State(), res) == Created(old(State()), r, makePublished)
      ensures r.fleet !in old(fleets) ==> res == Failure(NotFound)
      ensures r.fleet in old(fleets) ==>
        (res == Failure(Conflict) <==>
           exists id :: id in old(revisions) && old(revisions)[id].fleet == r.fleet && old(revisions)[id].number == r.number)
      ensures res.Failure? ==> State() == old(State()) && (res.error == Conflict ==> r.fleet in old(fleets))
      ensures res.Success? ==>
        && res.value == r.(id := old(revisionSeq) + 1) && revisionSeq == old(revisionSeq) + 1
        && revisions == old(revisions)[revisionSeq := res.value]
        && fleets == if makePublished then old(fleets)[r.fleet := Fleet(Some(revisionSeq))] else old(fleets)
    {
      if r.fleet !in fleets {
        return Failure(NotFound);
      }
      var todo := revisions.Keys;
      while todo != {}
        invariant State() == old(State()) && todo <= revisions.Keys
        invariant forall id :: id in revisions && id !in todo ==> !Holds(State(), r.fleet, r.number, id)
      {
        var id := AnyOf(todo);
        if revisions[id].fleet == r.fleet && revisions[id].number == r.number {
          assert Holds(State(), r.fleet, r.number, id);
          assert id in old(revisions) && old(revisions)[id].fleet == r.fleet && old(revisions)[id].number == r.number;
          return Failure(Conflict);
        }
        todo := todo - {id};
      }
      assert !NumberTaken(State(), r.fleet, r.number);
      assert forall id :: id in revisions ==> !Holds(State(), r.fleet, r.number, id);
      revisionSeq := revisionSeq + 1;
      var saved := r.(id := revisionSeq);
      revisions := revisions[saved.id := saved];
      if makePublished {
        fleets := fleets[r.fleet := Fleet(Some(saved.id))];
      }
      assert State() == Stored(old(State()), r, makePublished);
      res := Success(saved);
    }

    method NextRevisionNumber(fleet: string) returns (r: Result<int, StoreError>)
      ensures fleet !in fleets ==> r == Failure(NotFound)
      ensures fleet in fleets ==> r.Success? && IsTop(State(), fleet, r.value - 1)
      ensures r.Success? ==>
        && r.value >= 1
        && (forall id :: id in revisions && revisions[id].fleet == fleet ==> revisions[id].number < r.value)
        && (r.value > 1 ==> exists id :: id in revisions && revisions[id].fleet == fleet && revisions[id].number == r.value - 1)
    {
      if fleet !in fleets {
        return Failure(NotFound);
      }
      var max := 0;
      var todo := revisions.Keys;
      while todo != {}
        invariant todo <= revisions.Keys
        invariant max >= 0 && (max == 0 || NumberTaken(State(), fleet, max))
        invariant forall id :: id in revisions && id !in todo && revisions[id].fleet == fleet ==> revisions[id].number <= max
      {
        var id := AnyOf(todo);
        if revisions[id].fleet == fleet && revisions[id].number > max {
          max := revisions[id].number;
          assert Holds(State(), fleet, max, id);
        }
        todo := todo - {id};
      }
      if max > 0 {
        ghost var id :| Holds(State(), fleet, max, id);
        assert id in revisions && revisions[id].fleet == fleet && revisions[id].number == max;
      }
      r := Success(max + 1);
    }

    method GetPublishedRevision(fleet: string) returns (r: Result<Revision, StoreError>)
      ensures match Published(State(), fleet) case Some(rev) => r == Success(rev) case None => r == Failure(NotFound)
      ensures if fleet in fleets && fleets[fleet].published.Some? && fleets[fleet].published.value in revisions
        then r == Success(revisions[fleets[fleet].published.value]) else r == Failure(NotFound)
    {
      if fleet !in fleets || fleets[fleet].published.None? || fleets[fleet].published.value !in revisions {
        return Failure(NotFound);
      }
      r := Success(revisions[fleets[fleet].published.value]);
    }

    method GetRevision(fleet: string, number: int) returns (r: Result<Revision, StoreError>)
      ensures match r
        case Success(rev) => exists id :: Holds(State(), fleet, number, id) && State().revisions[id] == rev
        case Failure(e) => e == NotFound && !NumberTaken(State(), fleet, number)
      ensures r.Success? ==>
        r.value.fleet == fleet && r.value.number == number && exists id :: id in revisions && revisions[id] == r.value
      ensures r.Failure? ==> forall id :: id in revisions ==> !(revisions[id].fleet == fleet && revisions[id].number == number)
    {
      var todo := revisions.Keys;
      while todo != {}
        invariant todo <= revisions.Keys
        invariant forall id :: id in revisions && id !in todo ==> !Holds(State(), fleet, number, id)
      {
        var id := AnyOf(todo);
        if revisions[id].fleet == fleet && revisions[id].number == number {
          assert Holds(State(), fleet, number, id);
          return Success(revisions[id]);
        }
        todo := todo - {id};
      }
      assert forall id :: id in revisions ==> !Holds(State(), fleet, number, id);
      r := Failure(NotFound);
    }
  }

  // ---------------------------------------------------------------- the log

  // The number of the published revision, or 0.
  function PublishedNumber(db: Db, fleet: string): int {
    match Published(db, fleet) case Some(rev) => rev.number case None => 0
  }

  /** One fleet's revisions are numbered exactly 1..n, each number once, and the
      published pointer is revision n. */
  ghost predicate FleetLogOk(db: Db, fleet: string)
    requires fleet in db.fleets
  {
    var n := PublishedNumber(db, fleet);
    && (db.fleets[fleet].published.Some? ==> Published(db, fleet).Some? && Published(db, fleet).value.fleet == fleet && n >= 1)
    && (forall id :: id in db.revisions && db.revisions[id].fleet == fleet ==> 1 <= db.revisions[id].number <= n)
    && (forall k :: 1 <= k <= n ==> NumberTaken(db, fleet, k))
  }

  predicate SameNumber(a: Revision, b: Revision) {
    a.fleet == b.fleet && a.number == b.number
  }

  ghost predicate LogOk(db: Db) {
    && (forall id :: id in db.revisions ==> db.revisions[id].id == id && id <= db.lastId && db.revisions[id].fleet in db.fleets)
    && (forall i, j :: i in db.revisions && j in db.revisions && SameNumber(db.revisions[i], db.revisions[j]) ==> i == j)
    && (forall f :: f in db.fleets ==> FleetLogOk(db, f))
  }

  /** In a well-formed log the next number is one past the published one. */
  lemma NextNumber(db: Db, fleet: string, n: int)
    requires LogOk(db) && fleet in db.fleets && IsTop(db, fleet, n - 1)
    ensures n == PublishedNumber(db, fleet) + 1
  {
    assert FleetLogOk(db, fleet);
    var m := PublishedNumber(db, fleet);
    if m >= 1 {
      assert NumberTaken(db, fleet, m);
      var id :| Holds(db, fleet, m, id);
      assert db.revisions[id].number <= n - 1;
    }
    if n - 1 > 0 {
      var id :| Holds(db, fleet, n - 1, id);
    }
  }

  /** A number up to the published one conflicts and changes nothing; the next
      number is stored, becomes the published one, and keeps the log well
      formed. There is no third outcome. */
  lemma StoringKeepsLog(db: Db, r: Revision)
    requires LogOk(db) && r.fleet in db.fleets && 1 <= r.number <= PublishedNumber(db, r.fleet) + 1
    ensures var (db', res) := Created(db, r, true);
      && LogOk(db')
      && (r.number <= PublishedNumber(db, r.fleet) ==> db' == db && res == Failure(Conflict))
      && (r.number == PublishedNumber(db, r.fleet) + 1 ==>
           res == Success(r.(id := db.lastId + 1)) && Published(db', r.fleet) == Some(res.value) &&
           db' == Stored(db, r, true))
      && (forall f :: f != r.fleet ==> Published(db', f) == Published(db, f))
  {
    assert FleetLogOk(db, r.fleet);
    var n := PublishedNumber(db, r.fleet);
    if r.number == n + 1 {
      assert !NumberTaken(db, r.fleet, n + 1);
      StoredLogOk(db, r);
      StoredPublished(db, r);
    }
  }

  lemma StoredPublished(db: Db, r: Revision)
    requires LogOk(db) && r.fleet in db.fleets
    ensures var db' := Stored(db, r, true);
      && db.lastId + 1 !in db.revisions
      && Published(db', r.fleet) == Some(r.(id := db.lastId + 1))
      && forall f :: f != r.fleet ==> Published(db', f) == Published(db, f)
  {
    var db' := Stored(db, r, true);
    assert db.lastId + 1 !in db.revisions;
    forall f | f != r.fleet ensures Published(db', f) == Published(db, f) {
      if f in db.fleets { assert FleetLogOk(db, f); }
    }
  }

  lemma StoredTaken(db: Db, r: Revision, f: string, k: int)
    requires LogOk(db) && r.fleet in db.fleets
    ensures NumberTaken(Stored(db, r, true), f, k) <==> NumberTaken(db, f, k) || (f == r.fleet && k == r.number)
  {
    var db', id := Stored(db, r, true), db.lastId + 1;
    StoredPublished(db, r);
    if i :| Holds(db, f, k, i) { assert Holds(db', f, k, i); }
    if f == r.fleet && k == r.number { assert Holds(db', f, k, id); }
    if i :| Holds(db', f, k, i) { assert i != id ==> Holds(db, f, k, i); }
  }

  lemma StoredFleetOk(db: Db, r: Revision, f: string)
    requires LogOk(db) && r.fleet in db.fleets && r.number == PublishedNumber(db, r.fleet) + 1 && f in db.fleets
    ensures FleetLogOk(Stored(db, r, true), f)
  {
    hide NumberTaken;
    var db' := Stored(db, r, true);
    StoredPublished(db, r);
    assert FleetLogOk(db, f) && FleetLogOk(db, r.fleet);
    forall k | 1 <= k <= PublishedNumber(db', f) ensures NumberTaken(db', f, k) {
      StoredTaken(db, r, f, k);
    }
  }

  lemma StoredLogOk(db: Db, r: Revision)
    requires LogOk(db) && r.fleet in db.fleets && r.number == PublishedNumber(db, r.fleet) + 1
    ensures LogOk(Stored(db, r, true))
  {
    hide FleetLogOk;
    var db', id := Stored(db, r, true), db.lastId + 1;
    StoredPublished(db, r);
    forall f | f in db'.fleets ensures FleetLogOk(db', f) { StoredFleetOk(db, r, f); }
    assert FleetLogOk(db, r.fleet);
    forall i | i in db.revisions ensures !SameNumber(db.revisions[i], db'.revisions[id]) {
      NumbersBounded(db, i);
    }
  }

  lemma NumbersBounded(db: Db, i: int)
    requires LogOk(db) && i in db.revisions
    ensures 1 <= db.revisions[i].number <= PublishedNumber(db, db.revisions[i].fleet)
  {
    assert FleetLogOk(db, db.revisions[i].fleet);
  }

  // ---------------------------------------------------------------- why fleets must not be recreated

  /** A publisher may store any number it took at some time: the log stays well
      formed exactly when the number is at most one past the published one. */
  lemma StoringIsSafeIff(db: Db, r: Revision)
    requires LogOk(db) && r.fleet in db.fleets && r.number >= 1
    ensures LogOk(Created(db, r, true).0) <==> r.number <= PublishedNumber(db, r.fleet) + 1
  {
    hide LogOk, Created, PublishedNumber;
    if r.number <= PublishedNumber(db, r.fleet) + 1 {
      StoringKeepsLog(db, r);
    } else {
      StoringLeavesGap(db, r);
    }
  }

  lemma StoringLeavesGap(db: Db, r: Revision)
    requires LogOk(db) && r.fleet in db.fleets && r.number > PublishedNumber(db, r.fleet) + 1
    ensures Created(db, r, true).1.Success? && !LogOk(Created(db, r, true).0)
  {
    hide FleetLogOk, NumberTaken;
    var n := PublishedNumber(db, r.fleet);
    forall k | k > n ensures !NumberTaken(db, r.fleet, k) { PastIsFree(db, r.fleet, k); }
    StoredPublished(db, r);
    StoredTaken(db, r, r.fleet, n + 1);
    PublishedNotNegative(db, r.fleet);
    if LogOk(Stored(db, r, true)) { LogTaken(Stored(db, r, true), r.fleet, n + 1); }
  }

  lemma PublishedNotNegative(db: Db, f: string)
    requires LogOk(db) && f in db.fleets
    ensures PublishedNumber(db, f) >= 0
  {
    assert FleetLogOk(db, f);
  }

  lemma PastIsFree(db: Db, f: string, k: int)
    requires LogOk(db) && k > PublishedNumber(db, f)
    ensures !NumberTaken(db, f, k)
  {
    hide FleetLogOk;
    if id :| Holds(db, f, k, id) { NumbersBounded(db, id); }
  }

  lemma LogTaken(db: Db, f: string, k: int)
    requires LogOk(db) && f in db.fleets && 1 <= k <= PublishedNumber(db, f)
    ensures NumberTaken(db, f, k)
  {
    assert FleetLogOk(db, f);
  }

  /** Deleting a fleet removes its revisions. */
  function WithoutFleet(db: Db, fleet: string): Db {
    Db(db.fleets - {fleet}, map id | id in db.revisions && db.revisions[id].fleet != fleet :: db.revisions[id], db.lastId)
  }

  function Recreated(db: Db, fleet: string): Db {
    var gone := WithoutFleet(db, fleet);
    gone.(fleets := gone.fleets[fleet := Fleet(None)])
  }

  lemma RecreatedLogOk(db: Db, fleet: string)
    requires LogOk(db)
    ensures LogOk(Recreated(db, fleet)) && PublishedNumber(Recreated(db, fleet), fleet) == 0
  {
    var db' := Recreated(db, fleet);
    forall f | f in db'.fleets ensures FleetLogOk(db', f) {
      if f != fleet {
        assert FleetLogOk(db, f);
        assert Published(db', f) == Published(db, f);
        forall k | 1 <= k <= PublishedNumber(db', f) ensures NumberTaken(db', f, k) {
          assert NumberTaken(db, f, k);
          var id :| Holds(db, f, k, id);
          assert Holds(db', f, k, id);
        }
      }
    }
  }

  /** A publisher that took its number before its fleet was deleted and created
      again breaks the numbering exactly when that number is not 1: for any
      fleet, in any well-formed store, its revision is stored with a gap below. */
  lemma RecreatedFleetHasGap(db: Db, late: Revision)
    requires LogOk(db) && late.fleet in db.fleets && IsTop(db, late.fleet, late.number - 1)
    ensures var again := Recreated(db, late.fleet);
      && Created(again, late, true).1.Success?
      && (LogOk(Created(again, late, true).0) <==> PublishedNumber(db, late.fleet) == 0)
  {
    hide LogOk, Recreated, Created, PublishedNumber;
    NextNumber(db, late.fleet, late.number);
    PublishedNotNegative(db, late.fleet);
    RecreatedLogOk(db, late.fleet);
    RecreatedKeepsFleet(db, late.fleet);
    var again := Recreated(db, late.fleet);
    StoringIsSafeIff(again, late);
    if late.number > 1 {
      StoringLeavesGap(again, late);
    } else {
      StoringKeepsLog(again, late);
    }
  }

  lemma RecreatedKeepsFleet(db: Db, fleet: string)
    ensures fleet in Recreated(db, fleet).fleets
  {
  }
}

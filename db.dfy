/** The data-access layer (server/src/db.ts) over the two tables. The lazily
    opened connection is collapsed to the flag `available`; the SQL each
    function issues is modelled by its effect on the tables. */
module Db {
  import opened Wrappers
  import opened Schema
  import opened Errors

  /** Rows in `ORDER BY createdAt DESC` order. */
  predicate NewestFirst(rows: seq<Application>) {
    forall i, j :: 0 <= i < j < |rows| ==> rows[i].createdAt >= rows[j].createdAt
  }

  /** Places a row into a newest-first sequence, before the rows of the same
      age. */
  function InsertNewestFirst(rows: seq<Application>, a: Application): (r: seq<Application>)
    requires NewestFirst(rows)
    ensures NewestFirst(r)
    ensures multiset(r) == multiset(rows) + multiset{a}
  {
    if rows == [] || a.createdAt >= rows[0].createdAt then [a] + rows
    else
      var rest := InsertNewestFirst(rows[1..], a);
      OlderHeadFirst(rows, a, rest);
      [rows[0]] + rest
  }

  lemma OlderHeadFirst(rows: seq<Application>, a: Application, rest: seq<Application>)
    requires NewestFirst(rows) && rows != [] && a.createdAt < rows[0].createdAt
    requires NewestFirst(rest) && multiset(rest) == multiset(rows[1..]) + multiset{a}
    ensures NewestFirst([rows[0]] + rest)
    ensures multiset([rows[0]] + rest) == multiset(rows) + multiset{a}
  {
    assert rows == [rows[0]] + rows[1..];
    forall k | 0 <= k < |rest| ensures rows[0].createdAt >= rest[k].createdAt {
      assert rest[k] in multiset(rest);
      if rest[k] != a {
        assert rest[k] in multiset(rows[1..]);
        var j :| 0 <= j < |rows[1..]| && rows[1..][j] == rest[k];
        assert rows[j + 1] == rest[k];
      }
    }
  }

  /** Some element of a non-empty set of ids. */
  method AnyKey(keys: set<int>) returns (key: int)
    requires keys != {}
    ensures key in keys
  {
    if forall k :: k !in keys {
      assert false;
    }
    key :| key in keys;
  }

  /** What upsertUser assembles in `values` before it writes: the three text
      properties as given (`undefined` stays out, `null` stays null), the
      role given or, failing that, "admin" for the owner's openId, and the
      sign-in time given or `now`. */
  datatype UserValues = UserValues(
    openId: string,
    name: Input<string>,
    email: Input<string>,
    loginMethod: Input<string>,
    role: Option<Role>,
    lastSignedIn: int)

  function UpsertValues(u: InsertUser, ownerOpenId: Option<string>, now: int): (v: UserValues)
    ensures v.openId == u.openId && v.name == u.name && v.email == u.email && v.loginMethod == u.loginMethod
    ensures u.role.Some? ==> v.role == u.role
    ensures u.role.None? ==> (v.role == Some(AdminRole) <==> ownerOpenId.Some? && ownerOpenId.value != "" && u.openId == ownerOpenId.value)
    ensures u.role.None? && v.role != Some(AdminRole) ==> v.role.None?
    ensures v.lastSignedIn == u.lastSignedIn.GetOr(now)
  {
    var role :=
      if u.role.Some? then u.role
      else if ownerOpenId.Some? && ownerOpenId.value != "" && u.openId == ownerOpenId.value then Some(AdminRole)
      else None;
    UserValues(u.openId, u.name, u.email, u.loginMethod, role, u.lastSignedIn.GetOr(now))
  }

  /** The column value an insert stores for a property: NULL unless given. */
  function Stored(i: Input<string>): Option<string> {
    match i
    case Given(s) => Some(s)
    case _ => None
  }

  /** The column value an update leaves: unchanged when the property is
      `undefined` (the ORM skips it), NULL for `null`, else the value. */
  function Overwritten(old_: Option<string>, i: Input<string>): (r: Option<string>)
    ensures i.Undefined? ==> r == old_
    ensures i.Null? ==> r.None?
    ensures i.Given? ==> r == Some(i.value)
  {
    match i
    case Undefined => old_
    case Null => None
    case Given(s) => Some(s)
  }

  /** The row `INSERT INTO users VALUES (values)` creates. */
  function InsertedUser(id: int, v: UserValues, now: int): User {
    User(id, v.openId, Stored(v.name), Stored(v.email), Stored(v.loginMethod),
         v.role.GetOr(DefaultRole), now, now, v.lastSignedIn)
  }

  /** The row `ON CONFLICT (openId) DO UPDATE SET name, email, loginMethod,
      role, lastSignedIn = now` leaves. */
  function ConflictUpdated(existing: User, v: UserValues, now: int): User {
    existing.(name := Overwritten(existing.name, v.name),
              email := Overwritten(existing.email, v.email),
              loginMethod := Overwritten(existing.loginMethod, v.loginMethod),
              role := v.role.GetOr(existing.role),
              lastSignedIn := now)
  }

  class Database {
    /** whether `getDb()` yields a connection */
    var available: bool
    /** visa_applications by id */
    var applications: map<int, Application>
    /** the next value of the visa_applications id sequence */
    var nextApplicationId: int
    /** users by id */
    var users: map<int, User>
    /** the next value of the users id sequence */
    var nextUserId: int

    ghost predicate Valid()
      reads this
    {
      && nextApplicationId >= 1 && nextUserId >= 1
      && (forall id :: id in applications ==>
            applications[id].id == id && 1 <= id < nextApplicationId && applications[id].WithinLimits())
      && (forall id :: id in users ==> users[id].id == id && 1 <= id < nextUserId && users[id].openId != "")
      && (forall i, j :: i in users && j in users && users[i].openId == users[j].openId ==> i == j)
    }

    /** The rows of one user, as a set. */
    ghost function Owned(userId: int): set<Application>
      reads this
    {
      set id | id in applications && applications[id].userId == userId :: applications[id]
    }

    constructor (available: bool)
      ensures Valid() && this.available == available
      ensures applications == map[] && nextApplicationId == 1
      ensures users == map[] && nextUserId == 1
    {
      this.available := available;
      applications := map[];
      nextApplicationId := 1;
      users := map[];
      nextUserId := 1;
    }

    /** createVisaApplication: inserts a row and returns it as stored. */
    method CreateApplication(userId: int, status: Status, extractionCompleted: bool, now: int)
      returns (r: Result<Application, ApiError>)
      requires Valid()
      modifies this
      ensures Valid()
      ensures available == old(available) && users == old(users) && nextUserId == old(nextUserId)
      ensures !available ==>
        && r == Err(DatabaseUnavailable)
        && applications == old(applications) && nextApplicationId == old(nextApplicationId)
      ensures available ==>
        && r == Ok(NewRow(old(nextApplicationId), userId, status, extractionCompleted, now))
        && old(nextApplicationId) !in old(applications)
        && applications == old(applications)[old(nextApplicationId) := r.value]
        && nextApplicationId == old(nextApplicationId) + 1
    {
      if !available {
        return Err(DatabaseUnavailable);
      }
      var row := NewRow(nextApplicationId, userId, status, extractionCompleted, now);
      applications := applications[nextApplicationId := row];
      nextApplicationId := nextApplicationId + 1;
      r := Ok(row);
    }

    /** updateVisaApplication: sets the supplied columns of the row with that
        id and returns the row, or nothing when no row has the id. A patch
        with nothing to set is refused before the statement is sent. */
    method UpdateApplication(id: int, p: Patch) returns (r: Result<Option<Application>, ApiError>)
      requires Valid()
      modifies this
      ensures Valid()
      ensures available == old(available) && nextApplicationId == old(nextApplicationId)
      ensures users == old(users) && nextUserId == old(nextUserId)
      ensures !available ==> r == Err(DatabaseUnavailable) && applications == old(applications)
      ensures available && p.IsEmpty() ==> r == Err(NoValuesToSet) && applications == old(applications)
      ensures available && !p.IsEmpty() && id !in old(applications) ==> r == Ok(None) && applications == old(applications)
      ensures available && !p.IsEmpty() && id in old(applications) && Violation(p).Some? ==>
        r == Err(ValueTooLong(Violation(p).value)) && applications == old(applications)
      ensures available && !p.IsEmpty() && id in old(applications) && Violation(p).None? ==>
        && r == Ok(Some(Apply(old(applications)[id], p)))
        && applications == old(applications)[id := Apply(old(applications)[id], p)]
    {
      if !available {
        return Err(DatabaseUnavailable);
      }
      if p.IsEmpty() {
        return Err(NoValuesToSet);
      }
      if id !in applications {
        return Ok(None);
      }
      var tooLong := Violation(p);
      if tooLong.Some? {
        return Err(ValueTooLong(tooLong.value));
      }
      ApplyKeepsLimits(applications[id], p);
      var row := Apply(applications[id], p);
      applications := applications[id := row];
      r := Ok(Some(row));
    }

    /** getVisaApplicationById */
    method GetApplicationById(id: int) returns (r: Result<Option<Application>, ApiError>)
      ensures !available ==> r == Err(DatabaseUnavailable)
      ensures available ==> r.Ok?
      ensures r.Ok? ==> (r.value.Some? <==> id in applications)
      ensures r.Ok? && r.value.Some? ==> r.value.value == applications[id]
    {
      if !available {
        return Err(DatabaseUnavailable);
      }
      r := Ok(if id in applications then Some(applications[id]) else None);
    }

    /** getUserVisaApplications: exactly the user's rows, each once, newest
        first. The loop is the database's scan and sort. */
    method GetUserApplications(userId: int) returns (r: Result<seq<Application>, ApiError>)
      requires Valid()
      ensures !available ==> r == Err(DatabaseUnavailable)
      ensures available ==> r.Ok? && multiset(r.value) == multiset(Owned(userId)) && NewestFirst(r.value)
    {
      if !available {
        return Err(DatabaseUnavailable);
      }
      var rows: seq<Application> := [];
      var pending := applications.Keys;
      ghost var seen: set<Application> := {};
      while |pending| > 0
        invariant pending <= applications.Keys
        invariant seen == set id | id in applications && id !in pending && applications[id].userId == userId :: applications[id]
        invariant multiset(rows) == multiset(seen)
        invariant NewestFirst(rows)
        decreases pending
      {
        var key := AnyKey(pending);
        var a := applications[key];
        if a.userId == userId {
          assert a !in seen;
          rows := InsertNewestFirst(rows, a);
          seen := seen + {a};
        }
        pending := pending - {key};
      }
      assert seen == Owned(userId);
      r := Ok(rows);
    }

    /** deleteVisaApplication: removes the row with that id, if any. */
    method DeleteApplication(id: int) returns (r: Result<(), ApiError>)
      requires Valid()
      modifies this
      ensures Valid()
      ensures available == old(available) && nextApplicationId == old(nextApplicationId)
      ensures users == old(users) && nextUserId == old(nextUserId)
      ensures !available ==> r == Err(DatabaseUnavailable) && applications == old(applications)
      ensures available ==> r == Ok(()) && applications == old(applications) - {id}
    {
      if !available {
        return Err(DatabaseUnavailable);
      }
      applications := applications - {id};
      r := Ok(());
    }

    /** upsertUser: an empty openId is refused before anything else; without
        a database the call only warns. Otherwise the user is inserted, or,
        when a row with the openId exists, that row's name, email,
        loginMethod and role are overwritten where given and lastSignedIn set
        to `now`. The id sequence advances on both paths, as PostgreSQL draws
        the default id before it detects the conflict. */
    method UpsertUser(u: InsertUser, ownerOpenId: Option<string>, now: int) returns (r: Result<(), ApiError>)
      requires Valid()
      modifies this
      ensures Valid()
      ensures available == old(available)
      ensures applications == old(applications) && nextApplicationId == old(nextApplicationId)
      ensures u.openId == "" ==> r == Err(OpenIdRequired) && users == old(users) && nextUserId == old(nextUserId)
      ensures u.openId != "" && !available ==> r == Ok(()) && users == old(users) && nextUserId == old(nextUserId)
      ensures u.openId != "" && available ==>
        var v := UpsertValues(u, ownerOpenId, now);
        && r == Ok(())
        && nextUserId == old(nextUserId) + 1
        && (forall id :: id in old(users) && old(users)[id].openId == u.openId ==>
              users == old(users)[id := ConflictUpdated(old(users)[id], v, now)])
        && ((forall id :: id in old(users) ==> old(users)[id].openId != u.openId) ==>
              users == old(users)[old(nextUserId) := InsertedUser(old(nextUserId), v, now)])
    {
      if u.openId == "" {
        return Err(OpenIdRequired);
      }
      if !available {
        return Ok(());
      }
      var v := UpsertValues(u, ownerOpenId, now);
      var drawn := nextUserId;
      nextUserId := nextUserId + 1;
      if existing :| existing in users && users[existing].openId == u.openId {
        users := users[existing := ConflictUpdated(users[existing], v, now)];
      } else {
        users := users[drawn := InsertedUser(drawn, v, now)];
      }
      r := Ok(());
    }

    /** getUserByOpenId: without a database it only warns and returns nothing. */
    method GetUserByOpenId(openId: string) returns (r: Option<User>)
      requires Valid()
      ensures !available ==> r == None
      ensures available ==> (r.Some? <==> exists id :: id in users && users[id].openId == openId)
      ensures r.Some? ==> r.value in users.Values && r.value.openId == openId
    {
      if !available {
        return None;
      }
      if id :| id in users && users[id].openId == openId {
        r := Some(users[id]);
      } else {
        r := None;
      }
    }
  }
}

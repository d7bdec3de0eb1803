/**
 * internal/repository: the user repository over the `users` collection.
 *
 * Each operation of `UserRepository` is specified by a function of the
 * collection's contents before the call (`CreateSpec`, `UpdateSpec`, `DeleteSpec`,
 * `ListSpec`); the lemmas below say what those functions mean: what is stamped,
 * which fields a write may touch, when the unique indexes reject a write, and
 * which errors reach the caller unchanged.
 */
module Repository {
  import opened Errors
  import opened ErrWrap
  import opened Model
  import opened Store

  const ConflictMessage := "already exists with the same nickname or email"
  const UniquenessCheckPrefix := "failed to check uniqueness: "
  const UniquenessViolatedText := "unique constraint violated"
  const NotFoundMessage := "user record not found"

  /** The error `Create` reports for a unique-index violation. */
  const ConflictError: Error := Typed(ErrConflict.SetMessage(ConflictMessage))

  /** The fields `sanitizeUserForUpdate` lets an update write. */
  const UpdatableFields: set<Field> := {FirstName, LastName, NickName, Password, Email, Country, UpdatedAt}

  /**
   * `sanitizeUserForUpdate`: the allow-listed fields of `u`, with their values.
   * `_id`, `status`, `createdAt` and `version` are never among them.
   */
  function SanitizeForUpdate(u: User): (upd: map<Field, Value>)
    ensures upd.Keys == UpdatableFields
    ensures forall k :: k in upd ==> upd[k] == FieldValue(k, u) && Fits(k, upd[k])
  {
    map[FirstName := Str(u.firstName), LastName := Str(u.lastName), NickName := Str(u.nickName),
        Password := Str(u.password), Email := Str(u.email), Country := Str(u.country),
        UpdatedAt := Date(u.meta.updatedAt)]
  }

  /** `sanitizeUserForDelete`, with `time.Now()` taken as `now`: status Inactive and the update time. */
  function SanitizeForDelete(now: Time): (upd: map<Field, Value>)
    ensures upd.Keys == {Status, UpdatedAt}
    ensures upd[Status] == Int(UserStatusInactive) && upd[UpdatedAt] == Date(now)
  {
    map[Status := Int(UserStatusInactive), UpdatedAt := Date(now)]
  }

  /** What `Create` stores: the payload with a new id, status Active and fresh metadata. */
  function Stamped(u: User, newId: string, now: Time): User
  {
    u.(id := newId, status := UserStatusActive, meta := NewMeta(now))
  }

  /** The error `Create` returns, the collection after it, and the caller's user record after it. */
  datatype CreateOutcome = CreateOutcome(err: Option<Error>, after: Snapshot, user: User)

  function CreateSpec(s: Snapshot, u: User, newId: string, now: Time): CreateOutcome
  {
    var doc := Stamped(u, newId, now);
    var e := InsertError(s, doc);
    if e.Some? && e.value.DuplicateKey? then CreateOutcome(Some(ConflictError), s, doc)
    else CreateOutcome(e, if e.None? then Inserted(s, doc) else s, doc.(password := ""))
  }

  /**
   * A successful create stores the stamped record (password included) under the
   * new id, appends it to the natural order, keeps the collection well formed,
   * and leaves the caller's record stamped with an empty password.
   */
  lemma CreateSucceeds(s: Snapshot, u: User, newId: string, now: Time)
    requires WellFormed(s)
    requires CreateSpec(s, u, newId, now).err.None?
    ensures var o := CreateSpec(s, u, newId, now);
      && o.user.id == newId && o.user.status == UserStatusActive
      && o.user.meta == Meta(now, now, 0) && o.user.password == ""
      && o.user.(password := u.password) == Stamped(u, newId, now)
      && o.after.docs == s.docs[newId := Stamped(u, newId, now)]
      && o.after.order == s.order + [newId]
      && newId !in s.docs
      && WellFormed(o.after)
  {
    InsertPreservesWellFormed(s, Stamped(u, newId, now));
  }

  /**
   * With the server answering, a create is refused with a Conflict exactly when
   * the id is taken or another user has the same email or nickName; then nothing
   * is stored and the caller's password is left in place.
   */
  lemma CreateConflict(s: Snapshot, u: User, newId: string, now: Time)
    requires Inserting !in s.failing
    ensures var o := CreateSpec(s, u, newId, now);
      (o.err == Some(ConflictError) <==>
        newId in s.docs ||
        exists k :: k in s.docs && k != newId && (s.docs[k].email == u.email || s.docs[k].nickName == u.nickName))
    ensures var o := CreateSpec(s, u, newId, now);
      o.err == Some(ConflictError) ==> o.after == s && o.user.password == u.password
    ensures CreateSpec(s, u, newId, now).err.Some? ==> CreateSpec(s, u, newId, now).err == Some(ConflictError)
  {
    InsertDuplicateMeaning(s, Stamped(u, newId, now));
  }

  /** Two creates with the same email: the second is a Conflict and changes nothing. */
  lemma SecondCreateWithSameEmailConflicts(s: Snapshot, u1: User, u2: User, id1: string, id2: string, now: Time)
    requires WellFormed(s) && Inserting !in s.failing
    requires CreateSpec(s, u1, id1, now).err.None?
    requires u2.email == u1.email && id2 != id1
    ensures var s1 := CreateSpec(s, u1, id1, now).after;
      CreateSpec(s1, u2, id2, now).err == Some(ConflictError) && CreateSpec(s1, u2, id2, now).after == s1
  {
    CreateSucceeds(s, u1, id1, now);
    var s1 := CreateSpec(s, u1, id1, now).after;
    assert s1.docs[id1].email == u2.email;
    CreateConflict(s1, u2, id2, now);
  }

  /** Any other driver failure of the insert is passed through unchanged; nothing is stored. */
  lemma CreatePassesDriverErrors(s: Snapshot, u: User, newId: string, now: Time)
    requires Inserting in s.failing && !s.failing[Inserting].DuplicateKey?
    ensures var o := CreateSpec(s, u, newId, now);
      o.err == Some(s.failing[Inserting]) && o.after == s && o.user.password == ""
  {
  }

  /** The pre-check filter: another `_id` than `id`, and the same nickName or the same email. */
  function UniquenessQuery(id: string, u: User): Query
  {
    Query(map[Id := NotEquals(Str(id))],
          [map[NickName := Equals(Str(u.nickName))], map[Email := Equals(Str(u.email))]])
  }

  /** `checkUniqueness`: the error it returns, if any. */
  function UniquenessError(s: Snapshot, id: string, u: User): Option<Error>
  {
    match CountResult(s, UniquenessQuery(id, u))
    case Err(e) => Some(Plain(UniquenessCheckPrefix + e.ErrorText()))
    case Ok(n) => if n > 0 then Some(Plain(UniquenessViolatedText)) else None
  }

  /**
   * With the count answering, the check fails exactly when some document other
   * than `id` has `u`'s nickName or email, and its error is the untyped
   * "unique constraint violated".
   */
  lemma UniquenessMeaning(s: Snapshot, id: string, u: User)
    requires WellFormed(s) && Counting !in s.failing
    ensures UniquenessError(s, id, u).None? <==> !ClashesExcept(s, id, u)
    ensures UniquenessError(s, id, u).Some? ==> UniquenessError(s, id, u) == Some(Plain(UniquenessViolatedText))
  {
    var q := UniquenessQuery(id, u);
    SelectedFromCollection(s, q);
    forall k | k in s.docs
      ensures Selects(q, s.docs[k]) <==>
        k != id && (s.docs[k].email == u.email || s.docs[k].nickName == u.nickName)
    {
      UniquenessSelects(id, u, s.docs[k]);
    }
  }

  /** A document passes the pre-check filter exactly when it is another user with the same nickName or email. */
  lemma UniquenessSelects(id: string, u: User, d: User)
    ensures Selects(UniquenessQuery(id, u), d) <==> d.id != id && (d.nickName == u.nickName || d.email == u.email)
  {
    var q := UniquenessQuery(id, u);
    assert AllHold(q.conds, d) <==> CondHolds(q.conds[Id], FieldValue(Id, d));
    assert AllHold(q.anyOf[0], d) <==> CondHolds(q.anyOf[0][NickName], FieldValue(NickName, d));
    assert AllHold(q.anyOf[1], d) <==> CondHolds(q.anyOf[1][Email], FieldValue(Email, d));
  }

  /** The result of `Update`, the collection after it, and the caller's user record after it. */
  datatype UpdateOutcome = UpdateOutcome(r: Result<User>, after: Snapshot, user: User)

  function UpdateSpec(s: Snapshot, id: string, u: User, now: Time): UpdateOutcome
  {
    var ue := UniquenessError(s, id, u);
    if ue.Some? then UpdateOutcome(Err(ue.value), s, u)
    else
      var touched := u.(meta := u.meta.Update(now));
      var upd := SanitizeForUpdate(touched);
      UpdateOutcome(UpdateResult(s, id, upd, 1, true), Updated(s, id, upd, 1), touched)
  }

  /** The stored record after a successful update of `stored` with payload `u` at `now`. */
  function UpdatedRecord(stored: User, u: User, now: Time): User
  {
    stored.(firstName := u.firstName, lastName := u.lastName, nickName := u.nickName,
         password := u.password, email := u.email, country := u.country,
         meta := Meta(stored.meta.createdAt, now, stored.meta.version + 1))
  }

  /** Writing the sanitized, touched payload over a stored record gives `UpdatedRecord`. */
  lemma SanitizedWrite(stored: User, u: User, now: Time)
    ensures SetAndInc(stored, SanitizeForUpdate(u.(meta := u.meta.Update(now))), 1) == UpdatedRecord(stored, u, now)
  {
    var upd := SanitizeForUpdate(u.(meta := u.meta.Update(now)));
    assert upd[FirstName] == Str(u.firstName) && upd[LastName] == Str(u.lastName);
    assert upd[NickName] == Str(u.nickName) && upd[Password] == Str(u.password);
    assert upd[Email] == Str(u.email) && upd[Country] == Str(u.country);
    assert upd[UpdatedAt] == Date(now);
    assert Status !in upd && CreatedAt !in upd && Version !in upd;
  }

  /** A failing uniqueness check writes nothing and its error is returned as is. */
  lemma UpdateRejectedWritesNothing(s: Snapshot, id: string, u: User, now: Time)
    requires UniquenessError(s, id, u).Some?
    ensures UpdateSpec(s, id, u, now) == UpdateOutcome(Err(UniquenessError(s, id, u).value), s, u)
  {
  }

  /**
   * An update that passes the check and finds its document sets the allow-listed
   * fields from the payload (the password as given), stamps `updatedAt`, adds one
   * to the version, keeps `_id`, status and `createdAt`, and returns the new
   * record without its password.  Because the check ran first, the unique
   * indexes never reject the write, and the collection stays well formed.
   */
  lemma UpdateSucceeds(s: Snapshot, id: string, u: User, now: Time)
    requires WellFormed(s) && Updating !in s.failing
    requires id in s.docs && UniquenessError(s, id, u).None?
    ensures var o := UpdateSpec(s, id, u, now);
      && o.r == Ok(UpdatedRecord(s.docs[id], u, now).(password := ""))
      && o.after.docs == s.docs[id := UpdatedRecord(s.docs[id], u, now)]
      && o.after.order == s.order
      && o.user == u.(meta := u.meta.(updatedAt := now))
      && WellFormed(o.after)
  {
    UniquenessMeaning(s, id, u);
    var touched := u.(meta := u.meta.Update(now));
    var upd := SanitizeForUpdate(touched);
    var after := SetAndInc(s.docs[id], upd, 1);
    SanitizedWrite(s.docs[id], u, now);
    assert after.email == u.email && after.nickName == u.nickName;
    assert !ClashesExcept(s, id, after);
    assert UpdateResult(s, id, upd, 1, true) == Ok(Projected(after, true));
    assert UpdateResult(s, id, upd, 1, false).Ok?;
    UpdatePreservesWellFormed(s, id, upd, 1);
  }

  /** Only the allow-listed fields and the version ever change. */
  lemma UpdateTouchesOnlyAllowListed(s: Snapshot, id: string, u: User, now: Time, k: Field)
    requires id in s.docs && k !in UpdatableFields && k != Version
    ensures id in UpdateSpec(s, id, u, now).after.docs
    ensures FieldValue(k, UpdateSpec(s, id, u, now).after.docs[id]) == FieldValue(k, s.docs[id])
  {
  }

  /** With the check passing, a missing id is the driver's raw no-documents error, and nothing is written. */
  lemma UpdateMissingIsNoDocuments(s: Snapshot, id: string, u: User, now: Time)
    requires Updating !in s.failing && id !in s.docs && UniquenessError(s, id, u).None?
    ensures UpdateSpec(s, id, u, now).r == Err(NoDocuments)
    ensures UpdateSpec(s, id, u, now).after == s
  {
  }

  /** The payload's own id plays no part in what is checked, written or returned. */
  lemma UpdateIgnoresPayloadId(s: Snapshot, id: string, u: User, x: string, now: Time)
    ensures UpdateSpec(s, id, u, now).r == UpdateSpec(s, id, u.(id := x), now).r
    ensures UpdateSpec(s, id, u, now).after == UpdateSpec(s, id, u.(id := x), now).after
  {
    assert UniquenessQuery(id, u) == UniquenessQuery(id, u.(id := x));
    assert SanitizeForUpdate(u.(meta := u.meta.Update(now))) ==
      SanitizeForUpdate(u.(id := x).(meta := u.meta.Update(now)));
  }

  /** The error `Delete` returns and the collection after it. */
  datatype DeleteOutcome = DeleteOutcome(err: Option<Error>, after: Snapshot)

  function DeleteSpec(s: Snapshot, id: string, now: Time): DeleteOutcome
  {
    var upd := SanitizeForDelete(now);
    var r := UpdateResult(s, id, upd, 0, false);
    DeleteOutcome(if r.Err? then Some(r.error) else None, Updated(s, id, upd, 0))
  }

  /** The collection with the user stored under `id` made Inactive at `now`. */
  function SoftDeleted(s: Snapshot, id: string, now: Time): Snapshot
    requires id in s.docs
  {
    var d := s.docs[id];
    Snapshot(s.docs[id := d.(status := UserStatusInactive, meta := d.meta.(updatedAt := now))], s.order, s.failing)
  }

  /**
   * Soft delete: with the server answering, a stored user becomes Inactive with
   * `updatedAt` set and nothing else changed (the version included), whatever
   * its status was; a missing id is the raw no-documents error.
   */
  lemma DeleteMeaning(s: Snapshot, id: string, now: Time)
    requires WellFormed(s) && Updating !in s.failing
    ensures id in s.docs ==> DeleteSpec(s, id, now) == DeleteOutcome(None, SoftDeleted(s, id, now))
    ensures id !in s.docs ==> DeleteSpec(s, id, now) == DeleteOutcome(Some(NoDocuments), s)
    ensures WellFormed(DeleteSpec(s, id, now).after)
  {
    UpdatePreservesWellFormed(s, id, SanitizeForDelete(now), 0);
    if id in s.docs {
      var d := s.docs[id];
      var after := SetAndInc(d, SanitizeForDelete(now), 0);
      DeleteWrite(d, now);
      assert !ClashesExcept(s, id, after);
      assert UpdateResult(s, id, SanitizeForDelete(now), 0, false) == Ok(after);
    }
  }

  /** Writing the delete allow-list over a record sets its status and update time only. */
  lemma DeleteWrite(d: User, now: Time)
    ensures SetAndInc(d, SanitizeForDelete(now), 0) ==
      d.(status := UserStatusInactive, meta := d.meta.(updatedAt := now))
  {
    var upd := SanitizeForDelete(now);
    assert FirstName !in upd && LastName !in upd && NickName !in upd && Password !in upd;
    assert Email !in upd && Country !in upd && CreatedAt !in upd && Version !in upd;
  }

  /**
   * Deleting a stored user again, later, succeeds and leaves the collection as a
   * single delete at the later time would.
   */
  lemma DeleteIdempotent(s: Snapshot, id: string, t1: Time, t2: Time)
    requires WellFormed(s) && Updating !in s.failing && id in s.docs
    ensures DeleteSpec(s, id, t1).after == SoftDeleted(s, id, t1)
    ensures DeleteSpec(SoftDeleted(s, id, t1), id, t2) == DeleteSpec(s, id, t2)
  {
    DeleteMeaning(s, id, t1);
    var s1 := SoftDeleted(s, id, t1);
    DeleteMeaning(s1, id, t2);
    DeleteMeaning(s, id, t2);
    SoftDeleteTwice(s, id, t1, t2);
  }

  lemma SoftDeleteTwice(s: Snapshot, id: string, t1: Time, t2: Time)
    requires id in s.docs
    ensures SoftDeleted(SoftDeleted(s, id, t1), id, t2) == SoftDeleted(s, id, t2)
  {
  }

  /** The page and total `ListByFilter` returns. */
  function ListSpec(s: Snapshot, filter: map<Field, Cond>, limit: int, offset: int): Result<(seq<User>, int)>
  {
    var q := Query(filter, []);
    match CountResult(s, q)
    case Err(e) => Err(e)
    case Ok(total) =>
      match FindResult(s, q, offset, limit, true)
      case Err(e) => Err(if e == NoDocuments then Typed(ErrNotFound.SetMessage(NotFoundMessage)) else e)
      case Ok(items) => Ok((items, total))
  }

  /**
   * With the server answering and a non-negative offset, the total counts every
   * matching document and the page is the matching documents from `offset` on,
   * at most `limit` of them (unless `limit` is 0), in natural order, each
   * without its password.
   */
  lemma ListMeaning(s: Snapshot, filter: map<Field, Cond>, limit: int, offset: int)
    requires Counting !in s.failing && Finding !in s.failing && offset >= 0
    ensures ListSpec(s, filter, limit, offset).Ok?
    ensures var m := Matching(Query(filter, []), s.order, s.docs);
      var (items, total) := ListSpec(s, filter, limit, offset).value;
      && total == |m|
      && (limit > 0 ==> |items| <= limit)
      && (limit > 0 ==> |items| == if offset >= |m| then 0 else Min(limit, |m| - offset))
      && (limit == 0 ==> |items| == if offset >= |m| then 0 else |m| - offset)
      && (forall i :: 0 <= i < |items| ==>
            offset + i < |m| && items[i] == m[offset + i].(password := "") &&
            AllHold(filter, items[i].(password := m[offset + i].password)))
  {
    var m := Matching(Query(filter, []), s.order, s.docs);
    var items := ListSpec(s, filter, limit, offset).value.0;
    forall i | 0 <= i < |items|
      ensures offset + i < |m| && items[i] == m[offset + i].(password := "")
      ensures AllHold(filter, items[i].(password := m[offset + i].password))
    {
      assert m[offset + i] in m;
    }
  }

  /** The driver's no-documents error from Find becomes a NotFound; other errors pass through. */
  lemma ListErrors(s: Snapshot, filter: map<Field, Cond>, limit: int, offset: int)
    ensures Counting in s.failing ==> ListSpec(s, filter, limit, offset) == Err(s.failing[Counting])
    ensures Counting !in s.failing && Finding in s.failing ==>
      ListSpec(s, filter, limit, offset) ==
        Err(if s.failing[Finding] == NoDocuments then Typed(ErrNotFound.SetMessage(NotFoundMessage))
            else s.failing[Finding])
    ensures Counting !in s.failing && Finding !in s.failing && offset < 0 ==>
      ListSpec(s, filter, limit, offset) == Err(Plain(NegativeSkipText))
  {
  }

  /** `userRepository` over its collection. */
  class UserRepository {
    const collection: Collection

    constructor (collection: Collection)
      ensures this.collection == collection
    {
      this.collection := collection;
    }

    /** `Create`, with `uuid.NewString()` taken as `newId` and `time.Now()` as `now`. */
    method Create(user: UserRef, newId: string, now: Time) returns (err: Option<Error>)
      requires newId != ""
      modifies user, collection
      ensures CreateOutcome(err, collection.State(), user.v) == CreateSpec(old(collection.State()), old(user.v), newId, now)
    {
      user.v := user.v.(id := newId);
      user.v := user.v.(status := UserStatusActive);
      user.v := user.v.(meta := NewMeta(now));
      var e := collection.InsertOne(user.v);
      if e.Some? && e.value.DuplicateKey? {
        return Some(Typed(ErrConflict.SetMessage(ConflictMessage)));
      }
      user.v := user.v.(password := "");
      err := e;
    }

    /** `checkUniqueness`: counts the other users holding the record's nickName or email. */
    method CheckUniqueness(id: string, user: UserRef) returns (err: Option<Error>)
      ensures err == UniquenessError(collection.State(), id, user.v)
    {
      var filter := Query(map[Id := NotEquals(Str(id))],
                          [map[NickName := Equals(Str(user.v.nickName))], map[Email := Equals(Str(user.v.email))]]);
      var count := collection.CountDocuments(filter);
      if count.Err? {
        return Some(Plain(UniquenessCheckPrefix + count.error.ErrorText()));
      }
      if count.value > 0 {
        return Some(Plain(UniquenessViolatedText));
      }
      err := None;
    }

    /** `Update` of the record stored under `id`, with `time.Now()` taken as `now`. */
    method Update(id: string, user: UserRef, now: Time) returns (r: Result<User>)
      modifies user, collection
      ensures UpdateOutcome(r, collection.State(), user.v) == UpdateSpec(old(collection.State()), id, old(user.v), now)
    {
      var err := CheckUniqueness(id, user);
      if err.Some? {
        return Err(err.value);
      }
      user.v := user.v.(meta := user.v.meta.Update(now));
      var userM := SanitizeForUpdate(user.v);
      r := collection.FindOneAndUpdate(id, userM, 1, true);
    }

    /** `ListByFilter`: the total count, then one page. */
    method ListByFilter(filter: map<Field, Cond>, limit: int, offset: int) returns (r: Result<(seq<User>, int)>)
      ensures r == ListSpec(collection.State(), filter, limit, offset)
    {
      var q := Query(filter, []);
      var totalCount := collection.CountDocuments(q);
      if totalCount.Err? {
        return Err(totalCount.error);
      }
      var cursor := collection.Find(q, offset, limit, true);
      if cursor.Err? {
        if cursor.error == NoDocuments {
          return Err(Typed(ErrNotFound.SetMessage(NotFoundMessage)));
        }
        return Err(cursor.error);
      }
      r := Ok((cursor.value, totalCount.value));
    }

    /** `Delete`: the soft delete of the record stored under `id`, with `time.Now()` taken as `now`. */
    method Delete(id: string, now: Time) returns (err: Option<Error>)
      modifies collection
      ensures DeleteOutcome(err, collection.State()) == DeleteSpec(old(collection.State()), id, now)
    {
      var userM := SanitizeForDelete(now);
      var updated := collection.FindOneAndUpdate(id, userM, 0, false);
      if updated.Err? {
        return Some(updated.error);
      }
      err := None;
    }

    /** `Get`: the stored record, password included; the driver's errors as they are. */
    method Get(id: string) returns (r: Result<User>)
      ensures FindingOne in collection.failing ==> r == Err(collection.failing[FindingOne])
      ensures FindingOne !in collection.failing ==>
        (r.Ok? <==> id in collection.docs) && (r.Ok? ==> r.value == collection.docs[id])
      ensures FindingOne !in collection.failing && id !in collection.docs ==> r == Err(NoDocuments)
    {
      r := collection.FindOne(id);
    }
  }
}

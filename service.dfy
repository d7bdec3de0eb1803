/**
 * internal/service: the user service, between the handlers and the repository.
 *
 * Password hashing (bcrypt) is a parameter: a function from the plain password
 * to its outcome, which may be a hash, the "password too long" failure or any
 * other failure.  What bcrypt computes is not part of this model.
 */
module Service {
  import opened Errors
  import opened ErrWrap
  import opened Model
  import opened Store
  import opened Repository
  import Text

  /** What `crypt.HashPassword` can answer. */
  datatype HashOutcome = Hashed(hash: string) | TooLong | HashFailed

  /** The typed error `CreateUser` returns when hashing fails. */
  function HashFailureError(h: HashOutcome): (e: TypedError)
    requires !h.Hashed?
    ensures h.TooLong? ==> e == TypedError("password is too long", "400", 400)
    ensures h.HashFailed? ==> e == TypedError("unexpected error", "500", 500)
  {
    var code := if h.TooLong? then StatusBadRequest else StatusInternalServerError;
    var message := if h.TooLong? then "password is too long" else "unexpected error";
    NewError(message, Text.Itoa(code)).SetHttpCode(code)
  }

  /** The too-long error is the base bad request with only its message replaced. */
  lemma TooLongIsBadRequest()
    ensures HashFailureError(TooLong) == ErrBadRequest.SetMessage("password is too long")
    ensures HashFailureError(HashFailed) == ErrInternal.SetMessage("unexpected error")
  {
    BaseErrors();
  }

  /**
   * What `CreateUser` does, given what hashing the password answered: a failed
   * hash is reported before the repository is reached; otherwise the hash
   * replaces the password and the repository's create decides.
   */
  function CreateUserSpec(s: Snapshot, u: User, h: HashOutcome, newId: string, now: Time): CreateOutcome
  {
    if !h.Hashed? then CreateOutcome(Some(Typed(HashFailureError(h))), s, u)
    else CreateSpec(s, u.(password := h.hash), newId, now)
  }

  /** A failed hash changes nothing: neither the collection nor the caller's record. */
  lemma CreateUserHashFailure(s: Snapshot, u: User, h: HashOutcome, newId: string, now: Time)
    requires !h.Hashed?
    ensures var o := CreateUserSpec(s, u, h, newId, now);
      o.after == s && o.user == u
    ensures h.TooLong? ==> CreateUserSpec(s, u, h, newId, now).err == Some(Typed(ErrBadRequest.SetMessage("password is too long")))
    ensures h.HashFailed? ==> CreateUserSpec(s, u, h, newId, now).err == Some(Typed(TypedError("unexpected error", "500", 500)))
  {
    TooLongIsBadRequest();
  }

  /**
   * A successful create stores the hash, never the plain password, and hands
   * back the caller's record stamped, with its password emptied.
   */
  lemma CreateUserStoresHash(s: Snapshot, u: User, h: HashOutcome, newId: string, now: Time)
    requires WellFormed(s) && h.Hashed?
    requires CreateUserSpec(s, u, h, newId, now).err.None?
    ensures var o := CreateUserSpec(s, u, h, newId, now);
      && o.after.docs[newId].password == h.hash
      && o.after.docs[newId] == Stamped(u.(password := h.hash), newId, now)
      && o.user == Stamped(u, newId, now).(password := "")
      && WellFormed(o.after)
  {
    CreateSucceeds(s, u.(password := h.hash), newId, now);
  }

  /** Repository errors reach the caller unchanged. */
  lemma CreateUserPassesRepositoryErrors(s: Snapshot, u: User, h: HashOutcome, newId: string, now: Time)
    requires h.Hashed?
    ensures CreateUserSpec(s, u, h, newId, now).err == CreateSpec(s, u.(password := h.hash), newId, now).err
  {
  }

  /** The pagination envelope `ListUsers` builds around one page. */
  function MakePagination(items: seq<User>, total: int, limit: Int64, offset: Int64): Pagination
  {
    Pagination(total, limit, offset, Wrap64(offset + limit) < total, offset > 0, items)
  }

  /** The envelope echoes its inputs; without overflow, there is a next page exactly when `offset + limit < total`. */
  lemma PaginationMeaning(items: seq<User>, total: int, limit: Int64, offset: Int64)
    ensures var p := MakePagination(items, total, limit, offset);
      p.totalRecords == total && p.limit == limit && p.offset == offset && p.items == items
    ensures MakePagination(items, total, limit, offset).hasPrevious <==> offset > 0
    ensures MinInt64 <= offset + limit <= MaxInt64 ==>
      (MakePagination(items, total, limit, offset).hasNext <==> offset + limit < total)
  {
  }

  /** The two cases of the service tests. */
  lemma PaginationExamples(items: seq<User>)
    ensures var p := MakePagination(items, 2, 10, 0); !p.hasNext && !p.hasPrevious
    ensures var p := MakePagination(items, 100, 10, 2); p.hasNext && p.hasPrevious
  {
  }

  /** `offset + limit` is computed in 64 bits: at the top of the range it wraps, and a next page is announced. */
  lemma PaginationWrapsAround(items: seq<User>, total: int)
    requires total >= 0
    ensures MakePagination(items, total, 1, MaxInt64).hasNext
  {
  }

  /** What `ListUsers` returns. */
  function ListUsersSpec(s: Snapshot, f: UserFilter, limit: Int64, offset: Int64): Result<Pagination>
  {
    match ListSpec(s, FilterQuery(f), limit, offset)
    case Err(e) => Err(e)
    case Ok((items, total)) => Ok(MakePagination(items, total, limit, offset))
  }

  /**
   * A listing with a positive limit: the total counts the users the filter
   * accepts, the page holds the accepted users from `offset` on (at most
   * `limit`, without passwords), and there is a next page exactly when accepted
   * users remain after this page.
   */
  lemma ListUsersMeaning(s: Snapshot, f: UserFilter, limit: Int64, offset: Int64)
    requires Counting !in s.failing && Finding !in s.failing
    requires 0 <= offset && 0 < limit && offset + limit <= MaxInt64
    ensures ListUsersSpec(s, f, limit, offset).Ok?
    ensures var p := ListUsersSpec(s, f, limit, offset).value;
      var m := Matching(Query(FilterQuery(f), []), s.order, s.docs);
      && p.totalRecords == |m|
      && |p.items| <= limit
      && |p.items| == (if offset >= |m| then 0 else Min(limit, |m| - offset))
      && (forall i :: 0 <= i < |p.items| ==> Accepts(f, p.items[i]) && p.items[i].password == "")
      && (p.hasNext <==> offset + |p.items| < p.totalRecords)
      && (p.hasPrevious <==> offset > 0)
  {
    ListMeaning(s, FilterQuery(f), limit, offset);
    var m := Matching(Query(FilterQuery(f), []), s.order, s.docs);
    var p := ListUsersSpec(s, f, limit, offset).value;
    forall i | 0 <= i < |p.items|
      ensures Accepts(f, p.items[i])
    {
      FilterQueryMeaning(f, p.items[i].(password := m[offset + i].password));
    }
  }

  /**
   * Limit 0 reaches the driver as "no limit": the first page holds every accepted
   * user, and yet a next page is announced whenever there is any.
   */
  lemma ListUsersLimitZero(s: Snapshot, f: UserFilter)
    requires Counting !in s.failing && Finding !in s.failing
    ensures ListUsersSpec(s, f, 0, 0).Ok?
    ensures var p := ListUsersSpec(s, f, 0, 0).value;
      |p.items| == p.totalRecords && (p.hasNext <==> p.totalRecords > 0)
  {
    ListMeaning(s, FilterQuery(f), 0, 0);
  }

  /** `userService` over its repository. */
  class UserService {
    const repository: UserRepository

    constructor (repository: UserRepository)
      ensures this.repository == repository
    {
      this.repository := repository;
    }

    /**
     * `CreateUser`, with `crypt.HashPassword` taken as `hash`, `uuid.NewString()` as
     * `newId` and `time.Now()` as `now`.  On success the result is the caller's own
     * record, updated in place.
     */
    method CreateUser(user: UserRef, hash: string -> HashOutcome, newId: string, now: Time)
      returns (created: UserRef?, err: Option<Error>)
      requires newId != ""
      modifies user, repository.collection
      ensures CreateOutcome(err, repository.collection.State(), user.v) ==
        CreateUserSpec(old(repository.collection.State()), old(user.v), hash(old(user.v.password)), newId, now)
      ensures created == if err.None? then user else null
    {
      var hashedPwd := hash(user.v.password);
      if !hashedPwd.Hashed? {
        var code := StatusInternalServerError;
        var message := "unexpected error";
        if hashedPwd.TooLong? {
          code := StatusBadRequest;
          message := "password is too long";
        }
        return null, Some(Typed(NewError(message, Text.Itoa(code)).SetHttpCode(code)));
      }
      user.v := user.v.(password := hashedPwd.hash);
      err := repository.Create(user, newId, now);
      if err.Some? {
        return null, err;
      }
      created := user;
    }

    /**
     * `UpdateUserById`: the payload is a copy whose own id is cleared; the path id
     * selects the record.  The outcome is the repository's, and as the payload
     * id plays no part in it, the same as for the payload unchanged.
     */
    method UpdateUserById(id: string, user: User, now: Time) returns (r: Result<User>)
      modifies repository.collection
      ensures var o := UpdateSpec(old(repository.collection.State()), id, user.(id := ""), now);
        r == o.r && repository.collection.State() == o.after
      ensures var o := UpdateSpec(old(repository.collection.State()), id, user, now);
        r == o.r && repository.collection.State() == o.after
    {
      UpdateIgnoresPayloadId(repository.collection.State(), id, user, "", now);
      var copy := new UserRef(user);
      copy.v := copy.v.(id := "");
      r := repository.Update(id, copy, now);
    }

    /** `DeleteUserById`: the repository's soft delete, its error unchanged. */
    method DeleteUserById(id: string, now: Time) returns (err: Option<Error>)
      modifies repository.collection
      ensures DeleteOutcome(err, repository.collection.State()) == DeleteSpec(old(repository.collection.State()), id, now)
    {
      err := repository.Delete(id, now);
    }

    /** `ListUsers`: translate the filter, fetch one page and wrap it. */
    method ListUsers(userFilter: UserFilter, limit: Int64, offset: Int64) returns (r: Result<Pagination>)
      ensures r == ListUsersSpec(repository.collection.State(), userFilter, limit, offset)
    {
      var filter := ToBson(userFilter);
      var listed := repository.ListByFilter(filter, limit, offset);
      if listed.Err? {
        return Err(listed.error);
      }
      var (users, totalCount) := listed.value;
      var hasNext := Wrap64(offset + limit) < totalCount;
      var hasPrevious := offset > 0;
      r := Ok(Pagination(totalCount, limit, offset, hasNext, hasPrevious, users));
    }
  }
}

/**
 * internal/model: the user record, its metadata, the sparse filter and its
 * translation into a document filter, and the pagination envelope.
 *
 * A stored document is a `User`; `FieldValue` gives what it holds under each BSON
 * key (the struct's bson tags), and `CondHolds` / `AllHold` say when a filter
 * condition matches it.
 */
module Model {
  import opened Errors

  /** A `time.Time` instant, opaque to the core. */
  type Time = int

  // Go's `int` is 64 bits wide on the platforms the service targets.
  const MinInt64: int := -0x8000_0000_0000_0000
  const MaxInt64: int := 0x7FFF_FFFF_FFFF_FFFF
  type Int64 = x: int | MinInt64 <= x <= MaxInt64

  /** Two's-complement wrap-around of an integer into 64 bits. */
  function Wrap64(x: int): (r: Int64)
    ensures MinInt64 <= x <= MaxInt64 ==> r == x
    ensures (r - x) % 0x1_0000_0000_0000_0000 == 0
  {
    (x - MinInt64) % 0x1_0000_0000_0000_0000 + MinInt64
  }

  // UserStatus constants.
  const UserStatusActive: int := 1
  const UserStatusInactive: int := 2

  /** Creation and update timestamps and the update counter. */
  datatype Meta = Meta(createdAt: Time, updatedAt: Time, version: int)
  {
    /** `m.Update()`: the metadata after being touched at `now`. */
    function Update(now: Time): (r: Meta)
      ensures r.updatedAt == now
      ensures r.createdAt == createdAt && r.version == version
    {
      this.(updatedAt := now)
    }
  }

  /** `NewMeta()`, with `time.Now()` taken as `now`. */
  function NewMeta(now: Time): (m: Meta)
    ensures m.createdAt == now && m.updatedAt == now
    ensures m.version == 0
  {
    Meta(now, now, 0)
  }

  /** Touching twice is touching once, at the later instant. */
  lemma MetaUpdateLastWins(m: Meta, t1: Time, t2: Time)
    ensures m.Update(t1).Update(t2) == m.Update(t2)
  {
  }

  /** The user record (the `User` struct with its embedded `Meta`). */
  datatype User = User(
    id: string,
    firstName: string,
    lastName: string,
    nickName: string,
    password: string,
    email: string,
    country: string,
    status: int,
    meta: Meta)

  /** A `*model.User`: a user record that callers share and update in place. */
  class UserRef {
    var v: User

    constructor (u: User)
      ensures v == u
    {
      v := u;
    }
  }

  /** A sparse query-by-example: empty strings and status 0 mean "not given". */
  datatype UserFilter = UserFilter(
    id: string,
    firstName: string,
    lastName: string,
    nickName: string,
    email: string,
    country: string,
    status: int)

  /** `Pagination`: the envelope of one page of a listing. */
  datatype Pagination = Pagination(
    totalRecords: int,
    limit: Int64,
    offset: Int64,
    hasNext: bool,
    hasPrevious: bool,
    items: seq<User>)

  /** A BSON value as the core uses them. */
  datatype Value = Str(s: string) | Int(i: int) | Date(t: Time)

  /** A key of a stored user document. */
  datatype Field =
    | Id | FirstName | LastName | NickName | Password | Email | Country
    | Status | CreatedAt | UpdatedAt | Version
  {
    /** The BSON key (the struct's bson tag). */
    function Name(): string
    {
      match this
      case Id => "_id"
      case FirstName => "firstName"
      case LastName => "lastName"
      case NickName => "nickName"
      case Password => "password"
      case Email => "email"
      case Country => "country"
      case Status => "status"
      case CreatedAt => "createdAt"
      case UpdatedAt => "updatedAt"
      case Version => "version"
    }
  }

  /** A per-field condition of a document filter. */
  datatype Cond =
    | Equals(v: Value)                          // {"k": v}
    | NotEquals(v: Value)                       // {"k": {"$ne": v}}
    | Regex(pattern: string, options: string)   // {"k": {"$regex": p, "$options": o}}

  /** The value a document holds under a key. */
  function FieldValue(k: Field, u: User): Value
  {
    match k
    case Id => Str(u.id)
    case FirstName => Str(u.firstName)
    case LastName => Str(u.lastName)
    case NickName => Str(u.nickName)
    case Password => Str(u.password)
    case Email => Str(u.email)
    case Country => Str(u.country)
    case Status => Int(u.status)
    case CreatedAt => Date(u.meta.createdAt)
    case UpdatedAt => Date(u.meta.updatedAt)
    case Version => Int(u.meta.version)
  }

  function LowerAscii(c: char): char
  {
    if 'A' <= c <= 'Z' then (c as int + 32) as char else c
  }

  /** `p` is a prefix of `s` up to ASCII case. */
  predicate FoldPrefix(p: string, s: string)
  {
    |p| <= |s| && forall i :: 0 <= i < |p| ==> LowerAscii(p[i]) == LowerAscii(s[i])
  }

  /**
   * `$regex` for the anchored patterns the core builds: "^" followed by the text
   * the value must begin with; option "i" ignores (ASCII) case.
   */
  predicate RegexMatches(pattern: string, options: string, s: string)
  {
    |pattern| > 0 && pattern[0] == '^' &&
    if options == "i" then FoldPrefix(pattern[1..], s) else pattern[1..] <= s
  }

  predicate CondHolds(c: Cond, v: Value)
  {
    match c
    case Equals(w) => v == w
    case NotEquals(w) => v != w
    case Regex(p, o) => v.Str? && RegexMatches(p, o, v.s)
  }

  /** A document satisfies every condition of a filter document. */
  predicate AllHold(conds: map<Field, Cond>, u: User)
  {
    forall k :: k in conds ==> CondHolds(conds[k], FieldValue(k, u))
  }

  /** The keys `UserFilter.ToBson` may emit. */
  const FilterKeys: set<Field> := {Id, FirstName, LastName, NickName, Email, Country, Status}

  /** The entry `UserFilter.ToBson` emits under key `k`, if any: one rule per field. */
  function FilterEntry(f: UserFilter, k: Field): Option<Cond>
  {
    match k
    case Id => if f.id != "" then Some(Equals(Str(f.id))) else None
    case FirstName => if f.firstName != "" then Some(Regex("^" + f.firstName, "i")) else None
    case LastName => if f.lastName != "" then Some(Regex("^" + f.lastName, "i")) else None
    case NickName => if f.nickName != "" then Some(Equals(Str(f.nickName))) else None
    case Email => if f.email != "" then Some(Equals(Str(f.email))) else None
    case Country => if f.country != "" then Some(Equals(Str(f.country))) else None
    case Status =>
      if f.status == 0 then Some(Equals(Int(UserStatusActive)))
      else if f.status > 0 then Some(Equals(Int(f.status)))
      else None
    case _ => None
  }

  /** What `UserFilter.ToBson` returns for `f`. */
  function FilterQuery(f: UserFilter): (q: map<Field, Cond>)
    ensures q.Keys <= FilterKeys
    ensures Id in q <==> f.id != ""
    ensures FirstName in q <==> f.firstName != ""
    ensures LastName in q <==> f.lastName != ""
    ensures NickName in q <==> f.nickName != ""
    ensures Email in q <==> f.email != ""
    ensures Country in q <==> f.country != ""
    ensures Status in q <==> f.status >= 0
    ensures Id in q ==> q[Id] == Equals(Str(f.id))
    ensures FirstName in q ==> q[FirstName] == Regex("^" + f.firstName, "i")
    ensures LastName in q ==> q[LastName] == Regex("^" + f.lastName, "i")
    ensures NickName in q ==> q[NickName] == Equals(Str(f.nickName))
    ensures Email in q ==> q[Email] == Equals(Str(f.email))
    ensures Country in q ==> q[Country] == Equals(Str(f.country))
    ensures f.status == 0 ==> q[Status] == Equals(Int(UserStatusActive))
    ensures f.status > 0 ==> q[Status] == Equals(Int(f.status))
  {
    map k | k in FilterKeys && FilterEntry(f, k).Some? :: FilterEntry(f, k).value
  }

  /**
   * `UserFilter.ToBson`: starts from an empty filter document and adds one entry
   * per given field.
   */
  method ToBson(f: UserFilter) returns (mongoFilter: map<Field, Cond>)
    ensures mongoFilter == FilterQuery(f)
  {
    mongoFilter := map[];
    if f.id != "" {
      mongoFilter := mongoFilter[Id := Equals(Str(f.id))];
    }
    if f.firstName != "" {
      mongoFilter := mongoFilter[FirstName := Regex("^" + f.firstName, "i")];
    }
    if f.lastName != "" {
      mongoFilter := mongoFilter[LastName := Regex("^" + f.lastName, "i")];
    }
    if f.nickName != "" {
      mongoFilter := mongoFilter[NickName := Equals(Str(f.nickName))];
    }
    if f.email != "" {
      mongoFilter := mongoFilter[Email := Equals(Str(f.email))];
    }
    if f.country != "" {
      mongoFilter := mongoFilter[Country := Equals(Str(f.country))];
    }
    if f.status == 0 {
      mongoFilter := mongoFilter[Status := Equals(Int(UserStatusActive))];
    } else if f.status > 0 {
      mongoFilter := mongoFilter[Status := Equals(Int(f.status))];
    }
    forall k
      ensures k in mongoFilter <==> FilterEntry(f, k).Some?
      ensures k in mongoFilter ==> mongoFilter[k] == FilterEntry(f, k).value
    {
    }
    FilterQueryByEntries(f, mongoFilter);
  }

  /** A filter document holding exactly the entries of `FilterEntry` is `FilterQuery`. */
  lemma FilterQueryByEntries(f: UserFilter, m: map<Field, Cond>)
    requires forall k :: k in m <==> FilterEntry(f, k).Some?
    requires forall k :: k in m ==> m[k] == FilterEntry(f, k).value
    ensures m == FilterQuery(f)
  {
    var q := FilterQuery(f);
    forall k ensures k in m <==> k in q {
      if k !in FilterKeys { assert FilterEntry(f, k).None?; }
    }
    assert m.Keys == q.Keys;
  }

  /** The empty filter asks for active users only. */
  lemma EmptyFilterQuery()
    ensures FilterQuery(UserFilter("", "", "", "", "", "", 0)) == map[Status := Equals(Int(UserStatusActive))]
  {
  }

  /**
   * The meaning of a filter, field by field: exact match for id, nickname, email
   * and country; case-insensitive prefix for the names; status 0 means Active,
   * a positive status that status, a negative one any status.
   */
  predicate Accepts(f: UserFilter, u: User)
  {
    && (f.id == "" || u.id == f.id)
    && (f.firstName == "" || FoldPrefix(f.firstName, u.firstName))
    && (f.lastName == "" || FoldPrefix(f.lastName, u.lastName))
    && (f.nickName == "" || u.nickName == f.nickName)
    && (f.email == "" || u.email == f.email)
    && (f.country == "" || u.country == f.country)
    && (if f.status == 0 then u.status == UserStatusActive
        else f.status > 0 ==> u.status == f.status)
  }

  /** A document matches the translated filter exactly when the filter accepts it. */
  lemma {:induction false} FilterQueryMeaning(f: UserFilter, u: User)
    ensures AllHold(FilterQuery(f), u) <==> Accepts(f, u)
  {
    var q := FilterQuery(f);
    assert f.firstName != "" ==> ("^" + f.firstName)[1..] == f.firstName;
    assert f.lastName != "" ==> ("^" + f.lastName)[1..] == f.lastName;
    if AllHold(q, u) {
      if f.id != "" { assert CondHolds(q[Id], FieldValue(Id, u)); }
      if f.firstName != "" { assert CondHolds(q[FirstName], FieldValue(FirstName, u)); }
      if f.lastName != "" { assert CondHolds(q[LastName], FieldValue(LastName, u)); }
      if f.nickName != "" { assert CondHolds(q[NickName], FieldValue(NickName, u)); }
      if f.email != "" { assert CondHolds(q[Email], FieldValue(Email, u)); }
      if f.country != "" { assert CondHolds(q[Country], FieldValue(Country, u)); }
      if f.status >= 0 { assert CondHolds(q[Status], FieldValue(Status, u)); }
    }
  }

  /** With status left at 0, only active users match; with status 2, only inactive ones. */
  lemma DefaultStatusVisibility(f: UserFilter, u: User)
    requires AllHold(FilterQuery(f), u)
    ensures f.status == 0 ==> u.status == UserStatusActive
    ensures f.status == UserStatusInactive ==> u.status == UserStatusInactive
  {
    FilterQueryMeaning(f, u);
  }

  /** A value of the kind stored under a settable (non-`_id`) key. */
  predicate Fits(k: Field, v: Value)
  {
    match k
    case Id => false
    case Status => v.Int?
    case Version => v.Int?
    case CreatedAt => v.Date?
    case UpdatedAt => v.Date?
    case _ => v.Str?
  }

  function StrOr(upd: map<Field, Value>, k: Field, dflt: string): string
  {
    if k in upd && upd[k].Str? then upd[k].s else dflt
  }

  function IntOr(upd: map<Field, Value>, k: Field, dflt: int): int
  {
    if k in upd && upd[k].Int? then upd[k].i else dflt
  }

  function DateOr(upd: map<Field, Value>, k: Field, dflt: Time): Time
  {
    if k in upd && upd[k].Date? then upd[k].t else dflt
  }

  /**
   * `$set`: every settable key given writes its field; every other field, and the
   * immutable `_id`, is kept.
   */
  function ApplySet(u: User, upd: map<Field, Value>): (r: User)
    ensures r.id == u.id
    ensures forall k :: k in upd && Fits(k, upd[k]) ==> FieldValue(k, r) == upd[k]
    ensures forall k :: k !in upd ==> FieldValue(k, r) == FieldValue(k, u)
  {
    User(u.id,
         StrOr(upd, FirstName, u.firstName),
         StrOr(upd, LastName, u.lastName),
         StrOr(upd, NickName, u.nickName),
         StrOr(upd, Password, u.password),
         StrOr(upd, Email, u.email),
         StrOr(upd, Country, u.country),
         IntOr(upd, Status, u.status),
         Meta(DateOr(upd, CreatedAt, u.meta.createdAt),
              DateOr(upd, UpdatedAt, u.meta.updatedAt),
              IntOr(upd, Version, u.meta.version)))
  }
}

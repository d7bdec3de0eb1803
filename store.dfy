/**
 * An in-memory stand-in for the `users` collection of MongoDB, offering exactly
 * the driver calls the repository makes: CountDocuments, Find (skip, limit and a
 * password projection), InsertOne, FindOneAndUpdate on `_id` (`$set`, `$inc`,
 * return-after) and FindOne on `_id`.
 *
 * Documents are kept by `_id`; `order` is the natural (insertion) order in which
 * queries return them.  The unique indexes the repository creates on `email` and
 * `nickName` (and MongoDB's own on `_id`) are an invariant of the state, and a
 * write that would break one fails with a duplicate-key error.  Failures of the
 * server itself (network, timeouts, ...) are not computed: `failing` names, per
 * call, the error that call reports, so every error branch of the callers is
 * reachable.
 */
module Store {
  import opened Errors
  import opened Model

  /** The driver calls the repository uses. */
  datatype Op = Counting | Finding | Inserting | Updating | FindingOne

  /** The write error text of a unique-index violation (server text not modelled). */
  const DuplicateKeyText := "E11000 duplicate key error"
  /** The server's answer to a negative skip (server text not modelled). */
  const NegativeSkipText := "BSON field 'skip' value must be >= 0"

  /**
   * A filter document: every condition of `conds` must hold, and, when `anyOf`
   * is not empty, every condition of at least one of its members (`$or`).
   */
  datatype Query = Query(conds: map<Field, Cond>, anyOf: seq<map<Field, Cond>>)

  predicate Selects(q: Query, u: User)
  {
    AllHold(q.conds, u) &&
    (|q.anyOf| == 0 || exists i :: 0 <= i < |q.anyOf| && AllHold(q.anyOf[i], u))
  }

  /** The filter `{"_id": id}`. */
  function ById(id: string): Query
  {
    Query(map[Id := Equals(Str(id))], [])
  }

  /** The contents of a collection, plus the server failures it is set up to report. */
  datatype Snapshot = Snapshot(docs: map<string, User>, order: seq<string>, failing: map<Op, Error>)

  /** Another document than the one stored under `key` holds `doc`'s email or nickName. */
  predicate ClashesExcept(s: Snapshot, key: string, doc: User)
  {
    exists k :: k in s.docs && k != key &&
      (s.docs[k].email == doc.email || s.docs[k].nickName == doc.nickName)
  }

  /** No two documents share an email or a nickName. */
  predicate UniqueIndexes(docs: map<string, User>)
  {
    forall a, b :: a in docs && b in docs && a != b ==>
      docs[a].email != docs[b].email && docs[a].nickName != docs[b].nickName
  }

  /**
   * A well-formed collection: `order` lists every stored `_id` exactly once, each
   * document is stored under its own `_id`, and the unique indexes hold.
   */
  predicate WellFormed(s: Snapshot)
  {
    && (forall i, j :: 0 <= i < j < |s.order| ==> s.order[i] != s.order[j])
    && (forall k :: k in s.docs ==> k in s.order)
    && (forall k :: k in s.order ==> k in s.docs)
    && (forall k :: k in s.docs ==> s.docs[k].id == k)
    && UniqueIndexes(s.docs)
  }

  /** The documents stored under `ids` that `q` selects, in the order of `ids`. */
  function Matching(q: Query, ids: seq<string>, docs: map<string, User>): (r: seq<User>)
    ensures |r| <= |ids|
    ensures forall u :: u in r ==> Selects(q, u) && u in docs.Values
  {
    if |ids| == 0 then []
    else
      var last := ids[|ids| - 1];
      Matching(q, ids[..|ids| - 1], docs) +
        (if last in docs && Selects(q, docs[last]) then [docs[last]] else [])
  }

  /** Some document is selected exactly when the result is not empty. */
  lemma {:induction false} MatchingNonEmpty(q: Query, ids: seq<string>, docs: map<string, User>)
    ensures |Matching(q, ids, docs)| > 0 <==>
      exists i :: 0 <= i < |ids| && ids[i] in docs && Selects(q, docs[ids[i]])
  {
    if |ids| > 0 {
      var init := ids[..|ids| - 1];
      MatchingNonEmpty(q, init, docs);
      if exists i :: 0 <= i < |init| && init[i] in docs && Selects(q, docs[init[i]]) {
        var i :| 0 <= i < |init| && init[i] in docs && Selects(q, docs[init[i]]);
        assert ids[i] == init[i];
      }
    }
  }

  /** A document is selected from a well-formed collection exactly when some stored document satisfies `q`. */
  lemma SelectedFromCollection(s: Snapshot, q: Query)
    requires WellFormed(s)
    ensures |Matching(q, s.order, s.docs)| > 0 <==> exists k :: k in s.docs && Selects(q, s.docs[k])
  {
    MatchingNonEmpty(q, s.order, s.docs);
    if exists k :: k in s.docs && Selects(q, s.docs[k]) {
      var k :| k in s.docs && Selects(q, s.docs[k]);
      assert k in s.order;
      var i :| 0 <= i < |s.order| && s.order[i] == k;
    }
  }

  function Abs(x: int): nat
  {
    if x < 0 then -x else x
  }

  /**
   * Skip then limit: the documents from position `skip` on, at most `|limit|` of
   * them unless `limit` is 0, which means no limit (a negative limit is taken as
   * its absolute value, a single batch).
   */
  function Window(s: seq<User>, skip: nat, limit: int): (r: seq<User>)
    ensures forall i :: 0 <= i < |r| ==> skip + i < |s| && r[i] == s[skip + i]
    ensures limit == 0 ==> |r| == if skip >= |s| then 0 else |s| - skip
    ensures limit != 0 ==> |r| == if skip >= |s| then 0 else Min(Abs(limit), |s| - skip)
  {
    var rest := if skip >= |s| then [] else s[skip..];
    if limit == 0 || |rest| <= Abs(limit) then rest else rest[..Abs(limit)]
  }

  function Min(a: int, b: int): int
  {
    if a < b then a else b
  }

  /** The projection `{"password": 0}` when asked for. */
  function Projected(u: User, hidePassword: bool): (r: User)
    ensures r.password == (if hidePassword then "" else u.password)
    ensures r.(password := u.password) == u
  {
    if hidePassword then u.(password := "") else u
  }

  function ProjectedAll(s: seq<User>, hidePassword: bool): (r: seq<User>)
    ensures |r| == |s|
    ensures forall i :: 0 <= i < |s| ==> r[i] == Projected(s[i], hidePassword)
  {
    seq(|s|, i requires 0 <= i < |s| => Projected(s[i], hidePassword))
  }

  /** `CountDocuments(q)`. */
  function CountResult(s: Snapshot, q: Query): Result<int>
  {
    if Counting in s.failing then Err(s.failing[Counting])
    else Ok(|Matching(q, s.order, s.docs)|)
  }

  /** `Find(q)` with skip, limit and, optionally, the password projection. */
  function FindResult(s: Snapshot, q: Query, skip: int, limit: int, hidePassword: bool): Result<seq<User>>
  {
    if Finding in s.failing then Err(s.failing[Finding])
    else if skip < 0 then Err(Plain(NegativeSkipText))
    else Ok(ProjectedAll(Window(Matching(q, s.order, s.docs), skip, limit), hidePassword))
  }

  /** `InsertOne(doc)`: the error it reports, if any. */
  function InsertError(s: Snapshot, doc: User): Option<Error>
  {
    if Inserting in s.failing then Some(s.failing[Inserting])
    else if doc.id in s.docs || ClashesExcept(s, doc.id, doc) then Some(DuplicateKey(DuplicateKeyText))
    else None
  }

  /** The collection after `doc` is stored. */
  function Inserted(s: Snapshot, doc: User): Snapshot
  {
    Snapshot(s.docs[doc.id := doc], s.order + [doc.id], s.failing)
  }

  /** A document after `$set: upd` and `$inc: {"version": inc}`. */
  function SetAndInc(u: User, upd: map<Field, Value>, inc: int): (r: User)
    ensures r.meta.version == ApplySet(u, upd).meta.version + inc
    ensures r.(meta := r.meta.(version := ApplySet(u, upd).meta.version)) == ApplySet(u, upd)
  {
    var w := ApplySet(u, upd);
    w.(meta := w.meta.(version := w.meta.version + inc))
  }

  /** `FindOneAndUpdate({"_id": id}, ...)` returning the document after the update, optionally projected. */
  function UpdateResult(s: Snapshot, id: string, upd: map<Field, Value>, inc: int, hidePassword: bool): Result<User>
  {
    if Updating in s.failing then Err(s.failing[Updating])
    else if id !in s.docs then Err(NoDocuments)
    else
      var after := SetAndInc(s.docs[id], upd, inc);
      if ClashesExcept(s, id, after) then Err(DuplicateKey(DuplicateKeyText))
      else Ok(Projected(after, hidePassword))
  }

  /** The collection after that call: the document replaced if the call succeeded. */
  function Updated(s: Snapshot, id: string, upd: map<Field, Value>, inc: int): Snapshot
  {
    if UpdateResult(s, id, upd, inc, false).Ok? then
      Snapshot(s.docs[id := SetAndInc(s.docs[id], upd, inc)], s.order, s.failing)
    else s
  }

  /** `FindOne({"_id": id})`, without projection. */
  function FindOneResult(s: Snapshot, id: string): Result<User>
  {
    if FindingOne in s.failing then Err(s.failing[FindingOne])
    else if id !in s.docs then Err(NoDocuments)
    else Ok(s.docs[id])
  }

  /** A successful insert keeps the collection well formed and stores `doc` last. */
  lemma InsertPreservesWellFormed(s: Snapshot, doc: User)
    requires WellFormed(s) && InsertError(s, doc).None?
    ensures WellFormed(Inserted(s, doc))
    ensures Inserted(s, doc).docs[doc.id] == doc
    ensures Inserted(s, doc).order[|s.order|] == doc.id
  {
    var t := Inserted(s, doc);
    forall a, b | a in t.docs && b in t.docs && a != b
      ensures t.docs[a].email != t.docs[b].email && t.docs[a].nickName != t.docs[b].nickName
    {
      if a == doc.id {
        assert b in s.docs;
      } else if b == doc.id {
        assert a in s.docs;
      }
    }
  }

  /** A rejected insert is reported as a duplicate key exactly when an index is hit. */
  lemma InsertDuplicateMeaning(s: Snapshot, doc: User)
    requires Inserting !in s.failing
    ensures InsertError(s, doc) == Some(DuplicateKey(DuplicateKeyText)) <==>
      doc.id in s.docs ||
      exists k :: k in s.docs && k != doc.id &&
        (s.docs[k].email == doc.email || s.docs[k].nickName == doc.nickName)
    ensures InsertError(s, doc).Some? ==> InsertError(s, doc) == Some(DuplicateKey(DuplicateKeyText))
  {
  }

  /** A successful update keeps the collection well formed. */
  lemma UpdatePreservesWellFormed(s: Snapshot, id: string, upd: map<Field, Value>, inc: int)
    requires WellFormed(s)
    ensures WellFormed(Updated(s, id, upd, inc))
  {
    if UpdateResult(s, id, upd, inc, false).Ok? {
      var after := SetAndInc(s.docs[id], upd, inc);
      var t := Updated(s, id, upd, inc);
      assert after.id == id;
      forall a, b | a in t.docs && b in t.docs && a != b
        ensures t.docs[a].email != t.docs[b].email && t.docs[a].nickName != t.docs[b].nickName
      {
        if a == id {
          assert b in s.docs && b != id;
        } else if b == id {
          assert a in s.docs && a != id;
        }
      }
    }
  }

  /**
   * The collection object.  Each method performs one driver call; the read-only
   * ones change nothing.
   */
  class Collection {
    var docs: map<string, User>
    var order: seq<string>
    var failing: map<Op, Error>

    function State(): Snapshot
      reads this
    {
      Snapshot(docs, order, failing)
    }

    /** An empty collection whose calls report the errors of `failing`. */
    constructor (failing: map<Op, Error>)
      ensures State() == Snapshot(map[], [], failing)
      ensures WellFormed(State())
    {
      docs := map[];
      order := [];
      this.failing := failing;
    }

    method CountDocuments(q: Query) returns (r: Result<int>)
      ensures r == CountResult(State(), q)
      ensures r.Ok? ==> 0 <= r.value <= |order|
    {
      if Counting in failing {
        return Err(failing[Counting]);
      }
      r := Ok(|Matching(q, order, docs)|);
    }

    method Find(q: Query, skip: int, limit: int, hidePassword: bool) returns (r: Result<seq<User>>)
      ensures r == FindResult(State(), q, skip, limit, hidePassword)
      ensures r.Ok? && limit != 0 ==> |r.value| <= Abs(limit)
      ensures r.Ok? && hidePassword ==> forall i :: 0 <= i < |r.value| ==> r.value[i].password == ""
    {
      if Finding in failing {
        return Err(failing[Finding]);
      }
      if skip < 0 {
        return Err(Plain(NegativeSkipText));
      }
      var page := Window(Matching(q, order, docs), skip, limit);
      r := Ok(ProjectedAll(page, hidePassword));
    }

    method InsertOne(doc: User) returns (err: Option<Error>)
      requires doc.id != ""
      modifies this
      ensures err == InsertError(old(State()), doc)
      ensures State() == if err.None? then Inserted(old(State()), doc) else old(State())
    {
      if Inserting in failing {
        return Some(failing[Inserting]);
      }
      if doc.id in docs || ClashesExcept(State(), doc.id, doc) {
        return Some(DuplicateKey(DuplicateKeyText));
      }
      docs := docs[doc.id := doc];
      order := order + [doc.id];
      err := None;
    }

    method FindOneAndUpdate(id: string, upd: map<Field, Value>, inc: int, hidePassword: bool)
      returns (r: Result<User>)
      modifies this
      ensures r == UpdateResult(old(State()), id, upd, inc, hidePassword)
      ensures State() == Updated(old(State()), id, upd, inc)
    {
      if Updating in failing {
        return Err(failing[Updating]);
      }
      if id !in docs {
        return Err(NoDocuments);
      }
      var after := SetAndInc(docs[id], upd, inc);
      if ClashesExcept(State(), id, after) {
        return Err(DuplicateKey(DuplicateKeyText));
      }
      docs := docs[id := after];
      r := Ok(Projected(after, hidePassword));
    }

    method FindOne(id: string) returns (r: Result<User>)
      ensures r == FindOneResult(State(), id)
    {
      if FindingOne in failing {
        return Err(failing[FindingOne]);
      }
      if id !in docs {
        return Err(NoDocuments);
      }
      r := Ok(docs[id]);
    }
  }
}

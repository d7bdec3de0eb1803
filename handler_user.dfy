/**
 * internal/handler/user: the request and response types of the typed handlers,
 * their validators, and the handlers themselves, which call the service and
 * answer (response, success status, error).
 *
 * A validator collects one message per violated rule, in a fixed order, and
 * reports them joined by ";;" as the base bad-request error with that message.
 * Each is specified against `ValidationError(Violations(rules))`, where the rules
 * are the (violated?, message) pairs of that request, in order.
 */
module HandlerUser {
  import opened Errors
  import opened ErrWrap
  import opened Model
  import opened Store
  import opened Repository
  import opened Service
  import Text

  /** The default page size. */
  const DefaultLimit: Int64 := 20
  const Separator := ";;"

  /** The messages of the violated rules, in rule order. */
  function Violations(rules: seq<(bool, string)>): (r: seq<string>)
    ensures |r| <= |rules|
  {
    if |rules| == 0 then []
    else (if rules[0].0 then [rules[0].1] else []) + Violations(rules[1..])
  }

  /** The message of one rule, if violated. */
  function Flag(rule: (bool, string)): seq<string>
  {
    if rule.0 then [rule.1] else []
  }

  /** Peeling one rule off the front of a suffix. */
  lemma ViolationsFrom(rules: seq<(bool, string)>, i: nat)
    requires i < |rules|
    ensures Violations(rules[i..]) == Flag(rules[i]) + Violations(rules[i + 1..])
  {
    assert rules[i..][1..] == rules[i + 1..];
  }

  /** No message exactly when no rule is violated. */
  lemma {:induction false} ViolationsEmpty(rules: seq<(bool, string)>)
    ensures Violations(rules) == [] <==> forall i :: 0 <= i < |rules| ==> !rules[i].0
  {
    if |rules| > 0 {
      ViolationsEmpty(rules[1..]);
      assert forall i :: 1 <= i < |rules| ==> rules[i] == rules[1..][i - 1];
    }
  }

  /** A message appears exactly when a rule carrying it is violated. */
  lemma {:induction false} ViolationsMembers(rules: seq<(bool, string)>, m: string)
    ensures m in Violations(rules) <==> exists i :: 0 <= i < |rules| && rules[i].0 && rules[i].1 == m
  {
    if |rules| > 0 {
      ViolationsMembers(rules[1..], m);
      if exists i :: 1 <= i < |rules| && rules[i].0 && rules[i].1 == m {
        var i :| 1 <= i < |rules| && rules[i].0 && rules[i].1 == m;
        assert rules[1..][i - 1] == rules[i];
      }
      if exists i :: 0 <= i < |rules| - 1 && rules[1..][i].0 && rules[1..][i].1 == m {
        var i :| 0 <= i < |rules| - 1 && rules[1..][i].0 && rules[1..][i].1 == m;
        assert rules[i + 1] == rules[1..][i];
      }
    }
  }

  /** What a validator returns for the messages it collected. */
  function ValidationError(violations: seq<string>): Option<Error>
  {
    if |violations| > 0 then Some(Typed(ErrBadRequest.SetMessage(Text.Join(violations, Separator)))) else None
  }

  /** A validation error is the base bad request, code "400" and status 400, carrying the joined messages. */
  lemma ValidationErrorShape(violations: seq<string>)
    ensures ValidationError(violations).None? <==> violations == []
    ensures ValidationError(violations).Some? ==>
      ValidationError(violations) == Some(Typed(TypedError(Text.Join(violations, Separator), "400", 400)))
  {
    BaseErrors();
  }

  function CreateRules(u: User): seq<(bool, string)>
  {
    [(u.firstName == "", "firstName can't be empty"),
     (u.email == "", "email can't be empty"),
     (u.nickName == "", "nickName can't be empty"),
     (u.country == "", "country can't be empty")]
  }

  function IdRules(id: string): seq<(bool, string)>
  {
    [(id == "", "id can't be empty")]
  }

  /** The rules a list request is checked against, after the page-size default. */
  function ListRules(limit: Int64, offset: Int64, userFilter: Option<UserFilter>): seq<(bool, string)>
  {
    var effective := if limit == 0 then DefaultLimit else limit;
    [(effective < 0, "limit can't be negative"),
     (offset < 0, "offset can't be negative"),
     (userFilter.None?, "user filter can't be nil")]
  }

  lemma CreateRulesUnfold(u: User)
    ensures var r := CreateRules(u);
      Violations(r) == Flag(r[0]) + Flag(r[1]) + Flag(r[2]) + Flag(r[3])
  {
    var r := CreateRules(u);
    ViolationsFrom(r, 0);
    ViolationsFrom(r, 1);
    ViolationsFrom(r, 2);
    ViolationsFrom(r, 3);
    assert r[0..] == r;
    assert r[4..] == [];
  }

  lemma ListRulesUnfold(limit: Int64, offset: Int64, userFilter: Option<UserFilter>)
    ensures var r := ListRules(limit, offset, userFilter);
      Violations(r) == Flag(r[0]) + Flag(r[1]) + Flag(r[2])
  {
    var r := ListRules(limit, offset, userFilter);
    ViolationsFrom(r, 0);
    ViolationsFrom(r, 1);
    ViolationsFrom(r, 2);
    assert r[0..] == r;
    assert r[3..] == [];
  }

  /** A create request is valid exactly when first name, email, nickName and country are all given. */
  lemma CreateValidation(u: User)
    ensures ValidationError(Violations(CreateRules(u))).None? <==>
      u.firstName != "" && u.email != "" && u.nickName != "" && u.country != ""
  {
    ViolationsEmpty(CreateRules(u));
    assert u.firstName == "" ==> CreateRules(u)[0].0;
    assert u.email == "" ==> CreateRules(u)[1].0;
    assert u.nickName == "" ==> CreateRules(u)[2].0;
    assert u.country == "" ==> CreateRules(u)[3].0;
  }

  /** The messages for an empty request, and for a request lacking only the email. */
  lemma CreateValidationMessages(u: User)
    ensures u.firstName == "" && u.email == "" && u.nickName == "" && u.country == "" ==>
      ValidationError(Violations(CreateRules(u))) ==
        Some(Typed(ErrBadRequest.SetMessage(
          "firstName can't be empty" + Separator + "email can't be empty" + Separator + "nickName can't be empty"
          + Separator + "country can't be empty")))
    ensures u.firstName != "" && u.email == "" && u.nickName != "" && u.country != "" ==>
      ValidationError(Violations(CreateRules(u))) == Some(Typed(ErrBadRequest.SetMessage("email can't be empty")))
  {
    CreateRulesUnfold(u);
    var v := Violations(CreateRules(u));
    if u.firstName == "" && u.email == "" && u.nickName == "" && u.country == "" {
      assert v == ["firstName can't be empty", "email can't be empty", "nickName can't be empty", "country can't be empty"];
      Text.JoinFour("firstName can't be empty", "email can't be empty", "nickName can't be empty",
                    "country can't be empty", Separator);
      assert Text.Join(v, Separator) ==
        "firstName can't be empty" + Separator + "email can't be empty" + Separator + "nickName can't be empty"
        + Separator + "country can't be empty";
    }
    if u.firstName != "" && u.email == "" && u.nickName != "" && u.country != "" {
      assert v == ["email can't be empty"];
      assert Text.Join(v, Separator) == "email can't be empty";
      assert ValidationError(v) == Some(Typed(ErrBadRequest.SetMessage("email can't be empty")));
    }
  }

  /** An update or delete request fails validation exactly when its id is empty, with the one message. */
  lemma IdValidation(id: string)
    ensures ValidationError(Violations(IdRules(id))) ==
      if id == "" then Some(Typed(ErrBadRequest.SetMessage("id can't be empty"))) else None
  {
  }

  /**
   * A list request: limit 0 is no violation; otherwise the messages are those of
   * a negative limit, a negative offset and a missing filter, in that order.
   */
  lemma ListValidation(limit: Int64, offset: Int64, userFilter: Option<UserFilter>)
    ensures ValidationError(Violations(ListRules(limit, offset, userFilter))).None? <==>
      limit >= 0 && offset >= 0 && userFilter.Some?
    ensures limit < 0 && offset < 0 && userFilter.None? ==>
      ValidationError(Violations(ListRules(limit, offset, userFilter))) ==
        Some(Typed(ErrBadRequest.SetMessage(
          "limit can't be negative" + Separator + "offset can't be negative" + Separator + "user filter can't be nil")))
  {
    var rules := ListRules(limit, offset, userFilter);
    ViolationsEmpty(rules);
    assert limit < 0 ==> rules[0].0;
    assert offset < 0 ==> rules[1].0;
    assert userFilter.None? ==> rules[2].0;
    ListRulesUnfold(limit, offset, userFilter);
    if limit < 0 && offset < 0 && userFilter.None? {
      var v := Violations(rules);
      assert v == ["limit can't be negative", "offset can't be negative", "user filter can't be nil"];
      Text.JoinThree("limit can't be negative", "offset can't be negative", "user filter can't be nil", Separator);
      assert Text.Join(v, Separator) ==
        "limit can't be negative" + Separator + "offset can't be negative" + Separator + "user filter can't be nil";
    }
  }

  datatype CreateUserRequest = CreateUserRequest(user: UserRef)
  {
    /** `Validate`: first name, email, nickName and country must be given. */
    method Validate() returns (err: Option<Error>)
      ensures err == ValidationError(Violations(CreateRules(user.v)))
    {
      CreateRulesUnfold(user.v);
      ghost var r := CreateRules(user.v);
      var validationErrs: seq<string> := [];
      if user.v.firstName == "" {
        validationErrs := validationErrs + ["firstName can't be empty"];
      }
      assert validationErrs == Flag(r[0]);
      if user.v.email == "" {
        validationErrs := validationErrs + ["email can't be empty"];
      }
      assert validationErrs == Flag(r[0]) + Flag(r[1]);
      if user.v.nickName == "" {
        validationErrs := validationErrs + ["nickName can't be empty"];
      }
      assert validationErrs == Flag(r[0]) + Flag(r[1]) + Flag(r[2]);
      if user.v.country == "" {
        validationErrs := validationErrs + ["country can't be empty"];
      }
      assert validationErrs == Violations(r);
      if |validationErrs| > 0 {
        var errMsg := Text.Join(validationErrs, Separator);
        return Some(Typed(ErrBadRequest.SetMessage(errMsg)));
      }
      err := None;
    }
  }

  datatype CreateUserResponse = CreateUserResponse(user: UserRef)

  /** The id to update is the embedded record's own `Id`, filled from the path. */
  datatype UpdateUserByIdRequest = UpdateUserByIdRequest(user: UserRef)
  {
    /** `Validate`: the id must be given. */
    method Validate() returns (err: Option<Error>)
      ensures err == ValidationError(Violations(IdRules(user.v.id)))
    {
      var validationErrs: seq<string> := [];
      if user.v.id == "" {
        validationErrs := validationErrs + ["id can't be empty"];
      }
      if |validationErrs| > 0 {
        var errMsg := Text.Join(validationErrs, Separator);
        return Some(Typed(ErrBadRequest.SetMessage(errMsg)));
      }
      err := None;
    }
  }

  datatype UpdateUserByIdResponse = UpdateUserByIdResponse(user: User)

  /** `userFilter` is the embedded `*model.UserFilter`: `None` for nil. */
  datatype ListUsersByFilterRequest = ListUsersByFilterRequest(limit: Int64, offset: Int64, userFilter: Option<UserFilter>)
  {
    /**
     * `Validate`.  The page-size default is applied to the validator's own copy
     * of the request (a value receiver), so the caller's limit stays as it was.
     */
    method Validate() returns (err: Option<Error>)
      ensures err == ValidationError(Violations(ListRules(limit, offset, userFilter)))
    {
      ListRulesUnfold(limit, offset, userFilter);
      ghost var r := ListRules(limit, offset, userFilter);
      var validationErrs: seq<string> := [];
      var req := this;
      if req.limit == 0 {
        req := req.(limit := DefaultLimit);
      }
      if req.limit < 0 {
        validationErrs := validationErrs + ["limit can't be negative"];
      }
      assert validationErrs == Flag(r[0]);
      if req.offset < 0 {
        validationErrs := validationErrs + ["offset can't be negative"];
      }
      assert validationErrs == Flag(r[0]) + Flag(r[1]);
      if req.userFilter.None? {
        validationErrs := validationErrs + ["user filter can't be nil"];
      }
      assert validationErrs == Violations(r);
      if |validationErrs| > 0 {
        var errMsg := Text.Join(validationErrs, Separator);
        return Some(Typed(ErrBadRequest.SetMessage(errMsg)));
      }
      err := None;
    }
  }

  datatype ListUsersByFilterResponse = ListUsersByFilterResponse(pagination: Pagination)

  datatype DeleteUserByIdRequest = DeleteUserByIdRequest(id: string)
  {
    /** `Validate`: the id must be given. */
    method Validate() returns (err: Option<Error>)
      ensures err == ValidationError(Violations(IdRules(id)))
    {
      var validationErrs: seq<string> := [];
      if id == "" {
        validationErrs := validationErrs + ["id can't be empty"];
      }
      if |validationErrs| > 0 {
        var errMsg := Text.Join(validationErrs, Separator);
        return Some(Typed(ErrBadRequest.SetMessage(errMsg)));
      }
      err := None;
    }
  }

  datatype DeleteUserByIdResponse = DeleteUserByIdResponse

  /**
   * A list request with limit 0 passes validation and reaches the service with
   * limit 0, which lists every matching user on one page.
   */
  lemma ZeroLimitListsEverything(s: Snapshot, f: UserFilter)
    requires Counting !in s.failing && Finding !in s.failing
    ensures ValidationError(Violations(ListRules(0, 0, Some(f)))).None?
    ensures ListUsersSpec(s, f, 0, 0).Ok?
    ensures |ListUsersSpec(s, f, 0, 0).value.items| == ListUsersSpec(s, f, 0, 0).value.totalRecords
  {
    ListValidation(0, 0, Some(f));
    ListUsersLimitZero(s, f);
  }

  /** `userHandler` of this package: every method answers (response, success status, error). */
  class UserHandler {
    const userService: UserService

    constructor (userService: UserService)
      ensures this.userService == userService
    {
      this.userService := userService;
    }

    /** `CreateUser`: 201 with the created record, or the service's error unchanged. */
    method CreateUser(req: CreateUserRequest, hash: string -> HashOutcome, newId: string, now: Time)
      returns (resp: Option<CreateUserResponse>, status: int, err: Option<Error>)
      requires newId != ""
      modifies req.user, userService.repository.collection
      ensures var o := CreateUserSpec(old(userService.repository.collection.State()), old(req.user.v),
                                      hash(old(req.user.v.password)), newId, now);
        && req.user.v == o.user && userService.repository.collection.State() == o.after
        && err == o.err
        && (o.err.None? ==> resp == Some(CreateUserResponse(req.user)) && status == StatusCreated)
        && (o.err.Some? ==> resp == None && status == 0)
    {
      var createdUser, e := userService.CreateUser(req.user, hash, newId, now);
      if e.Some? {
        return None, 0, e;
      }
      resp, status, err := Some(CreateUserResponse(createdUser)), StatusCreated, None;
    }

    /** `UpdateUserById`: forwards the request's id and a copy of its record; 200 with the updated record. */
    method UpdateUserById(req: UpdateUserByIdRequest, now: Time)
      returns (resp: Option<UpdateUserByIdResponse>, status: int, err: Option<Error>)
      modifies userService.repository.collection
      ensures var o := UpdateSpec(old(userService.repository.collection.State()), req.user.v.id, req.user.v, now);
        && userService.repository.collection.State() == o.after
        && (o.r.Ok? ==> resp == Some(UpdateUserByIdResponse(o.r.value)) && status == StatusOK && err == None)
        && (o.r.Err? ==> resp == None && status == 0 && err == Some(o.r.error))
    {
      var updatedUser := userService.UpdateUserById(req.user.v.id, req.user.v, now);
      if updatedUser.Err? {
        return None, 0, Some(updatedUser.error);
      }
      resp, status, err := Some(UpdateUserByIdResponse(updatedUser.value)), StatusOK, None;
    }

    /** `ListUsers`: forwards the filter, limit and offset; 200 with the pagination. */
    method ListUsers(req: ListUsersByFilterRequest)
      returns (resp: Option<ListUsersByFilterResponse>, status: int, err: Option<Error>)
      requires req.userFilter.Some?
      ensures var r := ListUsersSpec(userService.repository.collection.State(), req.userFilter.value, req.limit, req.offset);
        && (r.Ok? ==> resp == Some(ListUsersByFilterResponse(r.value)) && status == StatusOK && err == None)
        && (r.Err? ==> resp == None && status == 0 && err == Some(r.error))
    {
      var paginatedData := userService.ListUsers(req.userFilter.value, req.limit, req.offset);
      if paginatedData.Err? {
        return None, 0, Some(paginatedData.error);
      }
      resp, status, err := Some(ListUsersByFilterResponse(paginatedData.value)), StatusOK, None;
    }

    /** `DeleteUserById`: 200 with an empty response, or the service's error unchanged. */
    method DeleteUserById(req: DeleteUserByIdRequest, now: Time)
      returns (resp: Option<DeleteUserByIdResponse>, status: int, err: Option<Error>)
      modifies userService.repository.collection
      ensures var o := DeleteSpec(old(userService.repository.collection.State()), req.id, now);
        && userService.repository.collection.State() == o.after
        && err == o.err
        && (o.err.None? ==> resp == Some(DeleteUserByIdResponse) && status == StatusOK)
        && (o.err.Some? ==> resp == None && status == 0)
    {
      var e := userService.DeleteUserById(req.id, now);
      if e.Some? {
        return None, 0, e;
      }
      resp, status, err := Some(DeleteUserByIdResponse), StatusOK, None;
    }
  }
}

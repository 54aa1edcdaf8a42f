/** Request sequences against one `Server`, with what a client can conclude
    from the handlers' specifications alone. */
module Scenarios {
  import opened JsValues
  import opened JsArrays
  import opened SimpleServer

  /** Register a fresh account, sign in with its password, then with another. */
  method SignUpThenSignIn(s: Server, name: Value, email: Value, phoneNumber: Value,
                          password: Value, wrongPassword: Value, id: string)
    returns (reg: Response<Registered>, good: Response<Session>, bad: Response<Session>)
    requires s.Valid() && !EmailTaken(s.users, email) && wrongPassword != password
    modifies s
    ensures s.Valid() && |s.users| == |old(s.users)| + 1
    ensures reg == Created(Registered(id, name, email, phoneNumber))
    ensures good == Ok(Session(UserTokenPrefix + id, id, name, email))
    ensures bad == Unauthorized(InvalidCredentials)
  {
    ghost var before := s.users;
    reg := s.Register(name, email, phoneNumber, password, id);
    LoginAfterRegister(s, before, name, email, phoneNumber, password, id);
    good := s.Login(email, password);
    forall i | 0 <= i < |s.users| ensures !Matches(s.users[i], email, wrongPassword) {
      if i < |before| {
        assert s.users[i] == before[i];
      }
    }
    bad := s.Login(email, wrongPassword);
  }

  /** A second registration with the same email is refused and stores nothing. */
  method RegisterTwice(s: Server, email: Value, first: (Value, Value, Value), second: (Value, Value, Value),
                       id1: string, id2: string)
    returns (r1: Response<Registered>, r2: Response<Registered>)
    requires s.Valid()
    modifies s
    ensures s.Valid()
    ensures r2 == BadRequest(EmailExists)
    ensures r1.Created? <==> !EmailTaken(old(s.users), email)
    ensures |s.users| == |old(s.users)| + (if r1.Created? then 1 else 0)
  {
    r1 := s.Register(first.0, email, first.1, first.2, id1);
    assert s.users[|s.users| - 1].email == email || EmailTaken(s.users, email);
    r2 := s.Register(second.0, email, second.1, second.2, id2);
  }

  /** Create a plan under an id no plan has, change its amount, delete it:
      the plan never gets the "All" operator the admin page expects, the update
      keeps the fields the body leaves out, and the catalogue ends as it began. */
  method PlanLifecycle(s: Server, id: string) returns (created: Response<Plan>, updated: Response<Plan>)
    requires s.Valid()
    requires forall i :: 0 <= i < |s.plans| ==> PlanId(s.plans[i]) != Str(id)
    modifies s
    ensures s.Valid() && s.users == old(s.users)
    ensures created.Ok? && PlanId(created.value) == Str(id) && Get(created.value, "operator") == Undefined
    ensures updated.Ok? && PlanId(updated.value) == Str(id) && Get(updated.value, "amount") == Num(249)
    ensures Get(updated.value, "validity") == Str("28 days")
    ensures s.ListPlans() == old(s.ListPlans())
  {
    var body := map["amount" := Num(199), "validity" := Str("28 days"),
                    "data" := Str("2GB/day"), "description" := Str("Popular")];
    ghost var before := s.plans;
    created := s.CreatePlan(body, id);
    ghost var c := created.value;
    assert s.plans == before + [c];
    updated := UpdateLast(s, before, c, id, map["amount" := Num(249)]);
    DeleteLast(s, before, id);
  }

  /** Deleting the id of the last plan, when no earlier plan has it, removes
      just that plan. */
  method DeleteLast(s: Server, ghost before: seq<Plan>, id: string)
    requires s.Valid() && |s.plans| == |before| + 1 && s.plans[..|before|] == before
    requires PlanId(s.plans[|before|]) == Str(id)
    requires forall i :: 0 <= i < |before| ==> PlanId(before[i]) != Str(id)
    modifies s
    ensures s.Valid() && s.users == old(s.users) && s.plans == before
  {
    ghost var last := s.plans[|before|];
    assert s.plans == before + [last];
    var _ := s.DeletePlan(id);
    FilterOutAppend(before, [last], PlanId, Str(id));
    assert FilterOut([last], PlanId, Str(id)) == [];
  }

  /** Updating the id of the last plan, when no earlier plan has it, merges the
      body into that last plan. */
  method UpdateLast(s: Server, ghost before: seq<Plan>, ghost c: Plan, id: string, body: Plan) returns (r: Response<Plan>)
    requires s.Valid() && s.plans == before + [c] && PlanId(c) == Str(id)
    requires forall i :: 0 <= i < |before| ==> PlanId(before[i]) != Str(id)
    modifies s
    ensures s.Valid() && s.users == old(s.users)
    ensures r.Ok? && s.plans == before + [r.value] && r.value == Spread(c, body)
  {
    ghost var n := |before|;
    assert forall j :: 0 <= j < n ==> PlanId(s.plans[j]) != Str(id) by {
      assert forall j :: 0 <= j < n ==> s.plans[j] == before[j];
    }
    assert PlanId(s.plans[n]) == Str(id);
    r := s.UpdatePlan(id, body);
    assert s.plans == (before + [c])[n := Spread(c, body)];
  }

  /** The same update sent twice, with a body that leaves `_id` alone, ends in
      the state one update leaves: the first plan with that id is found again
      and merging the body a second time changes nothing. (A body that rewrites
      `_id` moves the plan away from the id, so a repeat finds another plan or none.) */
  method UpdateTwice(s: Server, id: string, body: Plan) returns (r1: Response<Plan>, r2: Response<Plan>)
    requires s.Valid() && "_id" !in body
    modifies s
    ensures s.Valid() && s.users == old(s.users) && r1 == r2
    ensures (forall i :: 0 <= i < |old(s.plans)| ==> PlanId(old(s.plans)[i]) != Str(id)) ==>
      r2 == NotFound(PlanNotFound) && s.plans == old(s.plans)
    ensures forall i :: (0 <= i < |old(s.plans)| && PlanId(old(s.plans)[i]) == Str(id)
      && forall j :: 0 <= j < i ==> PlanId(old(s.plans)[j]) != Str(id)) ==>
      && s.plans == old(s.plans)[i := Spread(old(s.plans)[i], body)]
      && r2 == Ok(s.plans[i])
  {
    ghost var before := s.plans;
    ghost var k := FindIndex(before, (p: Plan) => PlanId(p) == Str(id));
    r1 := s.UpdatePlan(id, body);
    ghost var after := s.plans;
    if k != -1 {
      assert after == before[k := Spread(before[k], body)];
      assert PlanId(after[k]) == Str(id);
      assert forall j :: 0 <= j < k ==> PlanId(after[j]) != Str(id) by {
        assert forall j :: 0 <= j < k ==> after[j] == before[j];
      }
    }
    r2 := s.UpdatePlan(id, body);
    if k != -1 {
      SpreadIdempotent(before[k], body);
      assert s.plans == after;
    }
  }

  /** Deleting the same id twice: both calls succeed, and the second changes nothing. */
  method DeleteTwice(s: Server, id: string, users: bool) returns (r1: Response<string>, r2: Response<string>)
    requires s.Valid()
    modifies s
    ensures s.Valid() && r1.Ok? && r2.Ok?
    ensures users ==> s.users == FilterOut(old(s.users), UserId, Str(id)) && s.plans == old(s.plans)
    ensures !users ==> s.plans == FilterOut(old(s.plans), PlanId, Str(id)) && s.users == old(s.users)
  {
    if users {
      r1 := s.DeleteUser(id);
      FilterOutIdempotent(old(s.users), UserId, Str(id));
      r2 := s.DeleteUser(id);
    } else {
      r1 := s.DeletePlan(id);
      FilterOutIdempotent(old(s.plans), PlanId, Str(id));
      r2 := s.DeletePlan(id);
    }
  }
}

/** The in-memory user registry and plan catalogue of backend/simple-server.js:
    two module-level arrays, `users` and `plans`, and the route handlers that
    read and update them. Each handler is a member of `Server`; the HTTP status
    and JSON envelope become a `Response`. Ids that the server draws from the
    clock are parameters. */
module SimpleServer {
  import opened JsValues
  import opened JsArrays

  /** A registered user, as `register` stores it. The request-body fields keep
      whatever primitive value the body carried (or `Undefined`). */
  datatype User = User(
    id: string, name: Value, email: Value, phoneNumber: Value, password: Value, role: string)

  /** A plan is a free-form JSON object: the catalogue stores whatever the
      admin's request body held, plus an `_id`. */
  type Plan = Record

  /** The user as the admin listing shows it: every stored field but the password.
      The listing spreads the stored object, so `id` here goes out under the key
      `_id`, whereas the registration and login responses name it `id`. */
  datatype PublicUser = PublicUser(
    id: string, name: Value, email: Value, phoneNumber: Value, role: string)

  /** The `user` object of a successful registration response. */
  datatype Registered = Registered(id: string, name: Value, email: Value, phoneNumber: Value)

  /** The token and `user` object of a successful login response. */
  datatype Session = Session(token: string, id: string, name: Value, email: Value)

  /** A handler's reply: the HTTP status class and its JSON body. */
  datatype Response<T> =
    | Ok(value: T)              // 200
    | Created(value: T)         // 201
    | BadRequest(message: string)    // 400
    | Unauthorized(message: string)  // 401
    | NotFound(message: string)      // 404

  const AdminToken := "admin-token"
  const UserTokenPrefix := "user-token-"
  const EmailExists := "Email already exists"
  const InvalidCredentials := "Invalid credentials"
  const PlanNotFound := "Plan not found"
  const PlanDeleted := "Plan deleted"
  const UserDeleted := "User deleted"
  const UserRole := "user"

  /** The three plans the catalogue starts with. */
  const SeedPlans: seq<Plan> := [
    map["_id" := Str("1"), "operator" := Str("All"), "amount" := Num(99),
        "validity" := Str("28 days"), "data" := Str("1.5GB/day"), "description" := Str("Basic Plan")],
    map["_id" := Str("2"), "operator" := Str("All"), "amount" := Num(199),
        "validity" := Str("56 days"), "data" := Str("2GB/day"), "description" := Str("Popular Plan")],
    map["_id" := Str("3"), "operator" := Str("All"), "amount" := Num(399),
        "validity" := Str("84 days"), "data" := Str("3GB/day"), "description" := Str("Premium Plan")]
  ]

  /** `p._id`, which is `undefined` for a plan without one. */
  function PlanId(p: Plan): Value { Get(p, "_id") }

  /** `u._id`: always the string the server generated. */
  function UserId(u: User): Value { Str(u.id) }

  /** The login predicate `u.email === email && u.password === password`. */
  predicate Matches(u: User, email: Value, password: Value) {
    u.email == email && u.password == password
  }

  /** Some stored user already has this email. */
  ghost predicate EmailTaken(us: seq<User>, email: Value) {
    exists i :: 0 <= i < |us| && us[i].email == email
  }

  /** No two stored users share an email. */
  ghost predicate UniqueEmails(us: seq<User>) {
    forall i, j :: 0 <= i < |us| && 0 <= j < |us| && i != j ==> us[i].email != us[j].email
  }

  function SessionOf(u: User): Session {
    Session(UserTokenPrefix + u.id, u.id, u.name, u.email)
  }

  function Public(u: User): PublicUser {
    PublicUser(u.id, u.name, u.email, u.phoneNumber, u.role)
  }

  /** `users.map(u => ({...u, password: undefined}))`, as serialized: the same
      users in the same order, each with its password removed. */
  function WithoutPasswords(us: seq<User>): (r: seq<PublicUser>)
    ensures |r| == |us|
    ensures forall i :: 0 <= i < |us| ==>
      r[i].id == us[i].id && r[i].name == us[i].name && r[i].email == us[i].email
      && r[i].phoneNumber == us[i].phoneNumber && r[i].role == us[i].role
  {
    if |us| == 0 then [] else [Public(us[0])] + WithoutPasswords(us[1..])
  }

  /** `POST /api/admin/login`: the handler reads nothing from the request, so
      every password is accepted and the token is always the same. */
  function AdminLogin(password: Value): (r: Response<string>)
    ensures r.Ok? && r.value == AdminToken
  {
    Ok(AdminToken)
  }

  /** Distinct emails in `[u] + w` amount to distinct emails in `w` and `u`'s
      email absent from `w`. */
  lemma UniqueEmailsCons(u: User, w: seq<User>)
    ensures UniqueEmails([u] + w) <==>
      UniqueEmails(w) && forall j :: 0 <= j < |w| ==> w[j].email != u.email
  {
    var r := [u] + w;
    if UniqueEmails(r) {
      forall i, j | 0 <= i < |w| && 0 <= j < |w| && i != j ensures w[i].email != w[j].email {
        assert w[i] == r[i + 1] && w[j] == r[j + 1];
      }
      forall j | 0 <= j < |w| ensures w[j].email != u.email {
        assert r[0] == u && w[j] == r[j + 1];
      }
    }
  }

  /** Dropping users by id keeps emails distinct. */
  lemma {:induction false} FilterOutKeepsUniqueEmails(us: seq<User>, id: Value)
    requires UniqueEmails(us)
    ensures UniqueEmails(FilterOut(us, UserId, id))
  {
    if |us| > 0 {
      var t := us[1..];
      assert us == [us[0]] + t;
      UniqueEmailsCons(us[0], t);
      FilterOutKeepsUniqueEmails(t, id);
      var w := FilterOut(t, UserId, id);
      if UserId(us[0]) != id {
        forall j | 0 <= j < |w| ensures w[j].email != us[0].email {
          assert w[j] in t;
        }
        UniqueEmailsCons(us[0], w);
      }
    }
  }

  /** The registry and the catalogue. */
  class Server {
    var users: seq<User>
    var plans: seq<Plan>

    /** What every handler keeps true: only `register` adds users, always with
        role "user" and never with an email already present, so no admin-role
        user is ever stored and emails stay distinct. */
    ghost predicate Valid()
      reads this
    {
      (forall i :: 0 <= i < |users| ==> users[i].role == UserRole) && UniqueEmails(users)
    }

    /** Start-up: no users and the three seed plans. */
    constructor ()
      ensures Valid()
      ensures users == [] && plans == SeedPlans
    {
      users := [];
      plans := SeedPlans;
    }

    /** `POST /api/auth/register`. */
    method Register(name: Value, email: Value, phoneNumber: Value, password: Value, id: string)
      returns (r: Response<Registered>)
      requires Valid()
      modifies this
      ensures Valid() && plans == old(plans)
      ensures EmailTaken(old(users), email) ==>
        r == BadRequest(EmailExists) && users == old(users)
      ensures !EmailTaken(old(users), email) ==>
        && users == old(users) + [User(id, name, email, phoneNumber, password, UserRole)]
        && r == Created(Registered(id, name, email, phoneNumber))
    {
      var existing := FindIndex(users, (u: User) => u.email == email);
      if existing != -1 {
        assert users[existing].email == email;
        return BadRequest(EmailExists);
      }
      var user := User(id, name, email, phoneNumber, password, UserRole);
      users := users + [user];
      r := Created(Registered(user.id, name, email, phoneNumber));
    }

    /** `POST /api/auth/login`: the first user whose email and password both
        match gets a token built from its id; no match is 401. */
    function Login(email: Value, password: Value): (r: Response<Session>)
      reads this
      ensures (forall i :: 0 <= i < |users| ==> !Matches(users[i], email, password)) ==>
        r == Unauthorized(InvalidCredentials)
      ensures forall i :: (0 <= i < |users| && Matches(users[i], email, password)
        && forall j :: 0 <= j < i ==> !Matches(users[j], email, password)) ==>
        r == Ok(Session(UserTokenPrefix + users[i].id, users[i].id, users[i].name, users[i].email))
    {
      var k := FindIndex(users, (u: User) => Matches(u, email, password));
      if k == -1 then Unauthorized(InvalidCredentials) else Ok(SessionOf(users[k]))
    }

    /** `GET /api/plans` and `GET /api/admin/plans`: both return the whole
        catalogue, unfiltered, in insertion order. */
    function ListPlans(): (r: seq<Plan>)
      reads this
      ensures r == plans
    {
      plans
    }

    /** `GET /api/admin/users`. */
    function ListUsers(): (r: seq<PublicUser>)
      reads this
    {
      WithoutPasswords(users)
    }

    /** `POST /api/admin/plans`: the generated id overlaid by the body, so an
        `_id` in the body wins; appended at the end. */
    method CreatePlan(body: Plan, id: string) returns (r: Response<Plan>)
      requires Valid()
      modifies this
      ensures Valid() && users == old(users)
      ensures r.Ok? && plans == old(plans) + [r.value]
      ensures r.value.Keys == body.Keys + {"_id"}
      ensures forall k :: k in body ==> r.value[k] == body[k]
      ensures "_id" !in body ==> r.value["_id"] == Str(id)
    {
      var plan := Spread(map["_id" := Str(id)], body);
      plans := plans + [plan];
      r := Ok(plan);
    }

    /** `PUT /api/admin/plans/:id`: the first plan with that `_id` becomes
        itself overlaid by the body; no such plan is 404. */
    method UpdatePlan(id: string, body: Plan) returns (r: Response<Plan>)
      requires Valid()
      modifies this
      ensures Valid() && users == old(users)
      ensures (forall i :: 0 <= i < |old(plans)| ==> PlanId(old(plans)[i]) != Str(id)) ==>
        r == NotFound(PlanNotFound) && plans == old(plans)
      ensures forall i :: (0 <= i < |old(plans)| && PlanId(old(plans)[i]) == Str(id)
        && forall j :: 0 <= j < i ==> PlanId(old(plans)[j]) != Str(id)) ==>
        && plans == old(plans)[i := Spread(old(plans)[i], body)]
        && r == Ok(plans[i])
    {
      var index := FindIndex(plans, (p: Plan) => PlanId(p) == Str(id));
      if index != -1 {
        plans := plans[index := Spread(plans[index], body)];
        r := Ok(plans[index]);
      } else {
        r := NotFound(PlanNotFound);
      }
    }

    /** `DELETE /api/admin/plans/:id`: keeps the plans whose `_id` differs;
        succeeds whether or not any plan had that id. */
    method DeletePlan(id: string) returns (r: Response<string>)
      requires Valid()
      modifies this
      ensures Valid() && users == old(users)
      ensures plans == FilterOut(old(plans), PlanId, Str(id))
      ensures r == Ok(PlanDeleted)
    {
      plans := FilterOut(plans, PlanId, Str(id));
      r := Ok(PlanDeleted);
    }

    /** `DELETE /api/admin/users/:id`: keeps the users whose `_id` differs;
        succeeds whether or not any user had that id, and nothing checks the
        role of the user removed. */
    method DeleteUser(id: string) returns (r: Response<string>)
      requires Valid()
      modifies this
      ensures Valid() && plans == old(plans)
      ensures users == FilterOut(old(users), UserId, Str(id))
      ensures r == Ok(UserDeleted)
    {
      FilterOutKeepsUniqueEmails(users, Str(id));
      users := FilterOut(users, UserId, Str(id));
      r := Ok(UserDeleted);
    }
  }

  /** After a registration with an unused email, logging in with that email and
      password finds the new user: nobody earlier has the email. */
  lemma LoginAfterRegister(s: Server, before: seq<User>,
                           name: Value, email: Value, phoneNumber: Value, password: Value, id: string)
    requires !EmailTaken(before, email)
    requires s.users == before + [User(id, name, email, phoneNumber, password, UserRole)]
    ensures s.Login(email, password) == Ok(Session(UserTokenPrefix + id, id, name, email))
  {
    var n := |before|;
    assert Matches(s.users[n], email, password);
    forall j | 0 <= j < n ensures !Matches(s.users[j], email, password) {
      assert s.users[j] == before[j];
    }
  }

  /** The listing of users never shows a password and loses nothing else. */
  lemma ListUsersLosesOnlyPasswords(s: Server, i: int)
    requires 0 <= i < |s.users|
    ensures |s.ListUsers()| == |s.users|
    ensures s.ListUsers()[i] == Public(s.users[i])
  {
  }
}

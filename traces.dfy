/** Sequences of requests against one database: the properties that hold however the routes
    are interleaved. */
module Traces {
  import opened Values
  import opened Oracles
  import opened Store
  import opened Responses
  import opened Validation
  import opened AuthGate
  import opened Routes

  /** One HTTP request to one of the six routes, with the salt bcrypt would draw for a signup. */
  datatype Request =
    | SignupRequest(userName: Json, email: Json, password: Json, salt: Salt)
    | SigninRequest(signinEmail: string, signinPassword: string)
    | CreateTodoRequest(header: Option<Token>, title: Json)
    | ListTodosRequest(header: Option<Token>)
    | DeleteTodoRequest(header: Option<Token>, todoId: string)
    | UpdateTodoRequest(header: Option<Token>, todoId: string, completed: Json)

  /** Serve one request. */
  ghost function Step(db: Db, env: Env, req: Request): (o: Outcome)
  {
    match req
    case SignupRequest(u, e, p, s) => Signup(db, env, u, e, p, s)
    case SigninRequest(e, p) => Signin(db, env, e, p)
    case CreateTodoRequest(h, t) => CreateTodo(db, env, h, t)
    case ListTodosRequest(h) => ListTodos(db, env, h)
    case DeleteTodoRequest(h, id) => DeleteTodo(db, env, h, id)
    case UpdateTodoRequest(h, id, c) => UpdateTodo(db, env, h, id, c)
  }

  /** Serve the requests one after another; the database at the end. */
  ghost function Run(db: Db, env: Env, reqs: seq<Request>): (d: Db)
    decreases |reqs|
  {
    if reqs == [] then db else Run(Step(db, env, reqs[0]).db, env, reqs[1..])
  }

  /** The request passes the gate as user `u`. */
  ghost predicate ActsAs(env: Env, req: Request, u: UserId)
  {
    !req.SignupRequest? && !req.SigninRequest? && Auth(env.tokens, req.header) == Caller(u)
  }

  /** A request that does not act as `u` leaves every todo of `u` exactly as it was. */
  lemma StepLeavesOthersTodos(db: Db, env: Env, req: Request, u: UserId)
    requires IdsIssued(db)
    requires !ActsAs(env, req, u)
    ensures OwnedBy(Step(db, env, req).db.todos, u) == OwnedBy(db.todos, u)
  {
    var after := Step(db, env, req).db.todos;
    if req.CreateTodoRequest? && Auth(env.tokens, req.header).Caller? {
      var id := FreshId(db.issued);
      assert after == db.todos[id := after[id]];
      assert after[id].userId != u;
    }
  }

  /** Cross-user isolation: whatever requests other users make, in any order, the todos of
      `u` stay exactly as they were. */
  lemma {:induction false} RunLeavesOthersTodos(db: Db, env: Env, reqs: seq<Request>, u: UserId)
    requires IdsIssued(db)
    requires forall i :: 0 <= i < |reqs| ==> !ActsAs(env, reqs[i], u)
    ensures OwnedBy(Run(db, env, reqs).todos, u) == OwnedBy(db.todos, u)
    decreases |reqs|
  {
    if reqs != [] {
      StepLeavesOthersTodos(db, env, reqs[0], u);
      StepKeepsIdsIssued(db, env, reqs[0]);
      RunLeavesOthersTodos(Step(db, env, reqs[0]).db, env, reqs[1..], u);
    }
  }

  /** No request changes or removes a user, and none lets two users share an e-mail. */
  lemma StepKeepsUsers(db: Db, env: Env, req: Request)
    requires UniqueEmails(db.users) && IdsIssued(db)
    ensures var after := Step(db, env, req).db.users;
      && UniqueEmails(after)
      && forall id :: id in db.users ==> id in after && after[id] == db.users[id]
  {
    if req.SignupRequest? {
      SignupKeepsEmailsUnique(db, env, req.userName, req.email, req.password, req.salt);
    }
  }

  /** Over any sequence of requests, e-mails stay unique and every user stays as registered. */
  lemma {:induction false} RunKeepsUsers(db: Db, env: Env, reqs: seq<Request>)
    requires UniqueEmails(db.users) && IdsIssued(db)
    ensures var after := Run(db, env, reqs).users;
      && UniqueEmails(after)
      && forall id :: id in db.users ==> id in after && after[id] == db.users[id]
    decreases |reqs|
  {
    if reqs != [] {
      var next := Step(db, env, reqs[0]).db;
      StepKeepsUsers(db, env, reqs[0]);
      StepKeepsIdsIssued(db, env, reqs[0]);
      RunKeepsUsers(next, env, reqs[1..]);
    }
  }

  /** Every request keeps stored ids among the issued ones and never takes an id back. */
  lemma StepKeepsIdsIssued(db: Db, env: Env, req: Request)
    requires IdsIssued(db)
    ensures var after := Step(db, env, req).db;
      IdsIssued(after) && db.issued <= after.issued
  {
  }

  /** An id once handed out and no longer holding a todo (a deleted todo's id, say) never holds
      one again: whatever requests follow, a todo route given that id answers as for an id that
      does not exist. */
  lemma {:induction false} RunNeverReusesIds(db: Db, env: Env, reqs: seq<Request>, id: TodoId)
    requires IdsIssued(db)
    requires id in db.issued && id !in db.todos
    ensures var after := Run(db, env, reqs);
      IdsIssued(after) && id in after.issued && id !in after.todos
    decreases |reqs|
  {
    if reqs != [] {
      var next := Step(db, env, reqs[0]).db;
      StepKeepsIdsIssued(db, env, reqs[0]);
      assert id !in next.todos by {
        if reqs[0].CreateTodoRequest? && Auth(env.tokens, reqs[0].header).Caller? {
          assert FreshId(db.issued) != id;
        }
      }
      RunNeverReusesIds(next, env, reqs[1..], id);
    }
  }

  /** Deleting a todo and then creating others never brings the deleted id back: a later update
      of it answers 404, as for any missing id. */
  lemma DeletedTodoStaysDeleted(db: Db, env: Env, header: Option<Token>, todoId: string,
                                caller: UserId, later: seq<Request>, c: bool)
    requires IdsIssued(db)
    requires Auth(env.tokens, header) == Caller(caller)
    requires Owns(db.todos, caller, todoId)
    ensures var gone := DeleteTodo(db, env, header, todoId).db;
      UpdateTodo(Run(gone, env, later), env, header, todoId, Bool(c)).resp
        == Response(404, Message(UpdateNotFound))
  {
    var gone := DeleteTodo(db, env, header, todoId).db;
    assert todoId != "" && todoId in gone.issued && todoId !in gone.todos;
    RunNeverReusesIds(gone, env, later, todoId);
    assert !Owns(Run(gone, env, later).todos, caller, todoId);
  }

  /** A walk through the service from an empty database: ann signs up, fails to sign in with a
      wrong password, signs in, creates "t1", lists it; listing without a token is refused. */
  lemma Walkthrough(env: Env, salt: Salt)
    requires env.hasher.Sound() && env.tokens.Sound()
    requires env.isEmail("a@x.com")
    requires !env.hasher.verify("wrong", env.hasher.hash("secret", salt))
    ensures var db0 := Db(map[], map[], {});
      var up := Signup(db0, env, Str("ann"), Str("a@x.com"), Str("secret"), salt);
      var bad := Signin(up.db, env, "a@x.com", "wrong");
      var good := Signin(bad.db, env, "a@x.com", "secret");
      && up.resp.status == 201
      && bad.resp.status == 401
      && good.resp.status == 200 && good.resp.body.Session?
      && var header := Some(good.resp.body.token);
      var made := CreateTodo(good.db, env, header, Str("t1"));
      var listed := ListTodos(made.db, env, header);
      && made.resp.status == 201
      && listed.resp.status == 200 && listed.resp.body.Todos?
      && made.resp.body.OneTodo?
      && listed.resp.body.items == map[made.resp.body.id := Todo(up.resp.body.id, Str("t1"), false)]
      && ListTodos(made.db, env, None).resp == Response(401, Message(NoTokenProvided))
  {
    var db0 := Db(map[], map[], {});
    var up := Signup(db0, env, Str("ann"), Str("a@x.com"), Str("secret"), salt);
    assert ValidateSignup(env.isEmail, Str("ann"), Str("a@x.com"), Str("secret")).Some?;
    assert !EmailTaken(db0.users, "a@x.com");
    var ann := up.resp.body.id;
    assert ann == FreshId({});
    assert up.db.users == map[ann := User("ann", "a@x.com", env.hasher.hash("secret", salt))];
    assert ann in up.db.users && up.db.users[ann].email == "a@x.com";
    assert EmailTaken(up.db.users, "a@x.com");
    assert UserWithEmail(up.db.users, "a@x.com") == ann;
    assert env.hasher.verify("secret", env.hasher.hash("secret", salt));
    var good := Signin(up.db, env, "a@x.com", "secret");
    SignedTokenPasses(env.tokens, ann);
    var made := CreateTodo(good.db, env, Some(good.resp.body.token), Str("t1"));
    var t1 := made.resp.body.id;
    assert made.db.todos == map[t1 := Todo(ann, Str("t1"), false)];
    var mine := OwnedBy(made.db.todos, ann);
    assert mine == map[t1 := Todo(ann, Str("t1"), false)];
    assert t1 in mine;
  }
}

/** What each route does to the database and what it answers, as functions of the database
    before the request; and the properties the handlers promise, one request at a time. */
module Routes {
  import opened Values
  import opened Oracles
  import opened Store
  import opened Responses
  import opened Validation
  import opened AuthGate

  /** The database after a request and the response sent. */
  datatype Outcome = Outcome(db: Db, resp: Response)

  /** `POST /signup`: validate, refuse a known e-mail, hash the password, insert the user. */
  ghost function Signup(db: Db, env: Env, userName: Json, email: Json, password: Json, salt: Salt)
    : (o: Outcome)
  {
    match ValidateSignup(env.isEmail, userName, email, password)
    case None => Outcome(db, Response(400, Issue))
    case Some(input) =>
      if EmailTaken(db.users, input.email) then Outcome(db, Response(400, Message(EmailExists)))
      else
        var id := FreshId(db.issued);
        var user := User(input.userName, input.email, env.hasher.hash(input.password, salt));
        Outcome(db.(users := db.users[id := user], issued := db.issued + {id}),
                Response(201, NewUser(UserCreated, id, user)))
  }

  /** `POST /signin`: find the user by e-mail, check the password, issue a token for the user's id. */
  ghost function Signin(db: Db, env: Env, email: string, password: string): (o: Outcome)
  {
    if !EmailTaken(db.users, email) then Outcome(db, Response(401, Message(InvalidCredentials)))
    else
      var id := UserWithEmail(db.users, email);
      if !env.hasher.verify(password, db.users[id].password) then
        Outcome(db, Response(401, Message(InvalidCredentials)))
      else
        Outcome(db, Response(200, Session(SignedIn, env.tokens.sign(id))))
  }

  /** `POST /todo`: a new todo of the caller, not completed, with the title as sent. */
  ghost function CreateTodo(db: Db, env: Env, header: Option<Token>, title: Json): (o: Outcome)
  {
    var g := Auth(env.tokens, header);
    if !g.Caller? then Outcome(db, Rejection(g))
    else
      var id := FreshId(db.issued);
      var todo := Todo(g.id, title, false);
      Outcome(db.(todos := db.todos[id := todo], issued := db.issued + {id}),
              Response(201, OneTodo(id, todo)))
  }

  /** `GET /todos`: the caller's todos, or 404 when there are none. */
  ghost function ListTodos(db: Db, env: Env, header: Option<Token>): (o: Outcome)
  {
    var g := Auth(env.tokens, header);
    if !g.Caller? then Outcome(db, Rejection(g))
    else
      var mine := OwnedBy(db.todos, g.id);
      if mine == map[] then Outcome(db, Response(404, Message(NoTodosFound)))
      else Outcome(db, Response(200, Todos(mine)))
  }

  /** `DELETE /delete-todo/:id`: look the todo up by id and owner, then delete it by id. */
  ghost function DeleteTodo(db: Db, env: Env, header: Option<Token>, todoId: string): (o: Outcome)
  {
    var g := Auth(env.tokens, header);
    if !g.Caller? then Outcome(db, Rejection(g))
    else if !Owns(db.todos, g.id, todoId) then Outcome(db, Response(404, Message(DeleteNotFound)))
    else Outcome(db.(todos := db.todos - {todoId}), Response(200, Message(TodoDeleted)))
  }

  /** `PUT /update-todo/:id`: check the input, then set `completed` on the todo with that id
      and owner, answering with the updated document. */
  ghost function UpdateTodo(db: Db, env: Env, header: Option<Token>, todoId: string, completed: Json)
    : (o: Outcome)
  {
    var g := Auth(env.tokens, header);
    if !g.Caller? then Outcome(db, Rejection(g))
    else match ValidateUpdate(todoId, completed)
      case None => Outcome(db, Response(400, Message(UpdateInvalid)))
      case Some(c) =>
        if !Owns(db.todos, g.id, todoId) then Outcome(db, Response(404, Message(UpdateNotFound)))
        else
          var todo := db.todos[todoId].(completed := c);
          Outcome(db.(todos := db.todos[todoId := todo]), Response(200, OneTodo(todoId, todo)))
  }

  // ---------------------------------------------------------------- signup

  /** A body that fails the schema is answered 400 and nothing is stored or looked up:
      the answer is the same whatever the database holds. */
  lemma SignupRejectsInvalidInput(db: Db, other: Db, env: Env, userName: Json, email: Json,
                                  password: Json, salt: Salt)
    requires ValidateSignup(env.isEmail, userName, email, password).None?
    ensures Signup(db, env, userName, email, password, salt) == Outcome(db, Response(400, Issue))
    ensures Signup(other, env, userName, email, password, salt).resp
         == Signup(db, env, userName, email, password, salt).resp
  {
  }

  /** A valid body whose e-mail some user already has is answered 400 "Email already exists"
      and changes nothing. */
  lemma SignupRejectsDuplicateEmail(db: Db, env: Env, userName: Json, email: Json, password: Json,
                                    salt: Salt)
    requires ValidateSignup(env.isEmail, userName, email, password).Some?
    requires exists id :: id in db.users && Str(db.users[id].email) == email
    ensures Signup(db, env, userName, email, password, salt)
         == Outcome(db, Response(400, Message(EmailExists)))
  {
  }

  /** A valid body with a new e-mail is answered 201 and adds exactly one user, under an id
      never handed out before, holding the name, the e-mail and the digest of the password;
      nothing else changes. */
  lemma SignupAddsOneUser(db: Db, env: Env, userName: Json, email: Json, password: Json, salt: Salt)
    requires ValidateSignup(env.isEmail, userName, email, password).Some?
    requires forall id :: id in db.users ==> Str(db.users[id].email) != email
    ensures var o := Signup(db, env, userName, email, password, salt);
      && o.resp.status == 201
      && o.resp.body.NewUser?
      && var id := o.resp.body.id;
      && id !in db.issued
      && o.db.issued == db.issued + {id}
      && o.db.users == db.users[id := User(userName.s, email.s, env.hasher.hash(password.s, salt))]
      && o.resp.body == NewUser(UserCreated, id, User(userName.s, email.s, env.hasher.hash(password.s, salt)))
      && (IdsIssued(db) ==> id !in db.users && |o.db.users| == |db.users| + 1)
      && o.db.todos == db.todos
  {
  }

  /** Signup never creates a second user with an e-mail already taken. */
  lemma SignupKeepsEmailsUnique(db: Db, env: Env, userName: Json, email: Json, password: Json,
                                salt: Salt)
    requires UniqueEmails(db.users)
    ensures UniqueEmails(Signup(db, env, userName, email, password, salt).db.users)
  {
  }

  // ---------------------------------------------------------------- signin

  /** Signin never changes the database; it answers 200 with a token exactly when a user has
      the e-mail and the password verifies against that user's digest, and the token is signed
      for that user's id. Otherwise it answers 401. */
  lemma SigninIssuesTokenOnlyOnMatch(db: Db, env: Env, email: string, password: string)
    requires UniqueEmails(db.users)
    ensures var o := Signin(db, env, email, password);
      && o.db == db
      && (o.resp.status == 200 || o.resp == Response(401, Message(InvalidCredentials)))
      && (o.resp.status == 200 <==>
            exists id :: id in db.users && db.users[id].email == email
                         && env.hasher.verify(password, db.users[id].password))
      && (forall id :: id in db.users && db.users[id].email == email && o.resp.status == 200 ==>
            o.resp.body == Session(SignedIn, env.tokens.sign(id)))
  {
    var o := Signin(db, env, email, password);
    if EmailTaken(db.users, email) {
      var id := UserWithEmail(db.users, email);
      forall id' | id' in db.users && db.users[id'].email == email
        ensures id' == id
      {
      }
    }
  }

  /** Round trip: after a successful signup, signing in with the same e-mail and password
      succeeds, and the token passes the gate as the new user. */
  lemma SignupThenSignin(db: Db, env: Env, userName: Json, email: Json, password: Json, salt: Salt)
    requires UniqueEmails(db.users) && env.hasher.Sound() && env.tokens.Sound()
    requires Signup(db, env, userName, email, password, salt).resp.status == 201
    ensures var up := Signup(db, env, userName, email, password, salt);
      var o := Signin(up.db, env, email.s, password.s);
      && o.resp.status == 200
      && o.resp.body.Session?
      && Auth(env.tokens, Some(o.resp.body.token)) == Caller(up.resp.body.id)
  {
    var up := Signup(db, env, userName, email, password, salt);
    var id := up.resp.body.id;
    SignupKeepsEmailsUnique(db, env, userName, email, password, salt);
    assert EmailTaken(up.db.users, email.s) by {
      assert id in up.db.users && up.db.users[id].email == email.s;
    }
    assert UserWithEmail(up.db.users, email.s) == id;
    assert env.hasher.verify(password.s, env.hasher.hash(password.s, salt));
    SignedTokenPasses(env.tokens, id);
  }

  // ---------------------------------------------------------------- todos

  /** Every todo route stopped by the gate answers 401 for a missing token and 403 for a bad
      one, and leaves the database as it was. */
  lemma GateStopsTodoRoutes(db: Db, env: Env, header: Option<Token>, todoId: string, title: Json,
                            completed: Json)
    requires !Auth(env.tokens, header).Caller?
    ensures var r := Rejection(Auth(env.tokens, header));
      && r.status == (if header.None? || header.value == "" then 401 else 403)
      && CreateTodo(db, env, header, title) == Outcome(db, r)
      && ListTodos(db, env, header) == Outcome(db, r)
      && DeleteTodo(db, env, header, todoId) == Outcome(db, r)
      && UpdateTodo(db, env, header, todoId, completed) == Outcome(db, r)
  {
  }

  /** Creating a todo adds one record, under an id never handed out before, owned by the
      caller, not completed, and changes no other record. */
  lemma CreateAddsOneTodo(db: Db, env: Env, header: Option<Token>, title: Json, caller: UserId)
    requires Auth(env.tokens, header) == Caller(caller)
    ensures var o := CreateTodo(db, env, header, title);
      && o.resp.status == 201 && o.resp.body.OneTodo?
      && var id := o.resp.body.id;
      && id !in db.issued
      && (IdsIssued(db) ==> id !in db.todos)
      && o.db.issued == db.issued + {id}
      && o.db.todos == db.todos[id := Todo(caller, title, false)]
      && o.resp.body.todo == Todo(caller, title, false)
      && o.db.users == db.users
  {
  }

  /** Listing answers exactly the caller's todos, never another user's, or 404 when the
      caller has none; it changes nothing. */
  lemma ListShowsOnlyOwnTodos(db: Db, env: Env, header: Option<Token>, caller: UserId)
    requires Auth(env.tokens, header) == Caller(caller)
    ensures var o := ListTodos(db, env, header);
      && o.db == db
      && (o.resp.status == 404 <==> forall id :: id in db.todos ==> db.todos[id].userId != caller)
      && (o.resp.status == 404 ==> o.resp.body == Message(NoTodosFound))
      && (o.resp.status != 404 ==>
            && o.resp.status == 200 && o.resp.body.Todos?
            && (forall id :: id in o.resp.body.items <==> id in db.todos && db.todos[id].userId == caller)
            && (forall id :: id in o.resp.body.items ==> o.resp.body.items[id] == db.todos[id]))
  {
    var mine := OwnedBy(db.todos, caller);
    if mine == map[] {
      forall id | id in db.todos ensures db.todos[id].userId != caller {
        assert id !in mine;
      }
    } else {
      var id :| id in mine;
      assert id in db.todos && db.todos[id].userId == caller;
    }
  }

  /** Deleting a todo that does not exist or belongs to someone else answers 404 and changes
      nothing; otherwise the one todo is removed and nothing else changes. */
  lemma DeleteRemovesOnlyOwnTodo(db: Db, env: Env, header: Option<Token>, todoId: string,
                                 caller: UserId)
    requires Auth(env.tokens, header) == Caller(caller)
    ensures var o := DeleteTodo(db, env, header, todoId);
      && o.db.users == db.users
      && (!Owns(db.todos, caller, todoId) ==>
            o == Outcome(db, Response(404, Message(DeleteNotFound))))
      && (Owns(db.todos, caller, todoId) ==>
            && o.resp == Response(200, Message(TodoDeleted))
            && o.db.issued == db.issued
            && todoId !in o.db.todos
            && (forall id :: id != todoId ==> (id in o.db.todos <==> id in db.todos))
            && (forall id :: id in o.db.todos ==> id in db.todos && o.db.todos[id] == db.todos[id]))
  {
  }

  /** Another user's todo cannot be told apart from a missing one: deleting or updating it
      gets the same answer as an id nobody has used, and the database is untouched. */
  lemma ForeignTodoLooksMissing(db: Db, env: Env, header: Option<Token>, foreign: TodoId,
                                missing: TodoId, completed: Json, caller: UserId)
    requires Auth(env.tokens, header) == Caller(caller)
    requires foreign in db.todos && db.todos[foreign].userId != caller
    requires missing !in db.todos
    requires foreign != "" <==> missing != ""
    ensures DeleteTodo(db, env, header, foreign) == DeleteTodo(db, env, header, missing)
    ensures DeleteTodo(db, env, header, foreign).db == db
    ensures UpdateTodo(db, env, header, foreign, completed) == UpdateTodo(db, env, header, missing, completed)
    ensures UpdateTodo(db, env, header, foreign, completed).db == db
  {
  }

  /** An update whose input fails the guard answers 400 before any lookup: the answer is the
      same whatever the database holds, and nothing changes. */
  lemma UpdateChecksInputFirst(db: Db, other: Db, env: Env, header: Option<Token>, todoId: string,
                               completed: Json)
    requires Auth(env.tokens, header).Caller?
    requires todoId == "" || !completed.Bool?
    ensures UpdateTodo(db, env, header, todoId, completed)
         == Outcome(db, Response(400, Message(UpdateInvalid)))
    ensures UpdateTodo(other, env, header, todoId, completed).resp
         == UpdateTodo(db, env, header, todoId, completed).resp
  {
  }

  /** A successful update sets only the `completed` field of that one todo and answers the
      updated document; an id that is missing or someone else's answers 404 and changes nothing. */
  lemma UpdateChangesOnlyCompleted(db: Db, env: Env, header: Option<Token>, todoId: string,
                                   c: bool, caller: UserId)
    requires Auth(env.tokens, header) == Caller(caller)
    requires todoId != ""
    ensures var o := UpdateTodo(db, env, header, todoId, Bool(c));
      && o.db.users == db.users
      && (!Owns(db.todos, caller, todoId) ==>
            o == Outcome(db, Response(404, Message(UpdateNotFound))))
      && (Owns(db.todos, caller, todoId) ==>
            var old_ := db.todos[todoId];
            && o.db.issued == db.issued
            && o.db.todos == db.todos[todoId := Todo(old_.userId, old_.title, c)]
            && o.resp == Response(200, OneTodo(todoId, Todo(caller, old_.title, c))))
  {
  }

  /** Round trip: a todo just created by the caller shows up in the caller's list, not
      completed and with the title as sent. */
  lemma CreatedTodoIsListed(db: Db, env: Env, header: Option<Token>, title: Json, caller: UserId)
    requires Auth(env.tokens, header) == Caller(caller)
    ensures var made := CreateTodo(db, env, header, title);
      var listed := ListTodos(made.db, env, header);
      && listed.resp.status == 200 && listed.resp.body.Todos?
      && made.resp.body.OneTodo?
      && made.resp.body.id in listed.resp.body.items
      && listed.resp.body.items[made.resp.body.id] == Todo(caller, title, false)
  {
    var made := CreateTodo(db, env, header, title);
    var id := made.resp.body.id;
    assert Owns(made.db.todos, caller, id);
    assert id in OwnedBy(made.db.todos, caller);
  }

  /** Round trip: after a successful update the caller's list shows the todo with the new flag. */
  lemma UpdatedTodoIsListed(db: Db, env: Env, header: Option<Token>, todoId: string, c: bool,
                            caller: UserId)
    requires Auth(env.tokens, header) == Caller(caller)
    requires UpdateTodo(db, env, header, todoId, Bool(c)).resp.status == 200
    ensures var listed := ListTodos(UpdateTodo(db, env, header, todoId, Bool(c)).db, env, header);
      && listed.resp.status == 200 && listed.resp.body.Todos?
      && todoId in listed.resp.body.items
      && listed.resp.body.items[todoId].completed == c
  {
    var after := UpdateTodo(db, env, header, todoId, Bool(c)).db;
    assert Owns(after.todos, caller, todoId);
    assert todoId in OwnedBy(after.todos, caller);
  }

  /** Updating twice with the same flag gives the same database and the same answer as
      updating once. */
  lemma UpdateIsIdempotent(db: Db, env: Env, header: Option<Token>, todoId: string, completed: Json)
    ensures var once := UpdateTodo(db, env, header, todoId, completed);
      UpdateTodo(once.db, env, header, todoId, completed) == once
  {
  }
}

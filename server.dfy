/** The service itself: the two collections as fields that the route handlers update in place. */
module Server {
  import opened Values
  import opened Oracles
  import opened Store
  import opened Responses
  import opened Validation
  import opened AuthGate
  import Routes

  class TodoApp {
    const env: Env
    var users: map<UserId, User>
    var todos: map<TodoId, Todo>
    var issued: set<string>

    /** The invariant every handler keeps: no two users share an e-mail address, and every
        stored document has an id that was handed out. */
    ghost predicate Valid()
      reads this
    {
      UniqueEmails(users) && IdsIssued(State())
    }

    /** The database the fields hold. */
    ghost function State(): (db: Db)
      reads this
    {
      Db(users, todos, issued)
    }

    /** A service with empty collections. */
    constructor (env: Env)
      ensures this.env == env && State() == Db(map[], map[], {}) && Valid()
    {
      this.env := env;
      users := map[];
      todos := map[];
      issued := {};
    }

    /** `POST /signup`. */
    method Signup(userName: Json, email: Json, password: Json, salt: Salt) returns (resp: Response)
      requires Valid()
      modifies this`users, this`issued
      ensures Valid()
      ensures Routes.Outcome(State(), resp) == Routes.Signup(old(State()), env, userName, email, password, salt)
    {
      var input := ValidateSignup(env.isEmail, userName, email, password);
      if input.None? {
        return Response(400, Issue);
      }
      var SignupInput(name, address, plain) := input.value;
      if EmailTaken(users, address) {
        return Response(400, Message(EmailExists));
      }
      var digest := env.hasher.hash(plain, salt);
      var id := FreshId(issued);
      var user := User(name, address, digest);
      users := users[id := user];
      issued := issued + {id};
      resp := Response(201, NewUser(UserCreated, id, user));
    }

    /** `POST /signin`. Changes nothing. */
    method Signin(email: string, password: string) returns (resp: Response)
      requires Valid()
      ensures resp == Routes.Signin(State(), env, email, password).resp
    {
      if !EmailTaken(users, email) {
        return Response(401, Message(InvalidCredentials));
      }
      var id :| id in users && users[id].email == email;
      assert id == UserWithEmail(users, email);
      if !env.hasher.verify(password, users[id].password) {
        return Response(401, Message(InvalidCredentials));
      }
      var token := env.tokens.sign(id);
      resp := Response(200, Session(SignedIn, token));
    }

    /** `POST /todo`, behind the gate. */
    method CreateTodo(header: Option<Token>, title: Json) returns (resp: Response)
      requires Valid()
      modifies this`todos, this`issued
      ensures Valid()
      ensures Routes.Outcome(State(), resp) == Routes.CreateTodo(old(State()), env, header, title)
    {
      var g := Auth(env.tokens, header);
      if !g.Caller? {
        return Rejection(g);
      }
      var id := FreshId(issued);
      var todo := Todo(g.id, title, false);
      todos := todos[id := todo];
      issued := issued + {id};
      resp := Response(201, OneTodo(id, todo));
    }

    /** `GET /todos`, behind the gate. Changes nothing. */
    method ListTodos(header: Option<Token>) returns (resp: Response)
      ensures resp == Routes.ListTodos(State(), env, header).resp
    {
      var g := Auth(env.tokens, header);
      if !g.Caller? {
        return Rejection(g);
      }
      var mine := OwnedBy(todos, g.id);
      if mine == map[] {
        return Response(404, Message(NoTodosFound));
      }
      resp := Response(200, Todos(mine));
    }

    /** `DELETE /delete-todo/:id`, behind the gate: look up by id and owner, delete by id. */
    method DeleteTodo(header: Option<Token>, todoId: string) returns (resp: Response)
      requires Valid()
      modifies this`todos
      ensures Valid()
      ensures Routes.Outcome(State(), resp) == Routes.DeleteTodo(old(State()), env, header, todoId)
    {
      var g := Auth(env.tokens, header);
      if !g.Caller? {
        return Rejection(g);
      }
      if !Owns(todos, g.id, todoId) {
        return Response(404, Message(DeleteNotFound));
      }
      todos := todos - {todoId};
      resp := Response(200, Message(TodoDeleted));
    }

    /** `PUT /update-todo/:id`, behind the gate: check the input, then find-and-update by id
        and owner. */
    method UpdateTodo(header: Option<Token>, todoId: string, completed: Json) returns (resp: Response)
      requires Valid()
      modifies this`todos
      ensures Valid()
      ensures Routes.Outcome(State(), resp) == Routes.UpdateTodo(old(State()), env, header, todoId, completed)
    {
      var g := Auth(env.tokens, header);
      if !g.Caller? {
        return Rejection(g);
      }
      var flag := ValidateUpdate(todoId, completed);
      if flag.None? {
        return Response(400, Message(UpdateInvalid));
      }
      if !Owns(todos, g.id, todoId) {
        return Response(404, Message(UpdateNotFound));
      }
      var updated := todos[todoId].(completed := flag.value);
      todos := todos[todoId := updated];
      resp := Response(200, OneTodo(todoId, updated));
    }
  }
}

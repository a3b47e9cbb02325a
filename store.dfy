/** The two MongoDB collections as in-memory tables, and the queries the handlers issue
    against them. */
module Store {
  import opened Values
  import opened Oracles

  /** A document of the `users` collection. `password` holds the bcrypt digest. */
  datatype User = User(userName: string, email: string, password: Digest)

  /** A document of the `todos` collection. The title is the JSON value the client sent, kept
      with its value whatever its kind; how the `todos` schema would cast it is not modelled. */
  datatype Todo = Todo(userId: UserId, title: Json, completed: bool)

  /** The whole database: users by id, todos by id, and every id ever handed out to a new
      document. MongoDB never hands out an ObjectId twice, even after its document is deleted. */
  datatype Db = Db(users: map<UserId, User>, todos: map<TodoId, Todo>, issued: set<string>)

  /** Every stored document has an id that was handed out, and the empty string never was. */
  ghost predicate IdsIssued(db: Db)
  {
    db.users.Keys <= db.issued && db.todos.Keys <= db.issued && "" !in db.issued
  }

  /** No two users share an e-mail address. */
  ghost predicate UniqueEmails(users: map<UserId, User>)
  {
    forall a, b :: a in users && b in users && users[a].email == users[b].email ==> a == b
  }

  /** `UserModel.findOne({ email })` finds a document. */
  predicate EmailTaken(users: map<UserId, User>, email: string)
  {
    exists id :: id in users && users[id].email == email
  }

  /** The id `UserModel.findOne({ email })` returns; unique when `UniqueEmails` holds. */
  ghost function UserWithEmail(users: map<UserId, User>, email: string): (id: UserId)
    requires EmailTaken(users, email)
    ensures id in users && users[id].email == email
  {
    var id :| id in users && users[id].email == email; id
  }

  /** Whether the todo `id` exists and belongs to `owner`: the filter `{ _id: id, userId: owner }`. */
  predicate Owns(todos: map<TodoId, Todo>, owner: UserId, id: TodoId)
  {
    id in todos && todos[id].userId == owner
  }

  /** `TodoModel.find({ userId: owner })`, keyed by todo id. */
  function OwnedBy(todos: map<TodoId, Todo>, owner: UserId): (r: map<TodoId, Todo>)
    ensures forall id :: id in r <==> Owns(todos, owner, id)
    ensures forall id :: id in r ==> id in todos && r[id] == todos[id]
  {
    map id | id in todos && todos[id].userId == owner :: todos[id]
  }

  /** The string of `n` zeros. */
  function Zeros(n: nat): (s: string)
    ensures |s| == n
  {
    seq(n, _ => '0')
  }

  /** The shortest string of zeros, at least `n` long, that is not a key in `used`. */
  function FreshFrom(used: set<string>, n: nat): (r: string)
    ensures r !in used && |r| >= n
    decreases set k | k in used && |k| >= n
  {
    if Zeros(n) !in used then Zeros(n)
    else
      assert Zeros(n) in (set k | k in used && |k| >= n) - (set k | k in used && |k| >= n + 1);
      FreshFrom(used, n + 1)
  }

  /** The id a newly created document receives: non-empty and never handed out before,
      as a MongoDB ObjectId is. */
  function FreshId(used: set<string>): (r: string)
    ensures r !in used && r != ""
  {
    FreshFrom(used, 1)
  }
}

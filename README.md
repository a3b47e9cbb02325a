# Todo-Backend: authentication and per-user todos, modelled in Dafny

The service is a small Express application (`index.js`) in front of two MongoDB collections,
`users` and `todos`. It has seven routes: a `GET /` greeting, `POST /signup`, `POST /signin`,
and four todo routes behind the `auth` middleware (`POST /todo`, `GET /todos`,
`DELETE /delete-todo/:id` and `PUT /update-todo/:id`). This project models the logic of the six
handlers after the greeting. That logic covers:

- input validation before any storage access;
- the duplicate e-mail check at signup;
- storing the bcrypt digest, never the password;
- issuing a token only for matching credentials;
- the gate that answers 401 for a missing token and 403 for an invalid one;
- filtering every todo read, update and delete by both the todo id and the owner id.

Layout, one module per file:

- `values.dfy` (`Values`): `Option` and `Json`. `Json` is one field of a request body, as `express.json()` delivers it.
- `oracles.dfy` (`Oracles`): the foreign capabilities as injected function values.
  - `Hasher` stands for `bcrypt.hash` and `bcrypt.compare`.
  - `TokenService` stands for `Jwt.sign` and `Jwt.verify`, with the secret folded in.
  - `Env` also carries zod's e-mail check.
  - `Hasher` and `TokenService` each have a `Sound()` predicate. Only the lemmas that need it assume it. `isEmail` has none. Only `Traces.Walkthrough` assumes anything of it: that it accepts "a@x.com".
- `store.dfy` (`Store`): the two collections as maps keyed by id, the set of ids ever handed out, and the queries the handlers issue against them.
  - `EmailTaken` and `UserWithEmail` model `findOne({ email })`.
  - `Owns` models the filter `{ _id, userId }`.
  - `OwnedBy` models `find({ userId })`.
  - `FreshId` models ObjectId allocation: a new id is never one handed out before, even if its document was deleted.
  - `IdsIssued` is the invariant that every stored document's id was handed out and that the empty string never was.
- `responses.dfy` (`Responses`): status codes, response bodies and the handlers' messages.
- `validation.dfy` (`Validation`): the zod signup schema and the update handler's guard, as functions.
- `auth.dfy` (`AuthGate`): the `auth` middleware as a function from the `token` header to a decision.
- `routes.dfy` (`Routes`): each route as a function from the database before the request to the database after it and the response. The one-request properties are lemmas.
- `server.dfy` (`Server`): class `TodoApp`.
  - It holds `users` and `todos` as fields.
  - It has one method per route, written step by step as the handler is.
  - Each method's postcondition ties the new fields and the response to `Routes`.
  - Signup may modify `users` and `issued`. Creating a todo may modify `todos` and `issued`. Delete and update may modify only `todos`. Signin and listing modify nothing.
- `traces.dfy` (`Traces`): any sequence of requests.
  - Cross-user isolation: other users' requests never change a user's todos.
  - E-mails stay unique and users are never changed or removed.
  - A deleted todo's id never comes back.
  - A scenario run from an empty database.

Note on the source: the signup response (index.js:56-59) returns the whole created user
document, bcrypt digest included. The model keeps this: `NewUser` carries the stored `User`.

## Model

| member | source | states |
|---|---|---|
| `Validation.ValidateSignup` | index.js:28-39 | a body passes exactly when `userName` is a string, `email` is a string that the e-mail check accepts, and `password` is a string of at least 5 characters; the parsed fields are the ones sent |
| `Validation.ValidateUpdate` | index.js:159-163 | the update input passes exactly when the id is non-empty and `completed` is a JSON boolean; the flag passed on is that boolean |
| `AuthGate.Auth` | index.js:99-109 | a missing or empty `token` header gives `NoToken`; a token that fails verification gives `BadToken`; otherwise the caller id is exactly the id the token decodes to |
| `AuthGate.Rejection` | index.js:101-107 | the gate answers 401 "No token provided" for a missing token and 403 "Invalid token" for an invalid one |
| `AuthGate.SignedTokenPasses` | index.js:78-82 | with a sound token service, a token signed for an id passes the gate as that id |
| `Store.OwnedBy` | index.js:129 | the result holds exactly the todos whose `userId` is the owner, each unchanged |
| `Store.FreshId` | index.js:51-55 | a new document's id is non-empty and was never handed out before |
| `Store.UserWithEmail` | index.js:70 | when some user has the e-mail, the id found is a user with that e-mail |
| `Routes.SignupRejectsInvalidInput` | index.js:34-39 | a body that fails the schema gets 400 and leaves the database unchanged; the answer does not depend on the database |
| `Routes.SignupRejectsDuplicateEmail` | index.js:44-47 | a valid body whose e-mail a user already has gets 400 "Email already exists" and changes nothing |
| `Routes.SignupAddsOneUser` | index.js:49-59 | a valid body with a new e-mail gets 201; exactly one user is added, under an id never handed out before, holding the name, the e-mail and the digest of the password; the response carries "User created successfully", the new id and that user document; the todos are untouched |
| `Routes.SignupKeepsEmailsUnique` | index.js:44-55 | signup never lets two users share an e-mail |
| `Routes.SigninIssuesTokenOnlyOnMatch` | index.js:70-88 | signin changes nothing; it answers 200 exactly when a user has the e-mail and the password verifies against that user's digest, and the token is signed for that user's id; otherwise it answers 401 "Invalid email or password" |
| `Routes.SignupThenSignin` | index.js:49-82 | after a successful signup, signing in with the same credentials gives 200, and the token passes the gate as the new user |
| `Routes.GateStopsTodoRoutes` | index.js:99-109 | all four todo routes answer 401 for a missing token and 403 for a bad one, and the database is unchanged |
| `Routes.CreateAddsOneTodo` | index.js:115-120 | creating a todo gives 201 and adds one record under an id never handed out before, owned by the caller, with `completed = false` and the title as sent; the response carries the new id and that todo; nothing else changes |
| `Routes.ListShowsOnlyOwnTodos` | index.js:129-133 | listing answers exactly the caller's todos and never another user's; it answers 404 "No todos found" exactly when the caller has none; nothing changes |
| `Routes.DeleteRemovesOnlyOwnTodo` | index.js:143-148 | deleting a missing or foreign todo gives 404 and changes nothing; otherwise that one todo is removed and every other record stays |
| `Routes.ForeignTodoLooksMissing` | index.js:143-145 | deleting or updating another user's todo gets the same answer as an id never used, and the database is untouched |
| `Routes.UpdateChecksInputFirst` | index.js:159-163 | an update with an empty id or a non-boolean `completed` gets 400 before any lookup; the answer does not depend on the database |
| `Routes.UpdateChangesOnlyCompleted` | index.js:165-175 | a successful update changes only that todo's `completed` field and answers the updated document; a missing or foreign id gets 404 and changes nothing |
| `Routes.UpdateIsIdempotent` | index.js:165-169 | repeating an update gives the same database and the same answer as doing it once |
| `Routes.CreatedTodoIsListed` | index.js:115-133 | a todo just created shows up in its creator's list, not completed, with its title |
| `Routes.UpdatedTodoIsListed` | index.js:165-175 | after a successful update, the owner's list shows the todo with the new flag |
| `Server.TodoApp.constructor` | index.js:9-10 | the service starts with both collections empty |
| `Server.TodoApp.Signup` | index.js:25-64 | the handler's new `users` and its response are those of `Routes.Signup`; `todos` cannot change; e-mails stay unique |
| `Server.TodoApp.Signin` | index.js:66-96 | the handler answers as `Routes.Signin` and changes nothing |
| `Server.TodoApp.CreateTodo` | index.js:112-124 | the handler's new `todos` and its response are those of `Routes.CreateTodo`; `users` cannot change |
| `Server.TodoApp.ListTodos` | index.js:126-137 | the handler answers as `Routes.ListTodos` and changes nothing |
| `Server.TodoApp.DeleteTodo` | index.js:139-152 | the handler's new `todos` and its response are those of `Routes.DeleteTodo`; `users` cannot change |
| `Server.TodoApp.UpdateTodo` | index.js:154-183 | the handler's new `todos` and its response are those of `Routes.UpdateTodo`; `users` cannot change |
| `Traces.StepLeavesOthersTodos` | index.js:112-183 | in a database whose stored ids were all handed out (`IdsIssued`, kept by every request), a request that does not pass the gate as user `u` leaves every todo of `u` exactly as it was |
| `Traces.RunLeavesOthersTodos` | index.js:112-183 | from a database satisfying `IdsIssued`, whatever other users request, in any order, the todos of `u` stay exactly as they were |
| `Traces.StepKeepsUsers` | index.js:25-96 | no request changes or removes a user, and none lets two users share an e-mail |
| `Traces.RunKeepsUsers` | index.js:25-96 | over any sequence of requests, e-mails stay unique and every user stays as registered |
| `Traces.StepKeepsIdsIssued` | index.js:51-55 | every request keeps each stored document's id among those handed out, and the set of handed-out ids only grows |
| `Traces.RunNeverReusesIds` | index.js:115-119 | an id that was handed out and no longer holds a todo never holds one again, whatever requests follow |
| `Traces.DeletedTodoStaysDeleted` | index.js:143-173 | after the owner deletes a todo, updating it by the same id answers 404 whatever requests come between |
| `Traces.Walkthrough` | index.js:25-137 | from an empty database: signup gives 201; signin with a wrong password gives 401; signin with the right one gives 200 and a token; creating "t1" with it gives 201; listing gives exactly that one todo, under the id creation answered; listing without a token gives 401 |

## Left out

- Express setup, JSON body parsing, CORS, the `GET /` greeting and the `serverless-http` export (index.js:2-6, 13, 21-24, 186): HTTP plumbing. A request body that is not a JSON object is not modelled.
- The MongoDB connection and Mongoose (index.js:9-10, 16-19): the collections are in-memory maps with the same filter semantics.
- Mongoose's casting of ids: a `:id` that is not a valid ObjectId makes the query throw, and the handler answers 500. The model treats every string as a possible id, so an unknown one gets 404.
- Ids are compared as strings. Mongoose casts `:id` to an ObjectId, and hexadecimal digits are case-insensitive, so in the source the upper-case spelling of an existing id finds that todo. In the model it gets 404.
- The `todos` schema (`db.js` is not part of this model): the title is stored as the JSON value sent, with no casting. A number keeps its literal and an object or array its JSON text; whatever the schema would turn them into is not modelled. These keep the client's spelling, whereas `JSON.parse` identifies spellings such as `1` and `1.0` and the answer re-serialises the parsed value; no handler decision depends on this.
- Store.FreshId: a deterministic allocator. It returns the shortest string of zeros, at least one character long, that was never handed out. It stands in for MongoDB's ObjectId generator, whose ids are never issued twice. The model does not give ids the ObjectId form (24 hexadecimal digits).
- The order of the `GET /todos` array (MongoDB's natural order): the list is a map keyed by todo id.
- bcrypt internals and the cost factor 10 (index.js:49, 71): `Hasher` is abstract. The random salt is a parameter of signup. The general lemmas assume only that a password verifies against its own digest. `Traces.Walkthrough` also assumes that the wrong password of its scenario does not verify against the right one's digest, and that `isEmail` accepts "a@x.com".
- JWT signing, signature checking, the 24-hour expiry and the fallback secret `"hiitheresecret"` (index.js:7-8, 78-82, 103): `TokenService.verify` is an abstract partial function. Expiry is part of its `None` answers, and there is no clock. `TokenService.Sound()` makes every signed token verify, so `AuthGate.SignedTokenPasses`, `Routes.SignupThenSignin` and `Traces.Walkthrough` describe a token used within its 24 hours. A verified payload without an `id` field is not modelled.
- zod's e-mail pattern (index.js:30) is the abstract `isEmail`. The text of zod's first validation message is the body `Issue`. JavaScript measures the password's length in UTF-16 units; the model counts characters.
- Routes.Signin: the signin fields are modelled as strings. A non-string `email` (a query-operator object, or a missing field) or `password` depends on Mongoose's filter casting and bcrypt's argument checks, and is not modelled.
- The 500 answers and the logging (index.js:26, 60-62, 68, 89-94, 121-123, 134-136, 149-151, 176-182): they only fire on storage or runtime faults.
- Atomicity and concurrent requests (the check-then-insert at signup, `findOneAndUpdate`): the model is sequential.

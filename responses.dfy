/** What a handler sends back: a status code and a JSON body. */
module Responses {
  import opened Oracles
  import opened Store

  const EmailExists := "Email already exists"
  const UserCreated := "User created successfully"
  const InvalidCredentials := "Invalid email or password"
  const SignedIn := "Successfully signed in"
  const NoTokenProvided := "No token provided"
  const InvalidToken := "Invalid token"
  const NoTodosFound := "No todos found"
  const DeleteNotFound := "Todo not found or not authorized to delete"
  const TodoDeleted := "Todo deleted successfully"
  const UpdateInvalid := "Invalid input. Todo ID and completed status required"
  const UpdateNotFound := "Todo not found or not authorized to update"

  datatype Body =
    | Message(text: string)
    | Issue                                          // zod's first validation message
    | NewUser(text: string, id: UserId, user: User)  // the created user document, digest included
    | Session(text: string, token: Token)            // `{ success: true, message, token }`
    | OneTodo(id: TodoId, todo: Todo)
    | Todos(items: map<TodoId, Todo>)                // the array of found todos, keyed by id

  datatype Response = Response(status: nat, body: Body)
}

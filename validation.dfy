/** The input checks the handlers run before they touch the database. */
module Validation {
  import opened Values

  /** zod's `password: z.string().min(5)`. */
  const MinPasswordLength := 5

  /** The fields of a signup body that passed the schema. */
  datatype SignupInput = SignupInput(userName: string, email: string, password: string)

  /** `schema.safeParse(req.body)` for the signup schema: `userName` a string, `email` a
      string that `isEmail` accepts, `password` a string of at least five characters. */
  function ValidateSignup(isEmail: string -> bool, userName: Json, email: Json, password: Json)
    : (r: Option<SignupInput>)
    ensures r.Some? <==>
      && userName.Str?
      && email.Str? && isEmail(email.s)
      && password.Str? && |password.s| >= MinPasswordLength
    ensures r.Some? ==> r.value == SignupInput(userName.s, email.s, password.s)
  {
    match (userName, email, password)
    case (Str(u), Str(e), Str(p)) =>
      if isEmail(e) && |p| >= MinPasswordLength then Some(SignupInput(u, e, p)) else None
    case _ => None
  }

  /** The update handler's guard `!todoId || typeof req.body.completed !== 'boolean'`:
      the new completed flag when the input passes it. */
  function ValidateUpdate(todoId: string, completed: Json): (r: Option<bool>)
    ensures r.Some? <==> todoId != "" && completed.Bool?
    ensures r.Some? ==> r.value == completed.b
  {
    if todoId == "" then None
    else match completed
      case Bool(c) => Some(c)
      case _ => None
  }
}

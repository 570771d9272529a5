/** Vocabulary shared by the whole backend model: document ids, optional values, what a
    request handler answers, and the two roles. */
module Base {

  /** A document id (a MongoDB ObjectId). */
  type Id = nat

  datatype Option<+T> = None | Some(value: T)

  /** The answer of a request handler: a success status with its JSON body, or an error
      status with its message. An error thrown inside a handler wrapped by
      `asyncHandler` reaches the error middleware, which answers with the status set
      before the throw, or with 500 when none was set; that is a `Fail` too. An
      exception that escapes a handler without such a wrapper is `Unhandled`: an
      unhandled promise rejection, which sends no response and, under the default
      settings of Node.js 15 and later, ends the server process. */
  datatype Outcome<+T> =
    | Ok(status: nat, value: T)
    | Fail(status: nat, message: string)
    | Unhandled(message: string)
  {
    predicate IsFail(code: nat)
    {
      Fail? && status == code
    }
  }

  /** The verdict of the checks a handler runs before it writes anything: all passed,
      or the first one that failed, with the status and message it answers with. */
  datatype Check = Pass | Refuse(status: nat, message: string)
  {
    predicate Is(code: nat)
    {
      Refuse? && status == code
    }
  }

  /** A stored document together with its id. */
  datatype Doc<+T> = Doc(id: Id, doc: T)

  /** The error a handler throws when the authentication middleware attached no user
      (its token names an id with no stored user) and the handler reads a field of the
      caller. */
  function NullRead(field: string): string
  {
    "Cannot read properties of null (reading '" + field + "')"
  }

  /** The cryptographic primitives the handlers call, as total functions: bcrypt's
      `hash(password, salt)` and `compare(password, hash)`, SHA-256 written as hex, and
      the signing of a session token for a user id (its secret and expiry are fixed by
      the environment). */
  datatype Crypto = Crypto(
    bcryptHash: (string, string) -> string,
    bcryptCompare: (string, string) -> bool,
    sha256Hex: string -> string,
    signJwt: Id -> string)

  const DOCENTE: string := "docente"
  const ESTUDIANTE: string := "estudiante"

  /** JavaScript truthiness of an optional text field of a request: present and non-empty. */
  predicate Present(s: Option<string>)
  {
    s.Some? && s.value != ""
  }
}

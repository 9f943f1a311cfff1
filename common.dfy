/** Types shared by the client wizard and the REST back end of the release back office. */
module Common {

  /** `undefined`/`null` versus a present value. */
  datatype Option<+T> = None | Some(value: T) {
    function GetOr(default: T): T {
      match this
      case Some(v) => v
      case None => default
    }
  }

  /** The `role` enumeration of the users table: admin | operator | user. */
  datatype Role = Admin | Operator | User

  /** The logged-in user the client's auth store holds. */
  datatype SessionUser = SessionUser(id: int, name: string, email: string, role: Role)

  /** A file handle chosen in the browser; only its original name matters to the model. */
  datatype File = File(name: string)

  /** What a request handler answers: a success body, or an error status with its message. */
  datatype Response<+T> = Ok(code: int, body: T) | Fail(code: int, message: string)

  /** JavaScript truthiness of an optional string: defined and not the empty string. */
  predicate Truthy(s: Option<string>) {
    s.Some? && s.value != ""
  }

  /** JavaScript truthiness of an optional JSON number: defined and not zero. */
  predicate TruthyNumber(n: Option<int>) {
    n.Some? && n.value != 0
  }
}

/**
 * The values exchanged with the server, as the redigo library hands them to
 * this client: replies, request arguments and commands, and the small
 * conversion helpers (redis.Values, redis.String, redis.Int64) the client
 * applies to replies. Go errors are modelled by their message text.
 */
module Wire {
  import Strconv

  type Error = string

  type Int64 = Strconv.Int64

  /** A Go value that may be nil: a nil error, a nil *string. */
  datatype Option<+T> = None | Some(value: T)

  /**
   * A reply as redigo decodes it: a status string (Go `string`), an integer
   * (`int64`), a bulk string (`[]byte`, its bytes read as characters), a nil
   * reply, an error reply (`redis.Error`), or an array (`[]interface{}`).
   */
  datatype Reply =
    | Str(text: string)
    | Int(n: Int64)
    | Bytes(data: string)
    | Nil
    | ErrorReply(message: string)
    | Array(elems: seq<Reply>)

  /** One request argument: a string, an integer, or a float (kept as a real). */
  datatype Arg = Text(s: string) | Integer(n: int) | Float(x: real)

  /** A request: the command name and its arguments, in order. */
  datatype Command = Command(name: string, args: seq<Arg>)

  /** A Go call that returns a value or an error, or panics on a failed type assertion. */
  datatype Outcome<T> = Ok(value: T) | Fail(error: Error) | Panic(reason: string)

  /** What `%T` prints for the dynamic type of a reply. */
  function TypeName(r: Reply): string
  {
    match r
    case Str(_) => "string"
    case Int(_) => "int64"
    case Bytes(_) => "[]uint8"
    case Nil => "<nil>"
    case ErrorReply(_) => "redis.Error"
    case Array(_) => "[]interface {}"
  }

  const ErrNil: Error := "redigo: nil returned"

  /**
   * redis.Values(reply, err): an incoming error is passed on; an array is
   * returned; anything else is an error.
   */
  function Values(reply: Reply, err: Option<Error>): (r: Outcome<seq<Reply>>)
    ensures r.Ok? <==> err.None? && reply.Array?
    ensures r.Ok? ==> r.value == reply.elems
    ensures err.Some? ==> r == Fail(err.value)
    ensures !r.Panic?
  {
    if err.Some? then Fail(err.value)
    else match reply
      case Array(elems) => Ok(elems)
      case Nil => Fail(ErrNil)
      case ErrorReply(m) => Fail(m)
      case _ => Fail("redigo: unexpected type for Values, got type " + TypeName(reply))
  }

  /** redis.String(reply, nil): status and bulk strings convert; nothing else does. */
  function AsString(reply: Reply): (r: Outcome<string>)
    ensures r.Ok? <==> reply.Str? || reply.Bytes?
    ensures reply.Str? ==> r == Ok(reply.text)
    ensures reply.Bytes? ==> r == Ok(reply.data)
    ensures !r.Panic?
  {
    match reply
    case Bytes(data) => Ok(data)
    case Str(text) => Ok(text)
    case Nil => Fail(ErrNil)
    case ErrorReply(m) => Fail(m)
    case _ => Fail("redigo: unexpected type for String, got type " + TypeName(reply))
  }

  /**
   * redis.Int64(reply, nil): an integer converts to itself and a bulk string
   * is parsed as a base-10 int64; nothing else converts.
   */
  function AsInt64(reply: Reply): (r: Outcome<Int64>)
    ensures reply.Int? ==> r == Ok(reply.n)
    ensures r.Ok? ==> reply.Int? || (reply.Bytes? && Strconv.ParseInt(reply.data) == Strconv.Parsed(r.value))
    ensures reply.Bytes? && Strconv.ParseInt(reply.data).Parsed? ==> r == Ok(Strconv.ParseInt(reply.data).n)
    ensures !r.Panic?
  {
    match reply
    case Int(n) => Ok(n)
    case Bytes(data) =>
      (match Strconv.ParseInt(data)
       case Parsed(n) => Ok(n)
       case Invalid(e) => Fail(e))
    case Nil => Fail(ErrNil)
    case ErrorReply(m) => Fail(m)
    case _ => Fail("redigo: unexpected type for Int64, got type " + TypeName(reply))
  }
}

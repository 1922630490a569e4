/** Result types and the error variants shared by every component of the client. */
module Common {
  datatype Option<+T> = None | Some(value: T)

  datatype Result<+T> = Ok(value: T) | Err(error: ModalError)

  /** The gRPC status codes. */
  datatype Code =
    | OkCode | Cancelled | Unknown | InvalidArgument | DeadlineExceeded | NotFound | AlreadyExists
    | PermissionDenied | ResourceExhausted | FailedPrecondition | Aborted | OutOfRange
    | Unimplemented | Internal | Unavailable | DataLoss | Unauthenticated

  /** The client's error variants that the modelled operations can return; message texts are dropped. */
  datatype ModalError =
    | FunctionTimeout
    | Remote
    | InternalFailure
    | Invalid
    | QueueEmpty
    | QueueFull
    | ClientClosed
    | ExecTimeout
    | Grpc(code: Code)
    | Serialization
    | Other

  /** An operation that loops on server replies either returned, or was still looping when the
      finite script of replies it was run against ended. */
  datatype Progress<+T> = Returned(result: Result<T>) | StillRunning

  function Min(a: int, b: int): (m: int)
    ensures m <= a && m <= b && (m == a || m == b)
  {
    if a <= b then a else b
  }

  function Max(a: int, b: int): (m: int)
    ensures a <= m && b <= m && (m == a || m == b)
  {
    if a >= b then a else b
  }

  function Power(b: nat, n: nat): (p: nat)
    ensures b >= 1 ==> p >= 1
  {
    if n == 0 then 1
    else
      var p := Power(b, n - 1);
      assert b >= 1 ==> b * p >= p;
      b * p
  }

  lemma {:induction false} MulAssoc(x: int, y: int, z: int)
    ensures x * (y * z) == (x * y) * z
  {
  }

  lemma {:induction false} MulMono(c: nat, a: int, b: int)
    requires a <= b
    ensures c * a <= c * b
  {
  }
}

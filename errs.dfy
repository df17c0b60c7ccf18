/** Failure values shared by every component of the model. */
module Errs {

  datatype Option<+T> = None | Some(value: T)

  /** A value or the error that replaced it, for the Go pair `(value, err)`. */
  datatype Result<+T> = Ok(value: T) | Err(error: Error)

  /** The errors the modelled Go code can return, one constructor per origin. */
  datatype Error =
    | LockFailed        // redsync could not take the mutex ("lock failed: ...")
    | UnlockFailed      // redsync could not release the mutex ("unlock failed: ...")
    | RedisFailed       // any other Redis command error (network, server)
    | RedisNil          // GET of a key that does not exist (redis.Nil)
    | ParseFailed       // strconv.ParseInt rejected a key segment
    | DbFailed          // a driver or SQL error reported by gorm
    | ForeignKeyFailed  // MySQL error 1452: an INSERT names a user or video row that does not exist
    | RecordNotFound    // gorm.ErrRecordNotFound, returned by First
    | ErrDatabase       // errno.ErrDatabase: an UPDATE touched a number of rows other than 1
    | AckFailed         // amqp Delivery.Ack failed
    | TokenInvalid      // jwt ParseToken rejected the token
    | NoInstance        // "no instance remains for <desc>"
    | EtcdFailed        // the etcd Get failed
}

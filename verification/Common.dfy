/** Result codes and optional values shared by all modules. */
module Common {
  datatype Status = Ok | ErrArgument | ErrTruncated | ErrHeader | ErrCrc | ErrCapacity | ErrTimeout | ErrSync | ErrConfig

  datatype Option<+T> = None | Some(value: T)
}

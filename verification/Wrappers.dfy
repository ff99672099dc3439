/** Types shared by the other modules. */
module Wrappers {

  datatype Option<+T> = None | Some(value: T)

  datatype Result<+T, +E> = Ok(value: T) | Err(error: E)

  /** What a download did with a file, as Many records it. */
  datatype FileState = FileMissing | FileUnchanged | FileFetched | FileStaged
}

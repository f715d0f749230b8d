/** The sizes of kernel/param.h that the log and the file system share. */
module Param {
  const MAXOPBLOCKS := 10         // blocks a file system operation may write
  const LOGSIZE := 30             // MAXOPBLOCKS * 3
}

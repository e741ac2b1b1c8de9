// 6_Synchronization/semlib.c: the semaphore as the kernel gives it, every call atomic.
module Semlib {
  import opened Options

  datatype Call = SemWait | SemTryWait(ok: bool) | SemPost

  // semop with -1 is enabled only on a positive value; with IPC_NOWAIT it fails instead.
  function Step(sval: int, c: Call): Option<int> {
    match c
    case SemWait => if sval > 0 then Some(sval - 1) else None
    case SemTryWait(ok) =>
      if ok != (sval > 0) then None else if ok then Some(sval - 1) else Some(sval)
    case SemPost => Some(sval + 1)
  }
}

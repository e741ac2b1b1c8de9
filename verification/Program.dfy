// The loop bodies of Producer and Consumer in prodcons_s.c, producer_s.c and
// consumer_s.c: the same three semaphores around the same statements.
module Program {
  import opened RingBuffer
  import opened Body

  datatype SemId = Empty | Full | Mutex

  // One value for each semaphore.
  datatype Table<T> = Table(empty: T, full: T, mutex: T) {
    function At(k: SemId): T {
      match k case Empty => empty case Full => full case Mutex => mutex
    }

    function Put(k: SemId, v: T): (r: Table<T>)
      ensures forall j :: r.At(j) == if j == k then v else At(j)
    {
      match k
      case Empty => this.(empty := v)
      case Full => this.(full := v)
      case Mutex => this.(mutex := v)
    }
  }

  datatype Point = AtWait(k: SemId) | In(st: Statement) | AtPost(k: SemId) | Done

  // left is the number of iterations not finished yet.
  datatype Thread = Thread(role: Role, at: Point, left: int, data: int)

  // The semaphore an iteration takes first, and the one it posts last.
  function First(role: Role): SemId {
    if role == Producer then Empty else Full
  }

  function Last(role: Role): SemId {
    if role == Producer then Full else Empty
  }

  // for (...; i < NLOOPS; ...): enter the next iteration or leave the loop.
  function Loop(role: Role, left: int, data: int): Thread {
    Thread(role, if left > 0 then AtWait(First(role)) else Done, left, data)
  }

  // Control flow after a semaphore call returns.
  function AfterCall(t: Thread): Thread
    requires t.at.AtWait? || t.at.AtPost?
  {
    match t.at
    case AtWait(k) => t.(at := if k == Mutex then In(Copy) else AtWait(Mutex))
    case AtPost(k) => if k == Mutex then t.(at := AtPost(Last(t.role))) else Loop(t.role, t.left - 1, t.data)
  }

  // One statement between the semaphore calls.
  function AfterStatement(t: Thread, m: Memory, v: int): (Thread, Memory)
    requires t.at.In?
  {
    var (data, next) := Run(t.role, t.at.st, t.data, m, v);
    var at := match t.at.st case Copy => In(Advance) case Advance => In(Count) case Count => AtPost(Mutex);
    (t.(at := at, data := data), next)
  }

  // The loop bodies, as the source has them.
  datatype Deed = WaitOn(k: SemId) | Do(st: Statement) | PostOn(k: SemId)

  function Script(role: Role): seq<Deed> {
    match role
    case Producer => [WaitOn(Empty), WaitOn(Mutex), Do(Copy), Do(Advance), Do(Count), PostOn(Mutex), PostOn(Full)]
    case Consumer => [WaitOn(Full), WaitOn(Mutex), Do(Copy), Do(Advance), Do(Count), PostOn(Mutex), PostOn(Empty)]
  }

  // Each role only stands at the semaphores of its own loop.
  predicate WellFormed(t: Thread) {
    match t.at
    case AtWait(k) => t.left > 0 && (k == Mutex || k == First(t.role))
    case In(_) => t.left > 0
    case AtPost(k) => t.left > 0 && (k == Mutex || k == Last(t.role))
    case Done => t.left == 0
  }

  // Past the counter update of the current iteration.
  predicate Counted(t: Thread) {
    t.at.AtPost?
  }

  // Past the first wait, not past the counter update.
  predicate Claimed(t: Thread) {
    t.at == AtWait(Mutex) || t.at.In?
  }

  // Token accounting weights. A slot is neither in EmptySem nor in the ring while a
  // producer has claimed it, or a consumer has emptied it and not posted it yet.
  function SlotHeld(t: Thread): int {
    if (if t.role == Producer then Claimed(t) else Counted(t)) then 1 else 0
  }

  // An item in the ring has no token in FullSem while a consumer has claimed it, or the
  // producer that stored it has not posted it yet.
  function ItemHeld(t: Thread): int {
    if (if t.role == Consumer then Claimed(t) else Counted(t)) then 1 else 0
  }

  function Inside(t: Thread): int {
    if t.at.In? || t.at == AtPost(Mutex) then 1 else 0
  }

  function InAhead(t: Thread): int {
    if t.role == Producer && t.at == In(Count) then 1 else 0
  }

  function OutAhead(t: Thread): int {
    if t.role == Consumer && t.at == In(Count) then 1 else 0
  }

  // The item a producer has generated and not counted yet.
  function Held(t: Thread): seq<int> {
    if t.role == Producer && (t.at == In(Advance) || t.at == In(Count)) then [t.data] else []
  }

  // Items a thread has still to count.
  function ToProduce(t: Thread): int {
    if t.role == Producer then (if Counted(t) then t.left - 1 else t.left) else 0
  }

  function ToConsume(t: Thread): int {
    if t.role == Consumer then (if Counted(t) then t.left - 1 else t.left) else 0
  }
}

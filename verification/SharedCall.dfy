// app.c and rpc.c: a call through one shared cell and two semaphores, for any number of
// successive calls by one live client, after the server has set both semaphores to 0.
module SharedCall {
  import opened Options
  import opened Runs

  const INT_MAX: int := 0x7fff_ffff

  // The server's loop on a 32-bit int; None when an addition overflows, which C leaves
  // undefined.
  function SumFrom(i: int, num: int, sum: int): Option<int>
    decreases num - i
  {
    if i > num then Some(sum)
    else if sum + i > INT_MAX then None
    else SumFrom(i + 1, num, sum + i)
  }

  method SumUpTo(num: int) returns (sum: Option<int>)
    ensures sum == SumFrom(0, num, 0)
  {
    var s, i := 0, 0;
    while i <= num
      invariant SumFrom(i, num, s) == SumFrom(0, num, 0)
      decreases num - i
    {
      if s + i > INT_MAX {
        return None;
      }
      s := s + i;
      i := i + 1;
    }
    return Some(s);
  }

  function Triangle(num: int): int {
    if num < 0 then 0 else num * (num + 1) / 2
  }

  lemma {:induction false} SumIsTriangle(i: int, num: int, sum: int)
    requires 0 <= i <= num + 1 && i <= 65536 && 2 * sum == i * (i - 1)
    ensures SumFrom(i, num, sum) == if num <= 65535 then Some(Triangle(num)) else None
    decreases num - i
  {
    if i <= num {
      assert i * (i + 1) == 2 * (sum + i);
      if i == 65536 {
        assert sum == 2147450880;
      } else {
        Product(i, 65535);
        SumIsTriangle(i + 1, num, sum + i);
      }
    } else {
      assert 2 * sum == num * (num + 1);
    }
  }

  lemma {:induction false} Product(i: int, n: int)
    requires 0 <= i <= n
    ensures i * (i + 1) <= n * (n + 1)
  {
  }

  // The loop stays within a 32-bit int exactly for arguments up to 65535, and then
  // computes num * (num + 1) / 2.
  lemma {:induction false} SumExact(num: int)
    ensures SumFrom(0, num, 0) == if num <= 65535 then Some(Triangle(num)) else None
  {
    if num >= 0 {
      SumIsTriangle(0, num, 0);
    }
  }

  datatype Client = Write | Post | Wait | Read | Done
  datatype Server = Idle | Load | StoreSum(sum: int) | Reply | Undefined

  // results holds what Calc has returned so far; the call in progress is the next one.
  datatype State = State(calls: seq<int>, results: seq<int>, client: Client, server: Server,
                         cell: int, sema1: int, sema2: int)

  datatype Side = App | Rpc

  function NextCall(calls: seq<int>, results: seq<int>): Client {
    if |results| < |calls| then Write else Done
  }

  function Init(calls: seq<int>, cell: int): State {
    State(calls, [], NextCall(calls, []), Idle, cell, 0, 0)
  }

  function Step(s: State, side: Side): Option<State> {
    if side == App then
      match s.client
      case Write => if |s.results| < |s.calls| then Some(s.(cell := s.calls[|s.results|], client := Post)) else None
      case Post => Some(s.(sema1 := s.sema1 + 1, client := Wait))
      case Wait => if s.sema2 > 0 then Some(s.(sema2 := s.sema2 - 1, client := Read)) else None
      case Read => Some(s.(results := s.results + [s.cell], client := NextCall(s.calls, s.results + [s.cell])))
      case Done => None
    else
      match s.server
      case Idle => if s.sema1 > 0 then Some(s.(sema1 := s.sema1 - 1, server := Load)) else None
      case Load =>
        Some(s.(server := match SumFrom(0, s.cell, 0) case Some(sum) => StoreSum(sum) case None => Undefined))
      case StoreSum(sum) => Some(s.(cell := sum, server := Reply))
      case Reply => Some(s.(sema2 := s.sema2 + 1, server := Idle))
      case Undefined => None
  }

  predicate ClientOnCell(s: State) {
    s.client == Write || s.client == Read
  }

  // Reply still reads the cell, to print it.
  predicate ServerOnCell(s: State) {
    s.server == Load || s.server.StoreSum? || s.server == Reply
  }

  predicate InRange(calls: seq<int>) {
    forall n :: n in calls ==> n <= 65535
  }

  predicate Answered(s: State) {
    && |s.results| <= |s.calls|
    && forall k :: 0 <= k < |s.results| ==> s.results[k] == Triangle(s.calls[k])
  }

  // The turn passes from the client over sema1 to the server and back over sema2.
  predicate Turn(s: State) {
    var quiet := s.sema1 == 0 && s.sema2 == 0;
    match s.client
    case Done => quiet && s.server == Idle && |s.results| == |s.calls|
    case Write => quiet && s.server == Idle && |s.results| < |s.calls|
    case Post => quiet && s.server == Idle && |s.results| < |s.calls| && s.cell == s.calls[|s.results|]
    case Read => quiet && s.server == Idle && |s.results| < |s.calls| && s.cell == Triangle(s.calls[|s.results|])
    case Wait =>
      |s.results| < |s.calls| &&
      var n := s.calls[|s.results|];
      match s.server
      case Idle =>
        (s.sema1 == 1 && s.sema2 == 0 && s.cell == n) || (s.sema1 == 0 && s.sema2 == 1 && s.cell == Triangle(n))
      case Load => quiet && s.cell == n
      case StoreSum(sum) => quiet && sum == Triangle(n)
      case Reply => quiet && s.cell == Triangle(n)
      case Undefined => quiet && n > 65535
  }

  ghost predicate Inv(s: State, calls: seq<int>) {
    s.calls == calls && Answered(s) && Turn(s)
  }

  lemma {:induction false} StepInv(s: State, side: Side, calls: seq<int>)
    requires Inv(s, calls) && Step(s, side).Some?
    ensures Inv(Step(s, side).value, calls)
  {
    if s.client == Wait {
      SumExact(s.calls[|s.results|]);
    }
  }

  lemma {:induction false} RunInv(calls: seq<int>, cell: int, run: seq<Side>)
    requires Exec(Step, Init(calls, cell), run).Some?
    ensures Inv(Exec(Step, Init(calls, cell), run).value, calls)
  {
    var inv := s => Inv(s, calls);
    forall s, side | inv(s) && Step(s, side).Some? ensures inv(Step(s, side).value) {
      StepInv(s, side, calls);
    }
    Invariance(Step, inv, Init(calls, cell), run);
  }

  // In every reachable state the calls made so far have returned n(n+1)/2, the two sides
  // never touch the cell at the same time, and only an argument above 65535 makes the
  // server's sum overflow.
  lemma {:induction false} RunAnswers(calls: seq<int>, cell: int, run: seq<Side>)
    requires Exec(Step, Init(calls, cell), run).Some?
    ensures var s := Exec(Step, Init(calls, cell), run).value;
            && Answered(s)
            && !(ClientOnCell(s) && ServerOnCell(s))
            && (s.server == Undefined ==> |s.results| < |calls| && calls[|s.results|] > 65535)
  {
    RunInv(calls, cell, run);
  }

  // Steps of a call done so far: four of the client and four of the server.
  function Progress(s: State): int {
    match s.client
    case Write => 0
    case Post => 1
    case Wait =>
      (match s.server
       case Idle => if s.sema1 > 0 then 2 else 6
       case Load => 3
       case StoreSum(_) => 4
       case Reply => 5
       case Undefined => 4)
    case Read => 7
    case Done => 0
  }

  function Rank(s: State): int {
    8 * (|s.calls| - |s.results|) - Progress(s)
  }

  lemma {:induction false} StepRank(s: State, side: Side, calls: seq<int>)
    requires Inv(s, calls) && Step(s, side).Some?
    ensures Rank(Step(s, side).value) == Rank(s) - 1
  {
  }

  lemma {:induction false} RunRank(s: State, run: seq<Side>, calls: seq<int>)
    requires Inv(s, calls) && Exec(Step, s, run).Some?
    ensures Inv(Exec(Step, s, run).value, calls) && |run| + Rank(Exec(Step, s, run).value) == Rank(s)
    decreases |run|
  {
    if run != [] {
      StepInv(s, run[0], calls);
      StepRank(s, run[0], calls);
      RunRank(Step(s, run[0]).value, run[1..], calls);
    }
  }

  // Every run ends: eight steps for each call, when all are answered, and fewer otherwise.
  lemma {:induction false} RunEnds(calls: seq<int>, cell: int, run: seq<Side>)
    requires Exec(Step, Init(calls, cell), run).Some?
    ensures |run| <= 8 * |calls|
    ensures |run| == 8 * |calls| <==> Exec(Step, Init(calls, cell), run).value.client == Done
  {
    RunRank(Init(calls, cell), run, calls);
  }

  // A run that can go no further has answered every call if and only if all arguments are
  // at most 65535.
  lemma {:induction false} MaximalRunAnswersIffInRange(calls: seq<int>, cell: int, run: seq<Side>)
    requires Exec(Step, Init(calls, cell), run).Some?
    requires var s := Exec(Step, Init(calls, cell), run).value; forall side :: Step(s, side) == None
    ensures var s := Exec(Step, Init(calls, cell), run).value;
            && (s.client == Done <==> InRange(calls))
            && (s.client == Done ==> s.results == seq(|calls|, k requires 0 <= k < |calls| => Triangle(calls[k])))
  {
    RunInv(calls, cell, run);
    var s := Exec(Step, Init(calls, cell), run).value;
    assert Step(s, App) == None && Step(s, Rpc) == None;
    if s.client == Done {
      DoneInRange(calls, cell, run);
    } else {
      assert calls[|s.results|] in calls && calls[|s.results|] > 65535;
    }
  }

  // A call with a larger argument is never answered.
  predicate AnsweredInRange(s: State) {
    && |s.results| <= |s.calls|
    && (forall k :: 0 <= k < |s.results| ==> s.calls[k] <= 65535)
    && (s.client == Read || s.server.StoreSum? || s.server == Reply || (s.client == Wait && s.sema2 > 0) ==>
         |s.results| < |s.calls| && s.calls[|s.results|] <= 65535)
  }

  lemma {:induction false} DoneInRange(calls: seq<int>, cell: int, run: seq<Side>)
    requires Exec(Step, Init(calls, cell), run).Some?
    requires Exec(Step, Init(calls, cell), run).value.client == Done
    ensures InRange(calls)
  {
    var inv := s => Inv(s, calls) && AnsweredInRange(s);
    forall s, side | inv(s) && Step(s, side).Some? ensures inv(Step(s, side).value) {
      StepInv(s, side, calls);
      SumExact(s.cell);
    }
    Invariance(Step, inv, Init(calls, cell), run);
  }
}

// app.c and rpc.c as two programs on the shared cell and the semaphores, updated in place.
module SharedCallProgram {
  import opened Options
  import opened Runs
  import opened SharedCall

  class Machine {
    const calls: seq<int>
    var results: seq<int>
    var client: Client
    var server: Server
    var cell: int
    var sema1: int
    var sema2: int

    function Model(): State
      reads this
    {
      State(calls, results, client, server, cell, sema1, sema2)
    }

    constructor (calls: seq<int>, cell: int)
      ensures Model() == Init(calls, cell)
    {
      this.calls, results, this.cell, sema1, sema2 := calls, [], cell, 0, 0;
      client, server := NextCall(calls, []), Idle;
    }

    // One step of Calc, if it is not blocked.
    method RunApp() returns (done: bool)
      modifies this
      ensures done == Step(old(Model()), App).Some?
      ensures Model() == if done then Step(old(Model()), App).value else old(Model())
    {
      done := true;
      match client {
        case Write =>
          if |results| >= |calls| {
            return false;
          }
          cell, client := calls[|results|], Post;
        case Post => sema1, client := sema1 + 1, Wait;
        case Wait =>
          if sema2 <= 0 {
            return false;
          }
          sema2, client := sema2 - 1, Read;
        case Read =>
          results := results + [cell];
          client := NextCall(calls, results);
        case Done => done := false;
      }
    }

    // One step of the server's endless loop, if it is not blocked.
    method RunRpc() returns (done: bool)
      modifies this
      ensures done == Step(old(Model()), Rpc).Some?
      ensures Model() == if done then Step(old(Model()), Rpc).value else old(Model())
    {
      done := true;
      match server {
        case Idle =>
          if sema1 <= 0 {
            return false;
          }
          sema1, server := sema1 - 1, Load;
        case Load =>
          var sum := SumUpTo(cell);
          match sum {
            case Some(s) => server := StoreSum(s);
            case None => server := Undefined;
          }
        case StoreSum(sum) => cell, server := sum, Reply;
        case Reply => sema2, server := sema2 + 1, Idle;
        case Undefined => done := false;
      }
    }

    method Perform(side: Side) returns (done: bool)
      modifies this
      ensures done == Step(old(Model()), side).Some?
      ensures Model() == if done then Step(old(Model()), side).value else old(Model())
    {
      if side == App {
        done := RunApp();
      } else {
        done := RunRpc();
      }
    }

    // Runs whatever interleaving schedule asks for, skipping a side that is blocked.
    method Follow(schedule: seq<Side>, ghost start: State) returns (ghost run: seq<Side>)
      requires Inv(Model(), calls) && Model() == start
      modifies this
      ensures Inv(Model(), calls) && Exec(Step, start, run) == Some(Model())
      ensures run == Possible(Step, start, schedule)
    {
      for k := 0 to |schedule|
        invariant Inv(Model(), calls)
        invariant Exec(Step, start, Possible(Step, start, schedule[..k])) == Some(Model())
      {
        ghost var before := Model();
        PossibleNext(Step, start, schedule, k, before);
        var done := Perform(schedule[k]);
        if done {
          StepInv(before, schedule[k], calls);
        }
      }
      assert schedule[..|schedule|] == schedule;
      run := Possible(Step, start, schedule);
    }

    // Lets one side that is not blocked take a step.
    method StepSome() returns (done: bool, ghost side: Side)
      modifies this
      ensures done ==> Step(old(Model()), side) == Some(Model())
      ensures !done ==> Model() == old(Model()) && forall other :: Step(Model(), other) == None
    {
      side := App;
      done := Perform(App);
      if !done {
        side := Rpc;
        done := Perform(Rpc);
      }
    }

    // Runs on until both sides are done or blocked.
    method RunOn(ghost start: State, ghost begun: seq<Side>) returns (ghost run: seq<Side>)
      requires Inv(Model(), calls) && Exec(Step, start, begun) == Some(Model())
      modifies this
      ensures Exec(Step, start, run) == Some(Model())
      ensures forall side :: Step(Model(), side) == None
      ensures begun <= run
    {
      run := begun;
      var going := true;
      while going
        invariant Inv(Model(), calls) && Exec(Step, start, run) == Some(Model())
        invariant begun <= run
        invariant !going ==> forall side :: Step(Model(), side) == None
        decreases going, Rank(Model())
      {
        ghost var before, side := Model(), App;
        going, side := StepSome();
        if going {
          run := Extend(Step, start, run, before, side);
          StepInv(before, side, calls);
          StepRank(before, side, calls);
        }
      }
    }
  }

  // Client and server together, for any calls and any interleaving: all calls return, with
  // n(n+1)/2, exactly when every argument is at most 65535.
  method CallAll(calls: seq<int>, cell: int, schedule: seq<Side>)
    returns (m: Machine, ghost run: seq<Side>)
    ensures Exec(Step, Init(calls, cell), run) == Some(m.Model()) && Possible(Step, Init(calls, cell), schedule) <= run
    ensures fresh(m) && m.calls == calls && Answered(m.Model())
    ensures m.client == Done <==> InRange(calls)
    ensures m.client == Done ==> m.results == seq(|calls|, k requires 0 <= k < |calls| => Triangle(calls[k]))
  {
    m := new Machine(calls, cell);
    run := m.Follow(schedule, Init(calls, cell));
    run := m.RunOn(Init(calls, cell), run);
    RunAnswers(calls, cell, run);
    MaximalRunAnswersIffInRange(calls, cell, run);
  }
}

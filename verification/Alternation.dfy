// mipc.c over synclib.c: parent and child take turns on a shared counter, passing one
// token through two pipes. (*ptr)++ is a load and a store.
module Alternation {
  import opened Options
  import opened Runs
  import opened Sums

  datatype Side = Parent | Child

  // Failed is either exit(1): a counter mismatch or a wrong byte from the pipe.
  datatype Point = Load | Store | Tell | Wait | Done | Failed

  datatype Proc = Proc(at: Point, i: int, loaded: int)

  // pipe1 carries the parent's bytes to the child, pipe2 the child's to the parent.
  datatype State = State(loops: int, cell: int, pipe1: seq<char>, pipe2: seq<char>, parent: Proc, child: Proc)

  function Start(side: Side, i: int, loops: int): Proc {
    Proc(if i >= loops then Done else if side == Parent then Load else Wait, i, 0)
  }

  function Init(loops: int): State {
    State(loops, 0, [], [], Start(Parent, 0, loops), Start(Child, 1, loops))
  }

  function Step(s: State, side: Side): Option<State> {
    if side == Parent then
      var (cell, p) := Update(s.cell, s.parent);
      match s.parent.at
      case Done => None
      case Failed => None
      case Tell => Some(s.(pipe1 := s.pipe1 + ['p'], parent := s.parent.(at := Wait)))
      case Wait =>
        if s.pipe2 == [] then None
        else Some(s.(pipe2 := s.pipe2[1..],
                     parent := if s.pipe2[0] == 'c' then Start(Parent, s.parent.i + 2, s.loops)
                               else s.parent.(at := Failed)))
      case _ => Some(s.(cell := cell, parent := p))
    else
      var (cell, p) := Update(s.cell, s.child);
      match s.child.at
      case Done => None
      case Failed => None
      case Wait =>
        if s.pipe1 == [] then None
        else Some(s.(pipe1 := s.pipe1[1..], child := s.child.(at := if s.pipe1[0] == 'p' then Load else Failed)))
      case Tell => Some(s.(pipe2 := s.pipe2 + ['c'], child := Start(Child, s.child.i + 2, s.loops)))
      case _ => Some(s.(cell := cell, child := p))
  }

  // counter = update(area), then the mismatch test.
  function Update(cell: int, p: Proc): (int, Proc) {
    if p.at == Load then (cell, p.(at := Store, loaded := cell))
    else (p.loaded + 1, p.(at := if p.loaded == p.i then Tell else Failed))
  }

  predicate Running(p: Proc) {
    p.at == Load || p.at == Store || p.at == Tell
  }

  // Where the token is: with a running side, or a byte in a pipe.
  function Tokens(s: State): int {
    |s.pipe1| + |s.pipe2| + (if Running(s.parent) then 1 else 0) + (if Running(s.child) then 1 else 0)
  }

  // What a running side i has done to the cell so far.
  predicate Own(p: Proc, cell: int) {
    match p.at
    case Load => cell == p.i
    case Store => cell == p.i == p.loaded
    case Tell => cell == p.i + 1
    case _ => false
  }

  predicate Resting(s: State, p: Proc) {
    if p.i < s.loops then p.at == Wait else p.at == Done
  }

  // The four places of the token, and the end.
  predicate ParentHas(s: State) {
    && Own(s.parent, s.cell) && s.parent.i < s.loops && s.pipe1 == [] && s.pipe2 == []
    && s.child.i == s.parent.i + 1 && Resting(s, s.child)
  }

  predicate ByteForChild(s: State) {
    && s.parent.at == Wait && s.parent.i < s.loops && s.pipe1 == ['p'] && s.pipe2 == []
    && s.child.i == s.parent.i + 1 == s.cell && Resting(s, s.child)
  }

  predicate ChildHas(s: State) {
    && s.parent.at == Wait && s.pipe1 == [] && s.pipe2 == []
    && s.child.i == s.parent.i + 1 < s.loops && Own(s.child, s.cell)
  }

  predicate ByteForParent(s: State) {
    && s.parent.at == Wait && s.pipe1 == [] && s.pipe2 == ['c']
    && s.child.i == s.parent.i + 3 && s.cell == s.parent.i + 2 <= s.loops && Resting(s, s.child)
  }

  predicate Over(s: State) {
    && s.parent.at == Done && s.child.at == Done && s.pipe1 == [] && s.pipe2 == []
    && s.cell == s.parent.i == (if s.loops > 0 then s.loops else 0)
  }

  predicate Inv(s: State) {
    && (ParentHas(s) || ByteForChild(s) || ChildHas(s) || ByteForParent(s) || Over(s))
    && s.parent.i >= 0 && s.parent.i % 2 == 0
  }

  lemma {:induction false} StepInv(s: State, side: Side)
    requires Inv(s) && Step(s, side).Some?
    ensures Inv(Step(s, side).value)
    ensures Step(s, side).value.loops == s.loops
  {
  }

  // Progress: two for each count left, less what is done of the current turn.
  function Rank(s: State): int {
    Remaining(s, s.parent, Load) + Remaining(s, s.child, Wait)
  }

  function Remaining(s: State, p: Proc, first: Point): int {
    if p.at == Done then 0
    else 2 * (s.loops - p.i) + 2 - Ordinal(p.at, first)
  }

  function Ordinal(p: Point, first: Point): int {
    match p
    case Load => if first == Load then 0 else 1
    case Store => if first == Load then 1 else 2
    case Tell => if first == Load then 2 else 3
    case Wait => if first == Load then 3 else 0
    case _ => 4
  }

  function NoExtra(side: Side): int {
    0
  }

  lemma {:induction false} StepRank(s: State, side: Side)
    requires Inv(s) && Step(s, side).Some?
    ensures Rank(Step(s, side).value) + 1 <= Rank(s) + NoExtra(side)
  {
  }

  lemma {:induction false} RankIsNat(s: State)
    requires Inv(s)
    ensures Rank(s) >= 0
  {
  }

  ghost predicate InvFor(s: State, loops: int) {
    Inv(s) && s.loops == loops
  }

  lemma {:induction false} RunInv(loops: int, run: seq<Side>)
    requires Exec(Step, Init(loops), run).Some?
    ensures InvFor(Exec(Step, Init(loops), run).value, loops)
  {
    var inv := s => InvFor(s, loops);
    forall s, side | inv(s) && Step(s, side).Some? ensures inv(Step(s, side).value) {
      StepInv(s, side);
    }
    Invariance(Step, inv, Init(loops), run);
  }

  // Every reachable state: one token until the end, never both sides on the cell, no
  // mismatch and no wrong byte.
  lemma {:induction false} RunAlternates(loops: int, run: seq<Side>)
    requires Exec(Step, Init(loops), run).Some?
    ensures var s := Exec(Step, Init(loops), run).value;
            && s.parent.at != Failed && s.child.at != Failed
            && !(Running(s.parent) && Running(s.child))
            && (Tokens(s) == 1 || (s.parent.at == Done && s.child.at == Done && Tokens(s) == 0))
  {
    RunInv(loops, run);
  }

  // Every run ends.
  lemma {:induction false} RunEnds(loops: nat, run: seq<Side>)
    requires Exec(Step, Init(loops), run).Some?
    ensures |run| <= 4 * loops + 2
  {
    forall s | Inv(s) ensures Rank(s) >= 0 {
      RankIsNat(s);
    }
    forall s, side | Inv(s) && Step(s, side).Some?
      ensures Inv(Step(s, side).value) && Rank(Step(s, side).value) + 1 <= Rank(s) + NoExtra(side)
    {
      StepInv(s, side);
      StepRank(s, side);
    }
    Bounded(Step, Inv, Rank, NoExtra, Init(loops), run);
    AllZero(run, NoExtra);
  }

  // A run that can go no further has finished both loops, with the counter at NLOOPS, if
  // and only if NLOOPS is even; an odd NLOOPS leaves the parent waiting for a child that
  // is done.
  lemma {:induction false} MaximalRunFinishesIffEven(loops: nat, run: seq<Side>)
    requires Exec(Step, Init(loops), run).Some?
    requires var s := Exec(Step, Init(loops), run).value; forall side :: Step(s, side) == None
    ensures var s := Exec(Step, Init(loops), run).value;
            && s.cell == loops
            && s.child.at == Done
            && (s.parent.at == Done <==> loops % 2 == 0)
            && (s.parent.at == Wait <==> loops % 2 == 1)
  {
    RunInv(loops, run);
    var s := Exec(Step, Init(loops), run).value;
    assert Step(s, Parent) == None && Step(s, Child) == None;
  }
}

// mipc.c as a program over the mapped cell and the pipes, updated in place.
module AlternationProgram {
  import opened Options
  import opened Runs
  import opened Alternation

  class Machine {
    const loops: int
    var cell: int
    var pipe1: seq<char>
    var pipe2: seq<char>
    var parent: Proc
    var child: Proc

    function Model(): State
      reads this
    {
      State(loops, cell, pipe1, pipe2, parent, child)
    }

    constructor (loops: int)
      ensures Model() == Init(loops)
    {
      this.loops, cell, pipe1, pipe2 := loops, 0, [], [];
      parent, child := Start(Parent, 0, loops), Start(Child, 1, loops);
    }

    // Runs one step of a side that is not blocked, and changes nothing otherwise.
    method Perform(side: Side) returns (done: bool)
      modifies this
      ensures done == Step(old(Model()), side).Some?
      ensures Model() == if done then Step(old(Model()), side).value else old(Model())
    {
      if side == Parent {
        done := RunParent();
      } else {
        done := RunChild();
      }
    }

    method RunParent() returns (done: bool)
      modifies this
      ensures done == Step(old(Model()), Parent).Some?
      ensures Model() == if done then Step(old(Model()), Parent).value else old(Model())
    {
      done := true;
      match parent.at {
        case Done => done := false;
        case Failed => done := false;
        case Load => parent := parent.(at := Store, loaded := cell);
        case Store =>
          cell, parent := parent.loaded + 1, parent.(at := if parent.loaded == parent.i then Tell else Failed);
        case Tell => pipe1, parent := pipe1 + ['p'], parent.(at := Wait);
        case Wait =>
          if pipe2 == [] {
            return false;
          }
          parent := if pipe2[0] == 'c' then Start(Parent, parent.i + 2, loops) else parent.(at := Failed);
          pipe2 := pipe2[1..];
      }
    }

    method RunChild() returns (done: bool)
      modifies this
      ensures done == Step(old(Model()), Child).Some?
      ensures Model() == if done then Step(old(Model()), Child).value else old(Model())
    {
      done := true;
      match child.at {
        case Done => done := false;
        case Failed => done := false;
        case Load => child := child.(at := Store, loaded := cell);
        case Store =>
          cell, child := child.loaded + 1, child.(at := if child.loaded == child.i then Tell else Failed);
        case Tell => pipe2, child := pipe2 + ['c'], Start(Child, child.i + 2, loops);
        case Wait =>
          if pipe1 == [] {
            return false;
          }
          child := child.(at := if pipe1[0] == 'p' then Load else Failed);
          pipe1 := pipe1[1..];
      }
    }

    // Runs whatever interleaving schedule asks for, skipping a side that is blocked.
    method Follow(schedule: seq<Side>, ghost start: State) returns (ghost run: seq<Side>)
      requires Inv(Model()) && Model() == start
      modifies this
      ensures Inv(Model()) && Exec(Step, start, run) == Some(Model())
      ensures run == Possible(Step, start, schedule)
    {
      for k := 0 to |schedule|
        invariant Inv(Model())
        invariant Exec(Step, start, Possible(Step, start, schedule[..k])) == Some(Model())
      {
        ghost var before := Model();
        PossibleNext(Step, start, schedule, k, before);
        var done := Perform(schedule[k]);
        if done {
          StepInv(before, schedule[k]);
        }
      }
      assert schedule[..|schedule|] == schedule;
      run := Possible(Step, start, schedule);
    }

    // Lets one side that is not blocked take a step.
    method StepSome() returns (done: bool, ghost side: Side)
      modifies this
      ensures done ==> Step(old(Model()), side) == Some(Model())
      ensures !done ==> Model() == old(Model()) && forall other :: Step(Model(), other) == None
    {
      side := Parent;
      done := Perform(Parent);
      if !done {
        side := Child;
        done := Perform(Child);
      }
    }

    // Runs on until both sides are done or blocked.
    method RunOn(ghost start: State, ghost begun: seq<Side>) returns (ghost run: seq<Side>)
      requires Inv(Model()) && Exec(Step, start, begun) == Some(Model())
      modifies this
      ensures Exec(Step, start, run) == Some(Model())
      ensures forall side :: Step(Model(), side) == None
      ensures begun <= run
    {
      run := begun;
      var going := true;
      while going
        invariant Inv(Model()) && Exec(Step, start, run) == Some(Model())
        invariant begun <= run
        invariant !going ==> forall side :: Step(Model(), side) == None
        decreases going, Rank(Model())
      {
        ghost var before, side := Model(), Parent;
        RankIsNat(before);
        going, side := StepSome();
        if going {
          run := Extend(Step, start, run, before, side);
          StepInv(before, side);
          StepRank(before, side);
        }
      }
    }
  }

  // main of mipc.c, for any interleaving of parent and child: the cell ends at NLOOPS, and
  // the parent ends too exactly when NLOOPS is even.
  method CountTogether(loops: nat, schedule: seq<Side>) returns (m: Machine, ghost run: seq<Side>)
    ensures Exec(Step, Init(loops), run) == Some(m.Model()) && Possible(Step, Init(loops), schedule) <= run
    ensures fresh(m) && m.cell == loops && m.child.at == Done
    ensures if loops % 2 == 0 then m.parent.at == Done else m.parent.at == Wait
  {
    m := new Machine(loops);
    run := m.Follow(schedule, Init(loops));
    run := m.RunOn(Init(loops), run);
    MaximalRunFinishesIffEven(loops, run);
  }
}

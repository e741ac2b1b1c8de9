// chats.c as a program over its own tables, updated in place, with the kernel's connection
// table beside them.
module ChatProgram {
  import opened Options
  import opened Runs
  import opened Sums
  import opened ChatServer
  import opened ChatHistory
  import opened ChatInvariant
  import ChatSpec
  import ChatTheorems

  class Server {
    const listener: int
    const client: array<Slot>
    const sockIdx: array<int>
    var watched: set<int>
    var fdMax: int
    var cpyReads: set<int>
    var i: int
    // the kernel's side
    var conn: map<int, nat>
    var snapConn: map<int, nat>
    var inbox: seq<seq<string>>
    var history: seq<Event>
    var broken: bool

    ghost const Objects: set<object> := {this, client, sockIdx}

    ghost function Model(): World
      reads this, client, sockIdx
    {
      World(listener, client[..], sockIdx[..], watched, fdMax, cpyReads, i, conn, snapConn, inbox, history, broken)
    }

    constructor (listener: int, clients: nat, stack: seq<int>)
      requires 0 <= listener < |stack|
      ensures Model() == Init(listener, clients, stack) && fresh(Objects)
    {
      this.listener := listener;
      client := new Slot[clients](_ => Slot(0, false, false, ""));
      sockIdx := new int[|stack|](d requires 0 <= d < |stack| => stack[d]);
      watched, fdMax, cpyReads, i := {listener}, listener, {}, listener + 1;
      conn, snapConn, inbox, history, broken := map[], map[], [], [], false;
      new;
      assert client[..] == Init(listener, clients, stack).slots;
      assert sockIdx[..] == Init(listener, clients, stack).sockIdx;
    }

    // GetID takes the lowest free slot and leaves the others unchanged.
    method GetID() returns (id: nat)
      requires FirstFree(client[..]) < client.Length
      modifies client
      ensures id == FirstFree(old(client[..])) < client.Length
      ensures client[..] == old(client[..])[id := old(client[id]).(inUse := true)]
    {
      id := 0;
      while client[id].inUse
        invariant id < client.Length
        invariant FirstFree(client[..]) == id + FirstFree(client[id..])
        invariant FirstFree(client[..]) < client.Length
        decreases client.Length - id
      {
        assert client[id..][1..] == client[id + 1..];
        id := id + 1;
      }
      assert FirstFree(client[id..]) == 0;
      client[id] := client[id].(inUse := true);
    }

    method SendToOtherClients(id: int, msg: string)
      modifies this`inbox, this`broken
      ensures Model() == SendFrom(old(Model()), 0, id, msg)
    {
      for k := 0 to client.Length
        invariant SendFrom(Model(), k, id, msg) == SendFrom(old(Model()), 0, id, msg)
      {
        if client[k].inUse && k != id {
          var fd := client[k].sockfd;
          if fd in conn && conn[fd] < |inbox| {
            inbox := inbox[conn[fd] := inbox[conn[fd]] + [msg]];
          } else {
            broken := true;
          }
        }
      }
    }

    method TakeSlot(newFd: int)
      requires 0 <= newFd < sockIdx.Length && FirstFree(client[..]) < client.Length
      modifies client, sockIdx
      ensures var id := FirstFree(old(client[..]));
              && client[..] == old(client[..])[id := old(client[id]).(inUse := true, sockfd := newFd, first := false)]
              && sockIdx[..] == old(sockIdx[..])[newFd := id]
    {
      var id := GetID();
      sockIdx[newFd] := id;
      client[id] := client[id].(sockfd := newFd, first := false);
    }

    method AcceptClient(newFd: int)
      requires CanAccept(Model(), newFd)
      modifies Objects
      ensures Model() == Accept(old(Model()), newFd)
    {
      watched := watched + {newFd};
      if fdMax < newFd {
        fdMax := newFd;
      }
      TakeSlot(newFd);
      conn, inbox, history := conn[newFd := |inbox|], inbox + [[]], history + [Opened(|inbox|)];
    }

    method Process(id: int, received: Recv)
      modifies Objects
      ensures Model() == ProcessClient(old(Model()), id, received) && i == old(i)
    {
      if !(0 <= id < client.Length) || client[id].sockfd !in conn {
        broken := true;
        return;
      }
      var who, c := conn[client[id].sockfd], client[id];
      if !c.first {
        match received {
          case Data(text) => client[id] := c.(first := true, uid := text);
          case Closed => client[id] := c.(first := true);
        }
        history := history + [Named(who, client[id].uid)];
        assert client[..] == old(client[..])[id := client[id]];
      } else {
        var text := LOGOUT;
        match received {
          case Data(line) =>
            text := line;
            history := history + [Said(who, Message(c, text))];
          case Closed =>
            watched, conn := watched - {c.sockfd}, conn - {c.sockfd};
            client[id] := c.(inUse := false);
            history := history + [Left(who, Message(c, text))];
            assert client[..] == old(client[..])[id := client[id]];
        }
        SendToOtherClients(id, Message(c, text));
      }
    }

    // One turn of the for loop. done is false, and nothing happens, if accept's answer is
    // not what the code takes for granted.
    method VisitOne(newFd: int, received: Recv) returns (done: bool)
      requires i <= fdMax
      modifies Objects
      ensures done == Step(old(Model()), Visit(newFd, received)).Some?
      ensures Model() == if done then Step(old(Model()), Visit(newFd, received)).value else old(Model())
    {
      done := true;
      if i in cpyReads {
        if i == listener {
          var slots := client[..];
          if !(0 <= newFd < sockIdx.Length && newFd != listener && newFd !in conn && FirstFree(slots) < client.Length) {
            return false;
          }
          AcceptClient(newFd);
        } else if !(0 <= i < sockIdx.Length) {
          broken := true;
          return;
        } else {
          Process(sockIdx[i], received);
        }
      }
      i := i + 1;
    }

    // The for loop over the snapshot, up to the current fd_max. The answers of accept and recv
    // at descriptor d are answers[d].
    method VisitAll(answers: seq<(int, Recv)>, ghost start: World, ghost begun: seq<Input>)
      returns (complete: bool, ghost run: seq<Input>)
      requires i == 0 && Inv(Model()) && sockIdx.Length == |answers| && Exec(Step, start, begun) == Some(Model())
      modifies Objects
      ensures Exec(Step, start, run) == Some(Model()) && Inv(Model())
      ensures 0 <= i <= |answers| && run == begun + Visits(answers[..i])
      ensures if complete then i > fdMax else Refuses(Model(), answers)
    {
      run := begun;
      assert run == begun + Visits(answers[..0]);
      while i < fdMax + 1
        invariant Inv(Model()) && 0 <= i <= |answers| && Exec(Step, start, run) == Some(Model())
        invariant run == begun + Visits(answers[..i])
        decreases sockIdx.Length - i
      {
        ghost var before := Model();
        var (newFd, received) := answers[i];
        var done := VisitOne(newFd, received);
        if !done {
          return false, run;
        }
        VisitsSnoc(answers, before.i);
        run := Extend(Step, start, run, before, Visit(newFd, received));
        StepInv(before, Visit(newFd, received));
      }
      complete := true;
    }

    // One pass of the while loop: select, then the for loop.
    method Pass(ready: set<int>, answers: seq<(int, Recv)>) returns (complete: bool, ghost run: seq<Input>)
      requires i > fdMax && ready <= watched && Inv(Model()) && sockIdx.Length == |answers|
      modifies Objects
      ensures Exec(Step, old(Model()), run) == Some(Model()) && Inv(Model())
      ensures 0 <= i <= |answers| && run == [Select(ready)] + Visits(answers[..i])
      ensures if complete then i > fdMax else Refuses(Model(), answers)
    {
      ghost var start := Model();
      cpyReads, i, snapConn := ready, 0, conn;
      assert Step(start, Select(ready)) == Some(Model());
      run := Extend(Step, start, [], start, Select(ready));
      StepInv(start, Select(ready));
      complete, run := VisitAll(answers, start, run);
    }
  }

  // The visits of descriptors 0, 1, and so on.
  function Visits(answers: seq<(int, Recv)>): (r: seq<Input>)
    ensures |r| == |answers| && forall d :: 0 <= d < |r| ==> r[d] == Visit(answers[d].0, answers[d].1)
  {
    seq(|answers|, d requires 0 <= d < |answers| => Visit(answers[d].0, answers[d].1))
  }

  lemma {:induction false} VisitsSnoc(answers: seq<(int, Recv)>, d: nat)
    requires d < |answers|
    ensures Visits(answers[..d + 1]) == Visits(answers[..d]) + [Visit(answers[d].0, answers[d].1)]
  {
  }

  // The server stands at a listener with an answer of accept it takes for granted not to get.
  ghost predicate Refuses(w: World, answers: seq<(int, Recv)>) {
    0 <= w.i <= w.fdMax && w.i < |answers| && Step(w, Visit(answers[w.i].0, answers[w.i].1)) == None
  }

  function Selected(a: Input): seq<set<int>> {
    if a.Select? then [a.ready] else []
  }

  lemma {:induction false} PassSelects(ready: set<int>, answers: seq<(int, Recv)>)
    ensures Gather([Select(ready)] + Visits(answers), Selected) == [ready]
  {
    GatherNothing(Visits(answers), Selected);
    assert ([Select(ready)] + Visits(answers))[1..] == Visits(answers);
  }

  // Why the passes asked for can end early: select reports what is not watched, or accept
  // answers what the code takes for granted not to get.
  ghost predicate CutShort(w: World, passes: seq<(set<int>, seq<(int, Recv)>)>, served: nat) {
    || (served < |passes| && w.i > w.fdMax
        && !(passes[served].0 <= w.watched && |passes[served].1| == |w.sockIdx|))
    || (0 < served <= |passes| && Refuses(w, passes[served - 1].1))
  }

  function Readies(passes: seq<(set<int>, seq<(int, Recv)>)>): seq<set<int>> {
    seq(|passes|, p requires 0 <= p < |passes| => passes[p].0)
  }

  // run leads from start to w and consists of the first passes, in order.
  ghost predicate Served(start: World, w: World, passes: seq<(set<int>, seq<(int, Recv)>)>, run: seq<Input>) {
    Exec(Step, start, run) == Some(w) && Inv(w) && Gather(run, Selected) == Readies(passes)
  }

  lemma {:induction false} ServedOneMore(start: World, w: World, passes: seq<(set<int>, seq<(int, Recv)>)>, p: nat,
                                         run: seq<Input>, next: World, answers: seq<(int, Recv)>)
    requires p < |passes| && Served(start, w, passes[..p], run) && Inv(next)
    requires Exec(Step, w, [Select(passes[p].0)] + Visits(answers)) == Some(next)
    ensures Served(start, next, passes[..p + 1], run + ([Select(passes[p].0)] + Visits(answers)))
  {
    var more := [Select(passes[p].0)] + Visits(answers);
    ExecConcat(Step, start, run, more);
    PassSelects(passes[p].0, answers);
    GatherConcat(run, more, Selected);
    assert Readies(passes[..p + 1]) == Readies(passes[..p]) + [passes[p].0];
  }

  // main, for as many passes as the environment provides: whatever clients connect, say and
  // leave, every session has been sent exactly what it should have heard, and the history is
  // what the inputs call for. run is what happened, select by select.
  method Serve(listener: int, clients: nat, stack: seq<int>, passes: seq<(set<int>, seq<(int, Recv)>)>)
    returns (server: Server, served: nat, ghost run: seq<Input>)
    requires 0 <= listener < |stack|
    ensures fresh(server.Objects) && served <= |passes|
    ensures Served(Init(listener, clients, stack), server.Model(), passes[..served], run)
    ensures served == |passes| || CutShort(server.Model(), passes, served)
    ensures forall s: nat :: s < |server.inbox| ==> ChatTheorems.TotallyOrderedDelivery(server.Model(), s)
    ensures Exec(ChatSpec.SpecStep, ChatSpec.SpecInit(listener),
                 Trace(Step, ChatSpec.Observe, Init(listener, clients, stack), run)) ==
            Some(ChatSpec.Abs(server.Model()))
  {
    server := new Server(listener, clients, stack);
    InitInv(listener, clients, stack);
    served, run := 0, [];
    ghost var start := server.Model();
    var complete := true;
    while served < |passes| && complete
      invariant served <= |passes| && fresh(server.Objects)
      invariant Served(start, server.Model(), passes[..served], run)
      invariant if complete then server.i > server.fdMax else CutShort(server.Model(), passes, served)
      decreases |passes| - served
    {
      var (ready, answers) := passes[served];
      if !(ready <= server.watched && |answers| == server.sockIdx.Length) {
        break;
      }
      ghost var before, more := server.Model(), [];
      complete, more := server.Pass(ready, answers);
      ServedOneMore(start, before, passes, served, run, server.Model(), answers[..server.i]);
      run := run + more;
      served := served + 1;
    }
    ChatTheorems.RunDelivers(listener, clients, stack, run);
  }
}

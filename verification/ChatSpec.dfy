// The chat server as its clients see it: no slots, no sockIdx and no sets of descriptors, names
// looked up in the history. Every run of chats.c is a run of this one, input for input.
module ChatSpec {
  import opened Options
  import opened Runs
  import opened ChatServer
  import opened ChatHistory
  import opened ChatInvariant

  // snap is who was connected when select returned; next is the descriptor the pass is at and
  // top the highest one ever watched.
  datatype Spec = Spec(listener: int, conn: map<int, nat>, snap: map<int, nat>, accepted: nat,
                       ready: set<int>, next: int, top: int, history: seq<Event>)

  // An input, and what the name buffer of the slot holds, which is what a client is called
  // that closes before it has sent a name.
  datatype Observed = Observed(input: Input, leftover: string)

  function SpecInit(listener: int): Spec {
    Spec(listener, map[], map[], 0, {}, listener + 1, listener, [])
  }

  // The name a session gave.
  function NameOf(who: nat, h: seq<Event>): Option<string> {
    if h == [] then None
    else
      match h[|h| - 1]
      case Named(w, uid) => if w == who then Some(uid) else NameOf(who, h[..|h| - 1])
      case _ => NameOf(who, h[..|h| - 1])
  }

  // What the input of a session makes the server record: its name the first time, and then
  // its lines under that name, and its logout.
  function Recorded(who: nat, name: Option<string>, received: Recv, leftover: string): Event {
    match (name, received)
    case (None, Data(text)) => Named(who, text)
    case (None, Closed) => Named(who, leftover)
    case (Some(uid), Data(text)) => Said(who, uid + "> " + text)
    case (Some(uid), Closed) => Left(who, uid + "> " + "log-out.....\n")
  }

  function SpecStep(p: Spec, o: Observed): Option<Spec> {
    match o.input
    case Select(ready) =>
      if p.next > p.top && ready <= p.conn.Keys + {p.listener}
      then Some(p.(ready := ready, next := 0, snap := p.conn)) else None
    case Visit(newFd, received) =>
      if p.next > p.top then None
      else if p.next !in p.ready then Some(p.(next := p.next + 1))
      else if p.next == p.listener then
        if newFd < 0 || newFd == p.listener || newFd in p.conn then None
        else Some(p.(conn := p.conn[newFd := p.accepted], accepted := p.accepted + 1, next := p.next + 1,
                     top := if newFd > p.top then newFd else p.top, history := p.history + [Opened(p.accepted)]))
      else if p.next !in p.snap then None
      else
        var e := Recorded(p.snap[p.next], NameOf(p.snap[p.next], p.history), received, o.leftover);
        Some(p.(conn := if e.Left? then p.conn - {p.next} else p.conn, next := p.next + 1, history := p.history + [e]))
  }

  function Abs(w: World): Spec {
    Spec(w.listener, w.conn, w.snapConn, |w.inbox|, w.cpyReads, w.i, w.fdMax, w.history)
  }

  function Leftover(w: World): string {
    if 0 <= w.i < |w.sockIdx| && 0 <= w.sockIdx[w.i] < |w.slots| then w.slots[w.sockIdx[w.i]].uid else ""
  }

  function Observe(w: World, a: Input): seq<Observed> {
    [Observed(a, Leftover(w))]
  }

  lemma {:induction false} NameIsGiven(who: nat, uid: string, h: seq<Event>)
    requires Signed(h) && Named(who, uid) in h
    ensures NameOf(who, h) == Some(uid)
  {
    var before, e := h[..|h| - 1], h[|h| - 1];
    forall p: nat | p < |before| ensures before[p] == h[p] && before[..p] == h[..p] {
    }
    assert SignedBy(e, before);
    if e != Named(who, uid) {
      assert Named(who, uid) in before;
      NameIsGiven(who, uid, before);
    }
  }

  lemma {:induction false} NoNameGiven(who: nat, h: seq<Event>)
    requires Unnamed(who, h)
    ensures NameOf(who, h) == None
  {
    if h != [] {
      var before, e := h[..|h| - 1], h[|h| - 1];
      assert forall x :: x in before ==> x in h;
      assert e in h;
      NoNameGiven(who, before);
    }
  }

  // The slot knows the name.
  lemma {:induction false} SlotKnowsName(w: World, id: nat)
    requires Inv(w) && id < |w.slots| && w.slots[id].inUse
    ensures w.slots[id].sockfd in w.conn
    ensures NameOf(w.conn[w.slots[id].sockfd], w.history) ==
            if w.slots[id].first then Some(w.slots[id].uid) else None
  {
    var s := w.conn[w.slots[id].sockfd];
    if w.slots[id].first {
      NameIsGiven(s, w.slots[id].uid, w.history);
    } else {
      NoNameGiven(s, w.history);
    }
  }

  // One visit of a ready client: the event recorded is the one the client's input calls for.
  ghost predicate Answers(w: World, received: Recv, n: World) {
    w.i in w.snapConn &&
    var e := Recorded(w.snapConn[w.i], NameOf(w.snapConn[w.i], w.history), received, Leftover(w));
    && n.history == w.history + [e]
    && n.conn == (if e.Left? then w.conn - {w.i} else w.conn)
    && n == w.(history := n.history, conn := n.conn, inbox := n.inbox, slots := n.slots, watched := n.watched)
    && |n.inbox| == |w.inbox|
  }

  lemma {:induction false} LoginAnswers(w: World, id: nat, received: Recv)
    requires Inv(w) && w.i in w.snapConn && 0 <= w.i < |w.sockIdx| && id == w.sockIdx[w.i] < |w.slots|
    requires w.slots[id].inUse && w.slots[id].sockfd == w.i && w.i in w.conn && w.conn[w.i] == w.snapConn[w.i]
    requires !w.slots[id].first
    ensures Answers(w, received, ProcessClient(w, id, received))
  {
    SlotKnowsName(w, id);
    LoginTable(w, id, received);
  }

  lemma {:induction false} SaidAnswers(w: World, id: nat, text: string)
    requires Inv(w) && w.i in w.snapConn && 0 <= w.i < |w.sockIdx| && id == w.sockIdx[w.i] < |w.slots|
    requires w.slots[id].inUse && w.slots[id].sockfd == w.i && w.i in w.conn && w.conn[w.i] == w.snapConn[w.i]
    requires w.slots[id].first
    ensures Answers(w, Data(text), ProcessClient(w, id, Data(text)))
  {
    SlotKnowsName(w, id);
    SaidBroadcast(w, id, text);
  }

  lemma {:induction false} LeftAnswers(w: World, id: nat)
    requires Inv(w) && w.i in w.snapConn && 0 <= w.i < |w.sockIdx| && id == w.sockIdx[w.i] < |w.slots|
    requires w.slots[id].inUse && w.slots[id].sockfd == w.i && w.i in w.conn && w.conn[w.i] == w.snapConn[w.i]
    requires w.slots[id].first
    ensures Answers(w, Closed, ProcessClient(w, id, Closed))
  {
    SlotKnowsName(w, id);
    LeftBroadcast(w, id);
  }

  lemma {:induction false} ClientAnswers(w: World, received: Recv)
    requires Inv(w) && w.i in w.cpyReads && w.i != w.listener && 0 <= w.i < |w.sockIdx|
    ensures Answers(w, received, ProcessClient(w, w.sockIdx[w.i], received))
  {
    VisitFindsOwner(w);
    var id := w.sockIdx[w.i];
    if !w.slots[id].first {
      LoginAnswers(w, id, received);
    } else {
      match received
      case Data(text) => SaidAnswers(w, id, text);
      case Closed => LeftAnswers(w, id);
    }
  }

  lemma {:induction false} VisitRefines(w: World, a: Input)
    requires Inv(w) && a.Visit? && Step(w, a).Some? && w.i in w.cpyReads && w.i != w.listener
    ensures SpecStep(Abs(w), Observe(w, a)[0]) == Some(Abs(Step(w, a).value))
  {
    VisitFindsOwner(w);
    ClientAnswers(w, a.received);
    assert Step(w, a).value == ProcessClient(w, w.sockIdx[w.i], a.received).(i := w.i + 1);
  }

  lemma {:induction false} StepRefines(w: World, a: Input)
    requires Inv(w) && Step(w, a).Some?
    ensures SpecStep(Abs(w), Observe(w, a)[0]) == Some(Abs(Step(w, a).value))
  {
    if a.Select? {
      WatchedIs(w);
    } else if w.i in w.cpyReads && w.i != w.listener {
      VisitRefines(w, a);
    }
  }

  lemma {:induction false} WatchedIs(w: World)
    requires Table(w)
    ensures w.watched == w.conn.Keys + {w.listener}
  {
    forall d ensures d in w.watched <==> d in w.conn.Keys + {w.listener} {
    }
    Extensional(w.watched, w.conn.Keys + {w.listener});
  }

  lemma {:induction false} Extensional<T>(a: set<T>, b: set<T>)
    requires forall x :: x in a <==> x in b
    ensures a == b
  {
  }

  lemma {:induction false} Member<T>(a: set<T>) returns (x: T)
    requires |a| > 0
    ensures x in a
  {
    x :| x in a;
  }

  // Nothing but the room in the tables keeps the server from an input that its clients can
  // bring: accept needs a slot and a descriptor that fits sockIdx.
  lemma {:induction false} StepEnabledIff(w: World, a: Input)
    requires Inv(w)
    ensures Step(w, a).Some? <==>
            && SpecStep(Abs(w), Observe(w, a)[0]).Some?
            && (a.Visit? && w.i in w.cpyReads && w.i == w.listener ==>
                  a.newFd < |w.sockIdx| && |w.conn| < |w.slots|)
  {
    SlotFreeIff(w);
    WatchedIs(w);
    if a.Visit? && w.i <= w.fdMax && w.i in w.cpyReads && w.i != w.listener {
      VisitFindsOwner(w);
    }
  }

  // A slot is free exactly if fewer sessions are online than there are slots.
  lemma {:induction false} SlotFreeIff(w: World)
    requires Inv(w)
    ensures FirstFree(w.slots) < |w.slots| <==> |w.conn| < |w.slots|
  {
    var used := set k | 0 <= k < |w.slots| && w.slots[k].inUse;
    forall k | k in used ensures exists d :: d in w.conn.Keys && w.sockIdx[d] == k {
      assert w.slots[k].sockfd in w.conn.Keys;
    }
    SameSize(w.conn.Keys, w.sockIdx, used);
    var every := Below(|w.slots|);
    if FirstFree(w.slots) < |w.slots| {
      assert FirstFree(w.slots) in every && FirstFree(w.slots) !in used;
      Smaller(used, every, FirstFree(w.slots));
    } else {
      assert used == every;
    }
  }

  function Below(n: nat): (r: set<int>)
    ensures |r| == n && forall k :: k in r <==> 0 <= k < n
  {
    if n == 0 then {} else Below(n - 1) + {n - 1}
  }

  lemma {:induction false} Smaller(a: set<int>, b: set<int>, x: int)
    requires a <= b && x in b && x !in a
    ensures |a| < |b|
    decreases |a|
  {
    if |a| > 0 {
      var y := Member(a);
      Smaller(a - {y}, b - {y}, x);
    }
  }

  // A table that is one-to-one from some descriptors onto some slots counts as many of each.
  lemma {:induction false} SameSize(fds: set<int>, idx: seq<int>, ids: set<int>)
    requires forall d :: d in fds ==> 0 <= d < |idx| && idx[d] in ids
    requires forall d, e :: d in fds && e in fds && idx[d] == idx[e] ==> d == e
    requires forall k :: k in ids ==> exists d :: d in fds && idx[d] == k
    ensures |fds| == |ids|
    decreases |fds|
  {
    if |fds| == 0 {
      if |ids| > 0 {
        var k := Member(ids);
        assert false;
      }
    } else {
      var d := Member(fds);
      forall k | k in ids - {idx[d]} ensures exists e :: e in fds - {d} && idx[e] == k {
        var e :| e in fds && idx[e] == k;
        assert e in fds - {d};
      }
      SameSize(fds - {d}, idx, ids - {idx[d]});
    }
  }

  // Whole runs: the events are exactly those the inputs call for.
  lemma {:induction false} RunFollowsSpec(listener: int, clients: nat, stack: seq<int>, run: seq<Input>)
    requires 0 <= listener < |stack| && Exec(Step, Init(listener, clients, stack), run).Some?
    ensures Exec(SpecStep, SpecInit(listener), Trace(Step, Observe, Init(listener, clients, stack), run))
         == Some(Abs(Exec(Step, Init(listener, clients, stack), run).value))
  {
    InitInv(listener, clients, stack);
    IsInductive();
    forall w, a | Inv(w) && Step(w, a).Some?
      ensures Exec(SpecStep, Abs(w), Observe(w, a)) == Some(Abs(Step(w, a).value))
    {
      StepRefines(w, a);
      assert Observe(w, a)[1..] == [];
    }
    Simulation(Step, Inv, SpecStep, Abs, Observe, Init(listener, clients, stack), run);
  }
}

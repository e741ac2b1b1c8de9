// What every step of the chat server keeps: the tables agree, the stale snapshot is safe,
// and every session has been sent exactly what it should have heard.
module ChatInvariant {
  import opened Options
  import opened Runs
  import opened ChatServer
  import opened ChatHistory

  // Client[], sockIdx, reads, fd_max and the kernel's open connections agree: reads is the
  // listening socket plus the sockets of the slots in use, and sockIdx inverts sockfd on
  // those slots, so the sockets are pairwise distinct.
  ghost predicate Table(w: World) {
    && 0 <= w.listener <= w.fdMax < |w.sockIdx|
    && w.listener in w.watched
    && (forall k: nat :: k < |w.slots| && w.slots[k].inUse ==>
          var d := w.slots[k].sockfd;
          0 <= d <= w.fdMax && d != w.listener && d in w.watched && w.sockIdx[d] == k)
    && (forall d :: d in w.watched && d != w.listener ==>
          && 0 <= d <= w.fdMax && 0 <= w.sockIdx[d] < |w.slots|
          && w.slots[w.sockIdx[d]].inUse && w.slots[w.sockIdx[d]].sockfd == d)
    && (forall d :: d in w.conn <==> d in w.watched && d != w.listener)
  }

  // Every ready descriptor not visited yet is still open, and is the connection it was when
  // select returned, whatever was closed, accepted and renumbered since.
  ghost predicate Snapshot(w: World) {
    forall d :: d in w.cpyReads && d >= w.i ==>
      d in w.watched && (d in w.conn ==> d in w.snapConn && w.conn[d] == w.snapConn[d])
  }

  // One descriptor for each session.
  ghost predicate Sessions(w: World) {
    && (forall d :: d in w.conn ==> w.conn[d] < |w.inbox|)
    && (forall d, e :: d in w.conn && e in w.conn && w.conn[d] == w.conn[e] ==> d == e)
  }

  ghost predicate Online(w: World, s: nat) {
    exists d :: d in w.conn && w.conn[d] == s
  }

  ghost predicate Delivered(w: World) {
    && (forall s: nat :: s < |w.inbox| ==> w.inbox[s] == Heard(s, w.history))
    && (forall s: nat :: Live(s, w.history) <==> Online(w, s))
    && (forall e :: e in w.history ==> e.who < |w.inbox|)
    && Orderly(w.history)
  }

  // Every slot in use knows whether its session has been named, and by which name.
  ghost predicate Names(w: World) {
    && Signed(w.history)
    && forall k: nat :: k < |w.slots| && w.slots[k].inUse && w.slots[k].sockfd in w.conn ==>
         var s := w.conn[w.slots[k].sockfd];
         if w.slots[k].first then Named(s, w.slots[k].uid) in w.history else Unnamed(s, w.history)
  }

  ghost predicate Inv(w: World) {
    !w.broken && Table(w) && Snapshot(w) && Sessions(w) && Delivered(w) && Names(w)
  }

  // ---- SendToOtherClients

  ghost predicate Routed(w: World) {
    && (forall k: nat :: k < |w.slots| && w.slots[k].inUse ==>
          w.slots[k].sockfd in w.conn && w.conn[w.slots[k].sockfd] < |w.inbox|)
    && (forall k: nat, l: nat :: k < l < |w.slots| && w.slots[k].inUse && w.slots[l].inUse ==>
          w.conn[w.slots[k].sockfd] != w.conn[w.slots[l].sockfd])
  }

  ghost predicate Target(w: World, k: nat, id: int, s: nat)
    requires Routed(w)
  {
    exists j: nat :: k <= j < |w.slots| && w.slots[j].inUse && j != id && w.conn[w.slots[j].sockfd] == s
  }

  // The loop sends msg once to each session it should reach, and touches nothing else.
  lemma {:induction false} SendFromEffect(w: World, k: nat, id: int, msg: string)
    requires Routed(w)
    ensures var n := SendFrom(w, k, id, msg);
            && n == w.(inbox := n.inbox) && |n.inbox| == |w.inbox|
            && forall s: nat :: s < |w.inbox| ==>
                 n.inbox[s] == if Target(w, k, id, s) then w.inbox[s] + [msg] else w.inbox[s]
    decreases |w.slots| - k
  {
    if k < |w.slots| {
      if w.slots[k].inUse && k != id {
        var sent := Send(w, w.slots[k].sockfd, msg);
        SendFromEffect(sent, k + 1, id, msg);
        forall s: nat | s < |w.inbox|
          ensures Target(w, k, id, s) <==> Target(sent, k + 1, id, s) || s == w.conn[w.slots[k].sockfd]
        {
          TargetStep(w, k, id, s);
        }
        assert !Target(sent, k + 1, id, w.conn[w.slots[k].sockfd]);
      } else {
        SendFromEffect(w, k + 1, id, msg);
        forall s: nat | s < |w.inbox| ensures Target(w, k, id, s) <==> Target(w, k + 1, id, s) {
          TargetStep(w, k, id, s);
        }
      }
    }
  }

  lemma {:induction false} TargetStep(w: World, k: nat, id: int, s: nat)
    requires Routed(w) && k < |w.slots|
    ensures Target(w, k, id, s) <==>
            Target(w, k + 1, id, s) || (w.slots[k].inUse && k != id && w.conn[w.slots[k].sockfd] == s)
  {
  }

  lemma {:induction false} TableRoutes(w: World)
    requires Table(w) && Sessions(w)
    ensures Routed(w)
  {
  }

  // Everyone online but the sender is reached.
  lemma {:induction false} TargetsAreOthers(w: World, id: int, s: nat)
    requires Table(w) && Sessions(w)
    ensures Routed(w)
    ensures Target(w, 0, id, s) <==>
            Online(w, s) && !(0 <= id < |w.slots| && w.slots[id].inUse && w.conn[w.slots[id].sockfd] == s)
  {
  }

  // ---- the steps

  lemma {:induction false} SelectInv(w: World, a: Input)
    requires Inv(w) && a.Select? && Step(w, a).Some?
    ensures Inv(Step(w, a).value)
  {
  }

  lemma {:induction false} AcceptTable(w: World, fd: int)
    requires Inv(w) && CanAccept(w, fd)
    ensures Table(Accept(w, fd)) && Sessions(Accept(w, fd))
  {
  }

  lemma {:induction false} AcceptDelivered(w: World, fd: int)
    requires Inv(w) && CanAccept(w, fd)
    ensures Delivered(Accept(w, fd))
  {
    var n := Accept(w, fd);
    var new_ := |w.inbox|;
    var e := Opened(new_);
    forall s: nat ensures Live(s, n.history) <==> Online(n, s) {
      HeardSnoc(s, w.history, e);
      if s == new_ {
        assert n.conn[fd] == s;
      } else if Online(w, s) {
        var d :| d in w.conn && w.conn[d] == s;
        assert d in n.conn && n.conn[d] == s;
      }
    }
    forall s: nat | s < |n.inbox| ensures n.inbox[s] == Heard(s, n.history) {
      HeardSnoc(s, w.history, e);
      if s == new_ {
        NothingBeforeOpened(s, w.history);
      }
    }
    OrderlySnoc(w.history, e);
  }

  lemma {:induction false} NothingBeforeOpened(s: nat, h: seq<Event>)
    requires forall e :: e in h ==> e.who != s
    ensures Heard(s, h) == [] && !Live(s, h)
  {
    if h != [] {
      assert forall e :: e in h[..|h| - 1] ==> e in h;
      NothingBeforeOpened(s, h[..|h| - 1]);
      assert h[|h| - 1] in h;
    }
  }

  lemma {:induction false} OrderlySnoc(h: seq<Event>, e: Event)
    requires Orderly(h)
    requires if e.Opened? then forall x :: x in h ==> x.who != e.who else Live(e.who, h)
    ensures Orderly(h + [e])
  {
    forall p: nat | p < |h| + 1 ensures (h + [e])[..p] == h[..p] && (p < |h| ==> (h + [e])[p] == h[p]) {
    }
    assert h[..|h|] == h;
  }

  lemma {:induction false} AcceptInv(w: World, fd: int)
    requires Inv(w) && CanAccept(w, fd) && w.i == w.listener
    ensures Inv(Accept(w, fd).(i := w.i + 1))
  {
    AcceptTable(w, fd);
    AcceptDelivered(w, fd);
    AcceptNames(w, fd);
    OnlyIndex(Accept(w, fd), w.i + 1);
  }

  lemma {:induction false} AcceptNames(w: World, fd: int)
    requires Inv(w) && CanAccept(w, fd)
    ensures Names(Accept(w, fd))
  {
    SignedSnoc(w.history, Opened(|w.inbox|));
    assert Unnamed(|w.inbox|, w.history);
  }

  // An event that names nobody leaves the names as they are.
  lemma {:induction false} NamesKept(w: World, n: World, e: Event)
    requires Names(w) && n.history == w.history + [e] && !e.Named? && SignedBy(e, w.history)
    requires |n.slots| == |w.slots|
    requires forall k: nat :: k < |n.slots| && n.slots[k].inUse && n.slots[k].sockfd in n.conn ==>
               n.slots[k] == w.slots[k] && n.slots[k].sockfd in w.conn
               && n.conn[n.slots[k].sockfd] == w.conn[n.slots[k].sockfd]
    ensures Names(n)
  {
    SignedSnoc(w.history, e);
  }

  // Moving the loop index on changes nothing but what is left to visit.
  lemma {:induction false} OnlyIndex(w: World, i: int)
    ensures var n := w.(i := i);
            && (Table(w) ==> Table(n)) && (Sessions(w) ==> Sessions(n)) && (Delivered(w) ==> Delivered(n))
            && (Names(w) ==> Names(n))
  {
  }

  // Event e is about to be broadcast from the session of slot id: a message, with the
  // session still there, or a logout, with its slot and descriptor just given up.
  ghost predicate Announces(w: World, id: int, e: Event) {
    && Table(w) && Sessions(w) && 0 <= id < |w.slots|
    && (e.Said? || e.Left?) && e.who < |w.inbox| && Live(e.who, w.history)
    && (forall s: nat :: s != e.who ==> (Live(s, w.history) <==> Online(w, s)))
    && (if e.Said? then w.slots[id].inUse && w.conn[w.slots[id].sockfd] == e.who
        else !w.slots[id].inUse && !Online(w, e.who))
  }

  // A session is sent the message exactly if it should hear it.
  lemma {:induction false} BroadcastHeard(w: World, id: int, e: Event, s: nat)
    requires Announces(w, id, e) && s < |w.inbox| && w.inbox[s] == Heard(s, w.history)
    ensures s < |SendFrom(w, 0, id, e.msg).inbox|
    ensures SendFrom(w, 0, id, e.msg).inbox[s] == Heard(s, w.history + [e])
  {
    SendFromEffect(w, 0, id, e.msg);
    HeardSnoc(s, w.history, e);
    TargetsAreOthers(w, id, s);
  }

  // The loop looks at neither history nor index.
  lemma {:induction false} SendFromIgnores(w: World, k: nat, id: int, msg: string, h: seq<Event>)
    ensures SendFrom(w.(history := h), k, id, msg) == SendFrom(w, k, id, msg).(history := h)
    decreases |w.slots| - k
  {
    if k < |w.slots| {
      var next := if w.slots[k].inUse && k != id then Send(w, w.slots[k].sockfd, msg) else w;
      SendFromIgnores(next, k + 1, id, msg, h);
    }
  }

  lemma {:induction false} BroadcastInv(w: World, id: int, e: Event)
    requires Announces(w, id, e) && Orderly(w.history)
    requires forall s: nat :: s < |w.inbox| ==> w.inbox[s] == Heard(s, w.history)
    requires forall x :: x in w.history ==> x.who < |w.inbox|
    ensures var n := SendFrom(w.(history := w.history + [e]), 0, id, e.msg);
            n == w.(history := w.history + [e], inbox := n.inbox) && |n.inbox| == |w.inbox|
            && Table(n) && Sessions(n) && Delivered(n)
  {
    var n := SendFrom(w.(history := w.history + [e]), 0, id, e.msg);
    SendFromIgnores(w, 0, id, e.msg, w.history + [e]);
    TableRoutes(w);
    SendFromEffect(w, 0, id, e.msg);
    forall s: nat ensures Online(n, s) == Online(w, s) == Live(s, n.history) {
      HeardSnoc(s, w.history, e);
    }
    forall s: nat | s < |n.inbox| ensures n.inbox[s] == Heard(s, n.history) {
      BroadcastHeard(w, id, e, s);
    }
    OrderlySnoc(w.history, e);
  }

  // A ready client descriptor leads to the slot in use that owns it.
  lemma {:induction false} VisitFindsOwner(w: World)
    requires Inv(w) && w.i in w.cpyReads && w.i != w.listener
    ensures 0 <= w.i < |w.sockIdx|
    ensures var id := w.sockIdx[w.i];
            && 0 <= id < |w.slots| && w.slots[id].inUse && w.slots[id].sockfd == w.i
            && w.i in w.conn && w.i in w.snapConn && w.conn[w.i] == w.snapConn[w.i]
  {
  }

  lemma {:induction false} LoginDelivered(w: World, who: nat, n: World, uid: string)
    requires Delivered(w) && Live(who, w.history) && who < |w.inbox|
    requires n.conn == w.conn && n.inbox == w.inbox && n.history == w.history + [Named(who, uid)]
    ensures Delivered(n)
  {
    forall s: nat ensures Online(n, s) == Online(w, s) && Live(s, n.history) == Live(s, w.history) {
      HeardSnoc(s, w.history, Named(who, uid));
    }
    forall s: nat | s < |n.inbox| ensures n.inbox[s] == Heard(s, n.history) {
      HeardSnoc(s, w.history, Named(who, uid));
    }
    OrderlySnoc(w.history, Named(who, uid));
  }

  lemma {:induction false} LoginNames(w: World, id: int, received: Recv)
    requires Inv(w) && 0 <= id < |w.slots| && w.slots[id].inUse && !w.slots[id].first
    ensures var n := ProcessClient(w, id, received);
            && Names(n)
            && (received.Data? ==>
                  && n.slots[id].first && n.slots[id].uid == received.text
                  && n.history == w.history + [Named(w.conn[w.slots[id].sockfd], received.text)])
  {
    var c, who := w.slots[id], w.conn[w.slots[id].sockfd];
    SignedSnoc(w.history, Named(who, if received.Data? then received.text else c.uid));
  }

  lemma {:induction false} LoginTable(w: World, id: int, received: Recv)
    requires Inv(w) && 0 <= id < |w.slots| && w.slots[id].inUse && !w.slots[id].first
    ensures var n := ProcessClient(w, id, received);
            && n == w.(slots := n.slots, history := w.history + [Named(w.conn[w.slots[id].sockfd], n.slots[id].uid)])
            && |n.slots| == |w.slots| && n.slots[id].uid == (if received.Data? then received.text else w.slots[id].uid)
            && Table(n) && Sessions(n)
  {
  }

  lemma {:induction false} LoginInv(w: World, id: int, received: Recv)
    requires Inv(w) && w.i in w.cpyReads && w.i != w.listener && id == w.sockIdx[w.i]
    requires 0 <= id < |w.slots| && !w.slots[id].first
    ensures Inv(ProcessClient(w, id, received).(i := w.i + 1))
    ensures var n := ProcessClient(w, id, received);
            && n.inbox == w.inbox
            && (received.Data? ==>
                  w.i in w.conn && n.history == w.history + [Named(w.conn[w.i], received.text)])
  {
    VisitFindsOwner(w);
    var n := ProcessClient(w, id, received);
    assert Online(w, w.conn[w.i]);
    LoginTable(w, id, received);
    LoginNames(w, id, received);
    LoginDelivered(w, w.conn[w.i], n, n.slots[id].uid);
    OnlyIndex(n, w.i + 1);
  }

  lemma {:induction false} SaidBroadcast(w: World, id: int, text: string)
    requires Inv(w) && 0 <= id < |w.slots| && w.slots[id].inUse && w.slots[id].first
    ensures var n := ProcessClient(w, id, Data(text)); var who := w.conn[w.slots[id].sockfd];
            n == w.(history := w.history + [Said(who, w.slots[id].uid + "> " + text)], inbox := n.inbox)
            && |n.inbox| == |w.inbox| && Table(n) && Sessions(n) && Delivered(n)
  {
    var who := w.conn[w.slots[id].sockfd];
    assert Online(w, who);
    BroadcastInv(w, id, Said(who, Message(w.slots[id], text)));
  }

  lemma {:induction false} SaidNames(w: World, id: int, text: string)
    requires Inv(w) && 0 <= id < |w.slots| && w.slots[id].inUse && w.slots[id].first
    ensures Names(ProcessClient(w, id, Data(text)))
  {
    SaidBroadcast(w, id, text);
    NamesKept(w, ProcessClient(w, id, Data(text)), Said(w.conn[w.slots[id].sockfd], Message(w.slots[id], text)));
  }

  lemma {:induction false} SaidInv(w: World, id: int, text: string)
    requires Inv(w) && w.i in w.cpyReads && w.i != w.listener && id == w.sockIdx[w.i]
    requires 0 <= id < |w.slots| && w.slots[id].first
    ensures Inv(ProcessClient(w, id, Data(text)).(i := w.i + 1))
  {
    VisitFindsOwner(w);
    SaidBroadcast(w, id, text);
    SaidNames(w, id, text);
    OnlyIndex(ProcessClient(w, id, Data(text)), w.i + 1);
  }

  lemma {:induction false} CloseTable(w: World, id: int)
    requires Inv(w) && 0 <= id < |w.slots| && w.slots[id].inUse
    ensures Table(Close(w, id)) && Sessions(Close(w, id))
    ensures forall s: nat :: Online(Close(w, id), s) <==> Online(w, s) && s != w.conn[w.slots[id].sockfd]
  {
  }

  lemma {:induction false} LeftBroadcast(w: World, id: int)
    requires Inv(w) && 0 <= id < |w.slots| && w.slots[id].inUse && w.slots[id].first
    ensures var n := ProcessClient(w, id, Closed); var who := w.conn[w.slots[id].sockfd];
            n == Close(w, id).(history := w.history + [Left(who, w.slots[id].uid + "> " + LOGOUT)], inbox := n.inbox)
            && |n.inbox| == |w.inbox| && Table(n) && Sessions(n) && Delivered(n)
  {
    var who := w.conn[w.slots[id].sockfd];
    assert Online(w, who);
    CloseTable(w, id);
    BroadcastInv(Close(w, id), id, Left(who, Message(w.slots[id], LOGOUT)));
  }

  lemma {:induction false} LeftNames(w: World, id: int)
    requires Inv(w) && 0 <= id < |w.slots| && w.slots[id].inUse && w.slots[id].first
    ensures Names(ProcessClient(w, id, Closed))
  {
    LeftBroadcast(w, id);
    NamesKept(w, ProcessClient(w, id, Closed), Left(w.conn[w.slots[id].sockfd], Message(w.slots[id], LOGOUT)));
  }

  // The descriptor closed is behind the loop index.
  lemma {:induction false} LeftSnapshot(w: World, id: int)
    requires Inv(w) && 0 <= id < |w.slots| && w.slots[id].inUse && w.slots[id].first && w.slots[id].sockfd == w.i
    ensures Snapshot(ProcessClient(w, id, Closed).(i := w.i + 1))
  {
    LeftBroadcast(w, id);
  }

  lemma {:induction false} LeftInv(w: World, id: int)
    requires Inv(w) && w.i in w.cpyReads && w.i != w.listener && id == w.sockIdx[w.i]
    requires 0 <= id < |w.slots| && w.slots[id].first
    ensures Inv(ProcessClient(w, id, Closed).(i := w.i + 1))
  {
    VisitFindsOwner(w);
    LeftBroadcast(w, id);
    LeftNames(w, id);
    LeftSnapshot(w, id);
    OnlyIndex(ProcessClient(w, id, Closed), w.i + 1);
  }

  lemma {:induction false} ClientInv(w: World, received: Recv)
    requires Inv(w) && w.i in w.cpyReads && w.i != w.listener && 0 <= w.i < |w.sockIdx|
    ensures Inv(ProcessClient(w, w.sockIdx[w.i], received).(i := w.i + 1))
  {
    VisitFindsOwner(w);
    var id := w.sockIdx[w.i];
    if !w.slots[id].first {
      LoginInv(w, id, received);
    } else {
      match received
      case Data(text) => SaidInv(w, id, text);
      case Closed => LeftInv(w, id);
    }
  }

  lemma {:induction false} SkipInv(w: World)
    requires Inv(w) && w.i !in w.cpyReads
    ensures Inv(w.(i := w.i + 1))
  {
    OnlyIndex(w, w.i + 1);
  }

  // One turn of the for loop.
  lemma {:induction false} VisitInv(w: World, a: Input)
    requires Inv(w) && a.Visit? && Step(w, a).Some?
    ensures Inv(Step(w, a).value)
  {
    var n := Step(w, a).value;
    if w.i !in w.cpyReads {
      SkipInv(w);
      assert n == w.(i := w.i + 1);
    } else if w.i == w.listener {
      AcceptInv(w, a.newFd);
      assert n == Accept(w, a.newFd).(i := w.i + 1);
    } else {
      VisitFindsOwner(w);
      ClientInv(w, a.received);
      assert n == ProcessClient(w, w.sockIdx[w.i], a.received).(i := w.i + 1);
    }
  }

  lemma {:induction false} StepInv(w: World, a: Input)
    requires Inv(w) && Step(w, a).Some?
    ensures Inv(Step(w, a).value)
  {
    if a.Select? {
      SelectInv(w, a);
    } else {
      VisitInv(w, a);
    }
  }

  lemma {:induction false} InitInv(listener: int, clients: nat, stack: seq<int>)
    requires 0 <= listener < |stack|
    ensures Inv(Init(listener, clients, stack))
  {
  }

  lemma {:induction false} IsInductive()
    ensures Inductive(Step, Inv)
  {
    forall w, a | Inv(w) && Step(w, a).Some? ensures Inv(Step(w, a).value) {
      StepInv(w, a);
    }
  }
}

// Whole-run theorems for the chat server.
module ChatTheorems {
  import opened Options
  import opened Runs
  import opened ChatServer
  import opened ChatHistory
  import opened ChatInvariant
  import ChatSpec

  // The history positions session s was sent are exactly those of the messages and logouts
  // of others between its accept and its logout, in server order, each once.
  ghost predicate TotallyOrderedDelivery(w: World, s: nat)
    requires s < |w.inbox|
  {
    var ps := Positions(s, w.history);
    && |w.inbox[s]| == |ps|
    && (forall i: nat :: i < |ps| ==>
          ps[i] < |w.history| && (w.history[ps[i]].Said? || w.history[ps[i]].Left?)
          && w.inbox[s][i] == w.history[ps[i]].msg)
    && (forall i: nat, j: nat :: i < j < |ps| ==> ps[i] < ps[j])
    && (forall p: nat :: p in ps <==> p < |w.history| && Hears(s, w.history[..p], w.history[p]))
  }

  lemma {:induction false} InvDelivers(w: World)
    requires Inv(w)
    ensures forall s: nat :: s < |w.inbox| ==> TotallyOrderedDelivery(w, s)
  {
    forall s: nat | s < |w.inbox| ensures TotallyOrderedDelivery(w, s) {
      PositionsExact(s, w.history);
    }
  }

  // Every session has been sent exactly what it should have heard, and what there is to hear
  // is what the inputs call for.
  lemma {:induction false} RunDelivers(listener: int, clients: nat, stack: seq<int>, run: seq<Input>)
    requires 0 <= listener < |stack| && Exec(Step, Init(listener, clients, stack), run).Some?
    ensures var w := Exec(Step, Init(listener, clients, stack), run).value;
            && !w.broken && Table(w) && Orderly(w.history) && Signed(w.history)
            && (forall s: nat :: s < |w.inbox| ==> TotallyOrderedDelivery(w, s))
            && Exec(ChatSpec.SpecStep, ChatSpec.SpecInit(listener),
                    Trace(Step, ChatSpec.Observe, Init(listener, clients, stack), run)) == Some(ChatSpec.Abs(w))
  {
    ChatSpec.RunFollowsSpec(listener, clients, stack, run);
    InitInv(listener, clients, stack);
    IsInductive();
    Invariance(Step, Inv, Init(listener, clients, stack), run);
    InvDelivers(Exec(Step, Init(listener, clients, stack), run).value);
  }

  // A logout reaches everyone who had been accepted and had not logged out, and no session
  // logs out twice.
  lemma {:induction false} LogoutReachesAll(listener: int, clients: nat, stack: seq<int>, run: seq<Input>,
                                            p: nat, s: nat)
    requires 0 <= listener < |stack| && Exec(Step, Init(listener, clients, stack), run).Some?
    requires var h := Exec(Step, Init(listener, clients, stack), run).value.history;
             p < |h| && h[p].Left? && s != h[p].who
    ensures var h := Exec(Step, Init(listener, clients, stack), run).value.history;
            && (p in Positions(s, h) <==> Accepted(s, h[..p]) && !LoggedOut(s, h[..p]))
            && (forall q: nat :: q < |h| && h[q].Left? && h[q].who == h[p].who ==> q == p)
  {
    RunDelivers(listener, clients, stack, run);
    var h := Exec(Step, Init(listener, clients, stack), run).value.history;
    PositionsExact(s, h);
    OrderlyPrefix(h, p);
    LiveMeans(s, h[..p]);
    forall q: nat | q < |h| && h[q].Left? && h[q].who == h[p].who ensures q == p {
      if q < p {
        LogoutOnce(h, q, p);
      } else if p < q {
        LogoutOnce(h, p, q);
      }
    }
  }

  lemma {:induction false} OrderlyPrefix(h: seq<Event>, p: nat)
    requires Orderly(h) && p <= |h|
    ensures Orderly(h[..p])
  {
    forall r: nat | r < p ensures h[..p][r] == h[r] && h[..p][..r] == h[..r] {
    }
  }

  // Two sessions see the messages they share in the same order.
  lemma {:induction false} RunSameOrder(listener: int, clients: nat, stack: seq<int>, run: seq<Input>,
                                        s: nat, t: nat, i: nat, j: nat, k: nat, l: nat)
    requires 0 <= listener < |stack| && Exec(Step, Init(listener, clients, stack), run).Some?
    requires var w := Exec(Step, Init(listener, clients, stack), run).value;
             && s < |w.inbox| && t < |w.inbox|
             && i < |w.inbox[s]| && j < |w.inbox[s]| && k < |w.inbox[t]| && l < |w.inbox[t]|
             && |Positions(s, w.history)| == |w.inbox[s]| && |Positions(t, w.history)| == |w.inbox[t]|
             && Positions(s, w.history)[i] == Positions(t, w.history)[k]
             && Positions(s, w.history)[j] == Positions(t, w.history)[l]
    ensures var w := Exec(Step, Init(listener, clients, stack), run).value;
            w.inbox[s][i] == w.inbox[t][k] && w.inbox[s][j] == w.inbox[t][l] && (i < j <==> k < l)
  {
    RunDelivers(listener, clients, stack, run);
    var w := Exec(Step, Init(listener, clients, stack), run).value;
    SameOrder(s, t, w.history, i, j, k, l);
    assert TotallyOrderedDelivery(w, s) && TotallyOrderedDelivery(w, t);
  }

  // In every reachable state of a pass, a ready client descriptor still belongs to the
  // connection select reported, and sockIdx names the slot in use that owns it.
  lemma {:induction false} StaleSnapshotIsSafe(listener: int, clients: nat, stack: seq<int>, run: seq<Input>, d: int)
    requires 0 <= listener < |stack| && Exec(Step, Init(listener, clients, stack), run).Some?
    requires var w := Exec(Step, Init(listener, clients, stack), run).value;
             d in w.cpyReads && d >= w.i && d != w.listener
    ensures var w := Exec(Step, Init(listener, clients, stack), run).value;
            && 0 <= d < |w.sockIdx| && 0 <= w.sockIdx[d] < |w.slots|
            && w.slots[w.sockIdx[d]].inUse && w.slots[w.sockIdx[d]].sockfd == d
            && d in w.conn && d in w.snapConn && w.conn[d] == w.snapConn[d]
  {
    InitInv(listener, clients, stack);
    IsInductive();
    Invariance(Step, Inv, Init(listener, clients, stack), run);
    var w := Exec(Step, Init(listener, clients, stack), run).value;
    assert d in w.watched && d in w.conn;
  }
}

// What a session should hear, given the history of the server.
module ChatHistory {
  import opened ChatServer

  // Accepted and not logged out since.
  predicate Live(s: nat, h: seq<Event>) {
    if h == [] then false
    else
      var before := Live(s, h[..|h| - 1]);
      match h[|h| - 1]
      case Opened(who) => who == s || before
      case Named(_, _) => before
      case Said(_, _) => before
      case Left(who, _) => who != s && before
  }

  // Session s hears every message of others while it is live, logouts included.
  predicate Hears(s: nat, before: seq<Event>, e: Event) {
    (e.Said? || e.Left?) && e.who != s && Live(s, before)
  }

  function Heard(s: nat, h: seq<Event>): seq<string> {
    if h == [] then []
    else
      var before, e := h[..|h| - 1], h[|h| - 1];
      Heard(s, before) + if Hears(s, before, e) then [e.msg] else []
  }

  lemma {:induction false} HeardSnoc(s: nat, h: seq<Event>, e: Event)
    ensures Heard(s, h + [e]) == Heard(s, h) + if Hears(s, h, e) then [e.msg] else []
    ensures Live(s, h + [e]) == (match e case Opened(who) => who == s || Live(s, h)
                                         case Left(who, _) => who != s && Live(s, h)
                                         case _ => Live(s, h))
  {
    assert (h + [e])[..|h|] == h;
  }

  // Where in the history the messages come from that s hears.
  function Positions(s: nat, h: seq<Event>): seq<nat> {
    if h == [] then []
    else
      var before, e := h[..|h| - 1], h[|h| - 1];
      Positions(s, before) + if Hears(s, before, e) then [|h| - 1] else []
  }

  // The messages s hears are those of the history, at increasing positions, and no position
  // that s should hear is missing.
  lemma {:induction false} PositionsExact(s: nat, h: seq<Event>)
    ensures var ps := Positions(s, h);
            && |ps| == |Heard(s, h)|
            && (forall i: nat, j: nat :: i < j < |ps| ==> ps[i] < ps[j])
            && (forall i: nat :: i < |ps| ==>
                  ps[i] < |h| && (h[ps[i]].Said? || h[ps[i]].Left?) && Heard(s, h)[i] == h[ps[i]].msg)
            && (forall p: nat :: p in ps <==> p < |h| && Hears(s, h[..p], h[p]))
  {
    if h != [] {
      var before := h[..|h| - 1];
      PositionsExact(s, before);
      forall p: nat ensures p in Positions(s, h) <==> p < |h| && Hears(s, h[..p], h[p]) {
        if p < |before| {
          assert before[..p] == h[..p];
        }
      }
    }
  }

  // Messages two sessions both hear, they hear in the same order.
  lemma {:induction false} SameOrder(s: nat, t: nat, h: seq<Event>, i: nat, j: nat, k: nat, l: nat)
    requires i < |Positions(s, h)| && j < |Positions(s, h)| && k < |Positions(t, h)| && l < |Positions(t, h)|
    requires Positions(s, h)[i] == Positions(t, h)[k] && Positions(s, h)[j] == Positions(t, h)[l]
    ensures i < j <==> k < l
  {
    PositionsExact(s, h);
    PositionsExact(t, h);
  }

  // A session is opened at most once, before it leaves, and leaves at most once.
  ghost predicate Orderly(h: seq<Event>) {
    forall p: nat :: p < |h| ==>
      match h[p]
      case Opened(who) => forall q: nat :: q < p ==> h[q].who != who
      case Named(who, _) => Live(who, h[..p])
      case Said(who, _) => Live(who, h[..p])
      case Left(who, _) => Live(who, h[..p])
  }

  ghost predicate Accepted(s: nat, h: seq<Event>) {
    exists p: nat :: p < |h| && h[p] == Opened(s)
  }

  ghost predicate LoggedOut(s: nat, h: seq<Event>) {
    exists p: nat :: p < |h| && h[p].Left? && h[p].who == s
  }

  // Live says what it is meant to say.
  lemma {:induction false} LiveMeans(s: nat, h: seq<Event>)
    requires Orderly(h)
    ensures Live(s, h) <==> Accepted(s, h) && !LoggedOut(s, h)
  {
    if h != [] {
      var before, e := h[..|h| - 1], h[|h| - 1];
      forall p: nat | p < |before| ensures before[p] == h[p] && before[..p] == h[..p] {
      }
      assert Orderly(before);
      LiveMeans(s, before);
      if e == Opened(s) {
        assert h[|before|] == Opened(s);
      } else if exists p: nat :: p < |before| && before[p] == Opened(s) {
        var p: nat :| p < |before| && before[p] == Opened(s);
        assert h[p] == Opened(s);
      }
    }
  }

  // Each logout is announced once.
  lemma {:induction false} LogoutOnce(h: seq<Event>, p: nat, q: nat)
    requires Orderly(h) && p < q < |h| && h[p].Left?
    ensures h[q].Left? ==> h[q].who != h[p].who
  {
    if h[q].Left? && h[q].who == h[p].who {
      var before := h[..q];
      forall r: nat | r < |before| ensures before[r] == h[r] && before[..r] == h[..r] {
      }
      assert Orderly(before);
      assert before[p] == h[p];
      LiveMeans(h[q].who, before);
    }
  }

  ghost predicate Unnamed(s: nat, h: seq<Event>) {
    forall uid :: Named(s, uid) !in h
  }

  // A session is named at most once, and each of its messages, and its logout, is signed
  // with the name given before.
  ghost predicate Signed(h: seq<Event>) {
    forall p: nat :: p < |h| ==> SignedBy(h[p], h[..p])
  }

  ghost predicate SignedBy(e: Event, before: seq<Event>) {
    match e
    case Opened(_) => true
    case Named(who, _) => Unnamed(who, before)
    case Said(who, msg) => exists uid, text :: Named(who, uid) in before && msg == uid + "> " + text
    case Left(who, msg) => exists uid :: Named(who, uid) in before && msg == uid + "> " + LOGOUT
  }

  lemma {:induction false} SignedSnoc(h: seq<Event>, e: Event)
    requires Signed(h) && SignedBy(e, h)
    ensures Signed(h + [e])
  {
    forall p: nat | p < |h| + 1 ensures SignedBy((h + [e])[p], (h + [e])[..p]) {
      if p == |h| {
        assert (h + [e])[..p] == h;
      } else {
        assert (h + [e])[..p] == h[..p] && (h + [e])[p] == h[p];
      }
    }
  }
}

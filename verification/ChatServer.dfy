// 9_Chatting server & client/chats.c: the select loop, as steps of the server against an
// arbitrary kernel and arbitrary clients. A session is one accepted connection, numbered
// in the order of acceptance.
module ChatServer {
  import opened Options

  // ClientType. first says that the user name has been received.
  datatype Slot = Slot(sockfd: int, inUse: bool, first: bool, uid: string)

  // What recv brings: bytes, or 0 when the peer has closed.
  datatype Recv = Data(text: string) | Closed

  datatype Event =
    | Opened(who: nat)                  // accepted
    | Named(who: nat, uid: string)      // the first message taken as the user name
    | Said(who: nat, msg: string)       // broadcast
    | Left(who: nat, msg: string)       // logged out, and announced

  datatype World = World(
    listener: int,
    slots: seq<Slot>,           // Client[]
    sockIdx: seq<int>,
    watched: set<int>,          // reads
    fdMax: int,
    cpyReads: set<int>,         // the snapshot select filled in
    i: int,                     // the for loop's index into the snapshot
    conn: map<int, nat>,        // kernel: open client descriptors and their sessions
    snapConn: map<int, nat>,    // conn when select returned
    inbox: seq<seq<string>>,    // what each session has been sent
    history: seq<Event>,
    broken: bool)               // a wild index, or a send that would make the server exit

  datatype Input =
    | Select(ready: set<int>)              // select returns, with these descriptors ready
    | Visit(newFd: int, received: Recv)    // one turn of the for loop; the answers of accept and recv

  const LOGOUT: string := "log-out.....\n"

  // stack is what the local array sockIdx happens to hold.
  function Init(listener: int, clients: nat, stack: seq<int>): World
    requires 0 <= listener < |stack|
  {
    World(listener, seq(clients, _ => Slot(0, false, false, "")), stack, {listener}, listener,
          {}, listener + 1, map[], map[], [], [], false)
  }

  function Step(w: World, a: Input): Option<World> {
    match a
    case Select(ready) =>
      if w.i > w.fdMax && ready <= w.watched
      then Some(w.(cpyReads := ready, i := 0, snapConn := w.conn)) else None
    case Visit(newFd, received) =>
      if w.i > w.fdMax then None
      else if w.i !in w.cpyReads then Some(w.(i := w.i + 1))
      else if w.i == w.listener then
        if CanAccept(w, newFd) then Some(Accept(w, newFd).(i := w.i + 1)) else None
      else if !(0 <= w.i < |w.sockIdx|) then Some(w.(broken := true))
      else Some(ProcessClient(w, w.sockIdx[w.i], received).(i := w.i + 1))
  }

  // What the code takes for granted: accept returns a descriptor that is not open and fits
  // sockIdx, and a slot is free.
  predicate CanAccept(w: World, fd: int) {
    0 <= fd < |w.sockIdx| && fd != w.listener && fd !in w.conn && FirstFree(w.slots) < |w.slots|
  }

  // GetID: the lowest slot not in use.
  function FirstFree(slots: seq<Slot>): (id: nat)
    ensures id <= |slots|
    ensures forall k: nat :: k < id ==> slots[k].inUse
    ensures id < |slots| ==> !slots[id].inUse
  {
    if slots == [] || !slots[0].inUse then 0 else 1 + FirstFree(slots[1..])
  }

  function Accept(w: World, fd: int): World
    requires CanAccept(w, fd)
  {
    var id := FirstFree(w.slots);
    w.(watched := w.watched + {fd},
       fdMax := if w.fdMax < fd then fd else w.fdMax,
       slots := w.slots[id := w.slots[id].(inUse := true, sockfd := fd, first := false)],
       sockIdx := w.sockIdx[fd := id],
       conn := w.conn[fd := |w.inbox|],
       inbox := w.inbox + [[]],
       history := w.history + [Opened(|w.inbox|)])
  }

  function ProcessClient(w: World, id: int, received: Recv): World {
    if !(0 <= id < |w.slots|) || w.slots[id].sockfd !in w.conn then w.(broken := true)
    else
      var c := w.slots[id];
      var who := w.conn[c.sockfd];
      if !c.first then
        var uid := if received.Data? then received.text else c.uid;
        w.(slots := w.slots[id := c.(first := true, uid := uid)], history := w.history + [Named(who, uid)])
      else
        match received
        case Data(text) =>
          var msg := Message(c, text);
          SendFrom(w.(history := w.history + [Said(who, msg)]), 0, id, msg)
        case Closed =>
          var msg := Message(c, LOGOUT);
          SendFrom(Close(w, id).(history := w.history + [Left(who, msg)]), 0, id, msg)
  }

  // sprintf(msg, "%s> %s", ...)
  function Message(c: Slot, text: string): string {
    c.uid + "> " + text
  }

  function Close(w: World, id: int): World
    requires 0 <= id < |w.slots|
  {
    var c := w.slots[id];
    w.(watched := w.watched - {c.sockfd}, conn := w.conn - {c.sockfd}, slots := w.slots[id := c.(inUse := false)])
  }

  // The loop of SendToOtherClients, from slot k on.
  function SendFrom(w: World, k: nat, id: int, msg: string): World
    decreases |w.slots| - k
  {
    if k >= |w.slots| then w
    else if w.slots[k].inUse && k != id then SendFrom(Send(w, w.slots[k].sockfd, msg), k + 1, id, msg)
    else SendFrom(w, k + 1, id, msg)
  }

  function Send(w: World, fd: int, msg: string): World {
    if fd in w.conn && w.conn[fd] < |w.inbox|
    then w.(inbox := w.inbox[w.conn[fd] := w.inbox[w.conn[fd]] + [msg]])
    else w.(broken := true)
  }
}

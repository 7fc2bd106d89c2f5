/** The websocket manager over real socket objects, whose alive flags its handlers and loops write. */
module WebSockets {
  import opened Wrappers
  import opened WebSocketModel

  class Socket {
    const id: Id
    var alive: bool

    constructor (id: Id)
      ensures this.id == id && alive
    {
      this.id := id;
      alive := true;
    }
  }

  class WebSocketManager {
    var goingSessions: map<Id, Socket>
    var suspects: map<Id, Socket>
    ghost var sockets: map<Id, Socket>
    ghost var closed: set<Id>

    ghost function Model(): State
      reads this, sockets.Values
    {
      State(map id | id in sockets :: sockets[id].alive, goingSessions.Keys, suspects.Keys, closed)
    }

    /** The tables file a socket under its own id. */
    ghost predicate Valid()
      reads this
    {
      && (forall id | id in sockets :: sockets[id].id == id)
      && (forall id | id in goingSessions :: id in sockets && goingSessions[id] == sockets[id])
      && (forall id | id in suspects :: id in sockets && suspects[id] == sockets[id])
    }

    constructor ()
      ensures Valid() && Model() == EMPTY && sockets == map[]
    {
      goingSessions, suspects, sockets, closed := map[], map[], map[], {};
    }

    method AddWsSession(id: Id) returns (ws: Socket)
      requires Valid() && id !in sockets
      modifies this
      ensures Valid() && fresh(ws) && sockets == old(sockets)[id := ws]
      ensures Model() == Step(old(Model()), Connect(id))
    {
      ws := new Socket(id);
      goingSessions := goingSessions[id := ws];
      sockets := sockets[id := ws];
    }

    method Ping(ws: Socket)
      modifies ws
      ensures !ws.alive
    {
      ws.alive := false;
    }

    method Ponged(ws: Socket)
      requires Valid() && ws.id in sockets && sockets[ws.id] == ws
      modifies this`suspects, ws
      ensures Valid() && Model() == Step(old(Model()), Pong(ws.id))
    {
      ws.alive := true;
      suspects := suspects - {ws.id};
    }

    method CloseWssSession(ws: Socket)
      requires Valid()
      modifies this`goingSessions
      ensures Valid() && goingSessions == old(goingSessions) - {ws.id}
      ensures Model() == Step(old(Model()), Closed(ws.id))
    {
      goingSessions := goingSessions - {ws.id};
    }

    /** What a round does about one going session. */
    method Visit(ws: Socket)
      requires Valid() && ws.id in goingSessions && goingSessions[ws.id] == ws
      modifies this`suspects, ws
      ensures Valid() && Model() == Visited(old(Model()), {ws.id})
    {
      if !ws.alive {
        suspects := suspects[ws.id := ws];
      } else {
        Ping(ws);
      }
    }

    method VisitNext(ghost was: State, ghost done: set<Id>, key: Id)
      requires Valid() && key in goingSessions && key !in done && Model() == Visited(was, done)
      modifies this`suspects, sockets.Values
      ensures Valid() && Model() == Visited(was, done + {key})
    {
      VisitedMore(was, done, key);
      Visit(goingSessions[key]);
    }

    method DoPings()
      requires Valid()
      modifies this`suspects, sockets.Values
      ensures Valid() && Model() == Step(old(Model()), Round)
    {
      var left := goingSessions.Keys;
      ghost var done: set<Id> := {};
      NothingDone(Model());
      while left != {}
        invariant Valid() && left <= goingSessions.Keys && done == goingSessions.Keys - left
        invariant Model() == Visited(old(Model()), done)
      {
        var key := AnyOf(left);
        VisitNext(old(Model()), done, key);
        left := left - {key};
        done := done + {key};
      }
      assert done == goingSessions.Keys;
    }

    method CloseSuspect(wsid: Id)
      requires Valid() && wsid in suspects
      modifies this`goingSessions, this`suspects, this`closed
      ensures Valid() && Model() == Swept(old(Model()), {wsid})
    {
      var ws := suspects[wsid];
      suspects := suspects - {wsid};
      CloseWssSession(ws);
      closed := closed + {wsid};
    }

    method CloseNext(ghost was: State, ghost done: set<Id>, wsid: Id)
      requires Valid() && wsid in suspects && Model() == Swept(was, done)
      modifies this`goingSessions, this`suspects, this`closed
      ensures Valid() && Model() == Swept(was, done + {wsid}) && suspects.Keys == old(suspects).Keys - {wsid}
    {
      SweptMore(was, done, wsid);
      CloseSuspect(wsid);
      assert Model().suspects == old(suspects).Keys - {wsid};
    }

    method CloseSuspects()
      requires Valid()
      modifies this`goingSessions, this`suspects, this`closed
      ensures Valid() && Model() == Step(old(Model()), Sweep)
    {
      var left := suspects.Keys;
      ghost var done: set<Id> := {};
      NothingDone(Model());
      while left != {}
        invariant Valid() && left == suspects.Keys && left + done == old(suspects).Keys
        invariant Model() == Swept(old(Model()), done)
      {
        var wsid := AnyOf(left);
        CloseNext(old(Model()), done, wsid);
        left := left - {wsid};
        done := done + {wsid};
      }
      assert done == old(suspects).Keys;
    }
  }

  lemma NothingDone(s: State)
    ensures Visited(s, {}) == s && Swept(s, {}) == s
  {}

  lemma VisitedMore(s: State, done: set<Id>, id: Id)
    requires id !in done
    ensures Visited(Visited(s, done), {id}) == Visited(s, done + {id})
  {}

  lemma SweptMore(s: State, done: set<Id>, id: Id)
    ensures Swept(Swept(s, done), {id}) == Swept(s, done + {id})
  {}
}

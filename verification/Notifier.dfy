/**
 * The notifier: one stream object per connected user, indexed by user and by room, each with the
 * listeners waiting for its next token; and the queue of room events not yet announced.
 * Each method is one uninterrupted stretch of the event loop.
 */
module Notifier {
  import opened Common
  import opened RoomEvents
  import Queue = PendingQueue
  import Runs = ListenerRuns

  /** Something a client waits on: resolved once with a token, or cancelled. */
  class Deferred {
    const stream: UserStream
    /** Where the wait began in the stream's history. */
    ghost const position: nat
    var result: Option<int>
    var cancelled: bool

    constructor (stream: UserStream, ghost position: nat, result: Option<int>)
      ensures this.stream == stream && this.position == position && this.result == result && !cancelled
    {
      this.stream, this.position, this.result, cancelled := stream, position, result, false;
    }

    predicate Waiting()
      reads this
    {
      result.None? && !cancelled
    }

    /** Resolving twice is an error, so it is ruled out here. */
    method Callback(token: int)
      requires Waiting()
      modifies this
      ensures result == Some(token) && !cancelled
    {
      result := Some(token);
    }
  }

  ghost function Positions(ds: set<Deferred>): set<nat> {
    set d | d in ds :: d.position
  }

  /** The token and the listeners are what the history says, each deferred having its own place in it. */
  ghost predicate Tracks(start: int, history: seq<Runs.Op>, token: int, listeners: set<Deferred>, issued: set<Deferred>) {
    && listeners <= issued
    && token == Runs.TokenAfter(start, history)
    && Positions(listeners) == Runs.Waiting(start, history)
    && (forall d :: d in issued ==> d.position < |history|)
    && (forall d, e :: d in issued && e in issued && d.position == e.position ==> d == e)
  }

  lemma ListenTracks(start: int, history: seq<Runs.Op>, token: int, listeners: set<Deferred>, issued: set<Deferred>, d: Deferred)
    requires Tracks(start, history, token, listeners, issued) && d !in issued && d.position == |history|
    ensures Tracks(start, history + [Runs.Listen(token)], token, listeners + {d}, issued + {d})
    ensures forall i :: Runs.ResultOf(start, history + [Runs.Listen(token)], i) == Runs.ResultOf(start, history, i)
    ensures Runs.ResultOf(start, history, d.position) == None
  {
    Runs.OneMoreOp(start, history, Runs.Listen(token));
    Runs.NotYetListening(start, history, d.position);
    assert Positions(listeners + {d}) == Positions(listeners) + {d.position};
  }

  lemma StaleListenTracks(start: int, history: seq<Runs.Op>, token: int, listeners: set<Deferred>, issued: set<Deferred>, stale: int)
    requires Tracks(start, history, token, listeners, issued) && stale != token
    ensures Tracks(start, history + [Runs.Listen(stale)], token, listeners, issued)
    ensures forall i :: Runs.ResultOf(start, history + [Runs.Listen(stale)], i) == Runs.ResultOf(start, history, i)
  {
    Runs.OneMoreOp(start, history, Runs.Listen(stale));
  }

  lemma CancelTracks(start: int, history: seq<Runs.Op>, token: int, listeners: set<Deferred>, issued: set<Deferred>, d: Deferred)
    requires Tracks(start, history, token, listeners, issued) && d in issued
    ensures Tracks(start, history + [Runs.Cancel(d.position)], token, listeners - {d}, issued)
    ensures forall i :: Runs.ResultOf(start, history + [Runs.Cancel(d.position)], i) == Runs.ResultOf(start, history, i)
  {
    Runs.OneMoreOp(start, history, Runs.Cancel(d.position));
    assert Positions(listeners - {d}) == Positions(listeners) - {d.position};
  }

  lemma UpdateTracks(start: int, history: seq<Runs.Op>, token: int, listeners: set<Deferred>, issued: set<Deferred>, token': int)
    requires Tracks(start, history, token, listeners, issued)
    ensures Tracks(start, history + [Runs.Update(token')], token', {}, issued)
    ensures forall d :: d in issued ==>
              Runs.ResultOf(start, history + [Runs.Update(token')], d.position) ==
              if d in listeners then Some(token') else Runs.ResultOf(start, history, d.position)
  {
    Runs.OneMoreOp(start, history, Runs.Update(token'));
    assert forall d :: d in issued ==> (d in listeners <==> d.position in Positions(listeners));
  }

  class UserStream {
    const userId: string
    var rooms: set<string>
    var currentToken: int
    var lastNotifiedMs: int
    var listeners: set<Deferred>
    /** Every deferred this stream ever made clients wait on. */
    ghost var issued: set<Deferred>
    ghost const startToken: int
    ghost var history: seq<Runs.Op>

    /**
     * The deferreds still waiting are exactly the listeners, and the whole stream is as its history
     * says: who waits, and which token each deferred was resolved with.
     */
    ghost predicate ListenersOk()
      reads this`listeners, this`issued, this`currentToken, this`history, issued
    {
      && Tracks(startToken, history, currentToken, listeners, issued)
      && (forall d :: d in issued ==> d.stream == this && (d.Waiting() <==> d in listeners))
      && (forall d :: d in issued ==> d.result == Runs.ResultOf(startToken, history, d.position))
    }

    constructor (userId: string, rooms: set<string>, currentToken: int, nowMs: int)
      ensures this.userId == userId && this.rooms == rooms && this.currentToken == currentToken && lastNotifiedMs == nowMs
      ensures listeners == {} && issued == {} && history == [] && startToken == currentToken && ListenersOk()
    {
      this.userId, this.rooms, this.currentToken, lastNotifiedMs := userId, rooms, currentToken, nowMs;
      listeners, issued, startToken, history := {}, {}, currentToken, [];
    }

    /** update_and_fetch_deferreds: every waiting listener is handed out. */
    method UpdateAndFetch(token: int, nowMs: int) returns (fetched: set<Deferred>)
      modifies this
      ensures fetched == old(listeners) && listeners == {} && currentToken == token && lastNotifiedMs == nowMs
      ensures rooms == old(rooms) && issued == old(issued) && history == old(history) + [Runs.Update(token)]
    {
      currentToken, lastNotifiedMs := token, nowMs;
      fetched := listeners;
      listeners := {};
      history := history + [Runs.Update(token)];
    }

    /** new_listener: resolved at once when the client's token is out of date, else made to wait. */
    method NewListener(token: int) returns (d: Deferred)
      requires ListenersOk()
      modifies this
      ensures ListenersOk() && fresh(d) && d.stream == this && d.position == |old(history)|
      ensures currentToken == old(currentToken) && lastNotifiedMs == old(lastNotifiedMs) && rooms == old(rooms)
      ensures history == old(history) + [Runs.Listen(token)]
      ensures token != currentToken ==> d.result == Some(currentToken) && listeners == old(listeners) && issued == old(issued)
      ensures token == currentToken ==>
                d.Waiting() && listeners == old(listeners) + {d} && issued == old(issued) + {d}
    {
      hide Tracks, Runs.ResultOf;
      if token != currentToken {
        StaleListenTracks(startToken, history, currentToken, listeners, issued, token);
        d := new Deferred(this, |history|, Some(currentToken));
      } else {
        d := new Deferred(this, |history|, None);
        ListenTracks(startToken, history, currentToken, listeners, issued, d);
        listeners, issued := listeners + {d}, issued + {d};
      }
      history := history + [Runs.Listen(token)];
    }

    /** A timeout: a waiting deferred is cancelled and forgotten, a finished one is left alone. */
    method Cancel(d: Deferred)
      requires ListenersOk() && d in issued
      modifies this, d
      ensures ListenersOk() && issued == old(issued) && d.result == old(d.result) && !d.Waiting()
      ensures currentToken == old(currentToken) && lastNotifiedMs == old(lastNotifiedMs) && rooms == old(rooms)
      ensures listeners == old(listeners) - {d} && history == old(history) + [Runs.Cancel(d.position)]
    {
      hide Tracks, Runs.ResultOf;
      CancelTracks(startToken, history, currentToken, listeners, issued, d);
      if d.Waiting() {
        listeners := listeners - {d};
        d.cancelled := true;
      } else {
        assert listeners - {d} == listeners;
      }
      history := history + [Runs.Cancel(d.position)];
    }

    /** The operation at `q` is the first update after the wait at `i` began, and no cancellation came before it. */
    ghost predicate ResolvedAt(i: nat, q: nat)
      requires q < |history|
      reads this`history
    {
      history[q].Update? && i < q && Runs.MadeToWait(startToken, history, i) && Runs.LeftWaiting(history, i, q)
    }

    /**
     * A deferred holds a token exactly when it was made to wait for the token of its time and an
     * update gave that token, the first update since, with no cancellation before it.
     */
    lemma ResolvedByFirstUpdate(d: Deferred, token: int)
      requires ListenersOk() && d in issued
      ensures d.result == Some(token) <==>
              exists q: nat :: q < |history| && ResolvedAt(d.position, q) && history[q] == Runs.Update(token)
      ensures d in listeners ==> history[d.position] == Runs.Listen(currentToken)
    {
      Runs.ResultExactly(startToken, history, d.position, token);
      forall q: nat | q < |history| ensures d.position in Runs.HandedOutAt(startToken, history, q) <==> ResolvedAt(d.position, q) {
        Runs.HandedOutExactly(startToken, history, q, d.position);
      }
      if d in listeners {
        assert d.position in Positions(listeners);
        Runs.WaitForPresentToken(startToken, history, d.position);
      }
    }
  }

  // ----- the two indexes as values -----

  type ByUser = map<string, UserStream>
  type ByRoom = map<string, set<UserStream>>

  function In(byRoom: ByRoom, room: string): set<UserStream> {
    if room in byRoom then byRoom[room] else {}
  }

  /**
   * The indexes agree with what the registered streams list: a stream is in a room's set iff it is
   * registered and lists that room, and no room's set is empty.
   */
  ghost predicate Agrees(byUser: ByUser, byRoom: ByRoom, listed: map<UserStream, set<string>>) {
    && listed.Keys == byUser.Values
    && (forall u :: u in byUser ==> byUser[u].userId == u)
    && (forall s, r :: s in listed && r in listed[s] ==> s in In(byRoom, r))
    && (forall r :: r in byRoom ==> byRoom[r] != {})
    && (forall r, s :: r in byRoom && s in byRoom[r] ==> s in listed && r in listed[s])
  }

  /** The room sets after adding `stream` to the sets of `rooms`. */
  ghost predicate Added(byRoom: ByRoom, byRoom': ByRoom, stream: UserStream, rooms: set<string>) {
    byRoom'.Keys == byRoom.Keys + rooms &&
    forall r :: r in byRoom' ==> byRoom'[r] == In(byRoom, r) + (if r in rooms then {stream} else {})
  }

  /** The room sets after taking `stream` out of the sets of `rooms`, emptied sets dropped. */
  ghost predicate Dropped(byRoom: ByRoom, byRoom': ByRoom, stream: UserStream, rooms: set<string>) {
    && (forall r :: r in byRoom' ==> r in byRoom && byRoom'[r] == (if r in rooms then byRoom[r] - {stream} else byRoom[r]))
    && (forall r :: r in byRoom && r !in byRoom' ==> r in rooms && byRoom[r] <= {stream})
    && (forall r :: r in byRoom' && r in rooms ==> byRoom'[r] != {})
  }

  lemma RegisteredByName(byUser: ByUser, byRoom: ByRoom, listed: map<UserStream, set<string>>, s: UserStream)
    requires Agrees(byUser, byRoom, listed) && s in listed
    ensures s.userId in byUser && byUser[s.userId] == s
  {
    var u :| u in byUser && byUser[u] == s;
  }

  lemma RegisterAgrees(byUser: ByUser, byRoom: ByRoom, listed: map<UserStream, set<string>>, stream: UserStream,
                       byRoom': ByRoom, listed': map<UserStream, set<string>>)
    requires Agrees(byUser, byRoom, listed) && stream !in listed
    requires var byUser' := byUser[stream.userId := stream];
             && listed'.Keys == byUser'.Values
             && (forall s :: s in listed' && s != stream ==> s in listed && listed'[s] == listed[s])
             && stream in listed' && Added(byRoom, byRoom', stream, listed'[stream])
    requires stream.userId !in byUser || listed[byUser[stream.userId]] == {}
    ensures Agrees(byUser[stream.userId := stream], byRoom', listed')
  {
    var byUser' := byUser[stream.userId := stream];
    forall r, s | r in byRoom' && s in byRoom'[r] ensures s in listed' && r in listed'[s] {
      if s != stream {
        assert s in byRoom[r] && s in listed && r in listed[s];
        RegisteredByName(byUser, byRoom, listed, s);
        assert s.userId != stream.userId;
        assert byUser'[s.userId] == s;
      }
    }
    forall s, r | s in listed' && r in listed'[s] ensures s in In(byRoom', r) {
      if s != stream {
        assert s in In(byRoom, r);
        assert r in byRoom';
      }
    }
  }

  /** Registering over a stream that lists a room leaves that stream behind in the room's set. */
  lemma RegisterOverBreaks(byUser: ByUser, byRoom: ByRoom, listed: map<UserStream, set<string>>, stream: UserStream,
                           byRoom': ByRoom, listed': map<UserStream, set<string>>)
    requires Agrees(byUser, byRoom, listed) && stream !in listed
    requires stream.userId in byUser && listed[byUser[stream.userId]] != {}
    requires stream in listed' && Added(byRoom, byRoom', stream, listed'[stream])
    ensures !Agrees(byUser[stream.userId := stream], byRoom', listed')
  {
    var left := byUser[stream.userId];
    var r :| r in listed[left];
    assert left in In(byRoom, r);
    assert left in byRoom'[r];
    if Agrees(byUser[stream.userId := stream], byRoom', listed') {
      RegisteredByName(byUser[stream.userId := stream], byRoom', listed', left);
      assert false;
    }
  }

  lemma JoinAgrees(byUser: ByUser, byRoom: ByRoom, listed: map<UserStream, set<string>>, stream: UserStream, room: string, byRoom': ByRoom)
    requires Agrees(byUser, byRoom, listed) && stream in listed && Added(byRoom, byRoom', stream, {room})
    ensures Agrees(byUser, byRoom', listed[stream := listed[stream] + {room}])
  {
    var listed' := listed[stream := listed[stream] + {room}];
    assert listed'.Keys == listed.Keys;
    forall s, r | s in listed' && r in listed'[s] ensures s in In(byRoom', r) {
      if !(s == stream && r == room) {
        assert s in In(byRoom, r);
      }
    }
    forall r, s | r in byRoom' && s in byRoom'[r] ensures s in listed' && r in listed'[s] {
      if !(s == stream && r == room) {
        assert s in In(byRoom, r);
      }
    }
  }

  lemma RemoveAgrees(byUser: ByUser, byRoom: ByRoom, listed: map<UserStream, set<string>>, stream: UserStream, byRoom': ByRoom)
    requires Agrees(byUser, byRoom, listed) && stream in listed && Dropped(byRoom, byRoom', stream, listed[stream])
    ensures Agrees(byUser - {stream.userId}, byRoom', listed - {stream})
  {
    RegisteredByName(byUser, byRoom, listed, stream);
    var byUser', listed' := byUser - {stream.userId}, listed - {stream};
    forall s | s in listed' ensures s in byUser'.Values {
      RegisteredByName(byUser, byRoom, listed, s);
      assert byUser'[s.userId] == s;
    }
    forall s | s in byUser'.Values ensures s in listed' {
      var u :| u in byUser' && byUser'[u] == s;
      assert s in byUser.Values;
    }
    forall s, r | s in listed' && r in listed'[s] ensures s in In(byRoom', r) {
      assert s in In(byRoom, r);
    }
  }

  const UNUSED_STREAM_EXPIRY_MS: int := 600000

  predicate Meets(a: set<string>, b: set<string>) { exists r :: r in a && r in b }

  lemma MeetsMore(a: set<string>, b: set<string>, room: string)
    ensures Meets(a, b + {room}) <==> Meets(a, b) || room in a
  {
    if Meets(a, b) {
      var r :| r in a && r in b;
      assert r in b + {room};
    }
    if room in a {
      assert room in b + {room};
    }
  }

  lemma FoundByUser(byUser: ByUser, byRoom: ByRoom, listed: map<UserStream, set<string>>, user: string)
    requires Agrees(byUser, byRoom, listed)
    ensures forall s :: s in listed ==> (s.userId == user <==> user in byUser && byUser[user] == s)
  {
    forall s | s in listed ensures s.userId == user <==> user in byUser && byUser[user] == s {
      RegisteredByName(byUser, byRoom, listed, s);
    }
  }

  lemma FoundByRoom(byUser: ByUser, byRoom: ByRoom, listed: map<UserStream, set<string>>, room: string)
    requires Agrees(byUser, byRoom, listed)
    ensures In(byRoom, room) <= listed.Keys
    ensures forall s :: s in listed ==> (s in In(byRoom, room) <==> room in listed[s])
  {}

  // ----- delivered entries -----

  predicate IsJoinOf(entry: Queue.Entry, user: string) {
    entry.kind.Member? && entry.membership == Some(Join) && user != "" && entry.stateKey == Some(user)
  }

  function ExtraUsers(entries: seq<Queue.Entry>): set<string> {
    set e, u | e in entries && u in e.extraUsers :: u
  }

  function RoomsOf(entries: seq<Queue.Entry>): set<string> {
    set e | e in entries :: e.roomId
  }

  /** The rooms that `user` joins in these entries. */
  function JoinedBy(entries: seq<Queue.Entry>, user: string): set<string> {
    set e | e in entries && IsJoinOf(e, user) :: e.roomId
  }

  /** What the streams list once the joins among the entries are taken in. */
  ghost function Grown(listed: map<UserStream, set<string>>, entries: seq<Queue.Entry>): map<UserStream, set<string>> {
    map s | s in listed :: listed[s] + JoinedBy(entries, s.userId)
  }

  /** A stream gains exactly the rooms of the entries that are joins of its user. */
  lemma GrownExactly(listed: map<UserStream, set<string>>, entries: seq<Queue.Entry>, s: UserStream, room: string)
    requires s in listed
    ensures room in Grown(listed, entries)[s] <==>
            room in listed[s] ||
            (s.userId != "" &&
             exists e :: e in entries && e.roomId == room && e.kind == Member && e.membership == Some(Join) && e.stateKey == Some(s.userId))
  {}

  lemma JoinedAppend(entries: seq<Queue.Entry>, e: Queue.Entry, user: string)
    ensures JoinedBy(entries + [e], user) == JoinedBy(entries, user) + JoinedBy([e], user)
    ensures JoinedBy([e], user) == if IsJoinOf(e, user) then {e.roomId} else {}
    ensures JoinedBy([], user) == {}
  {
    assert forall x :: x in entries + [e] <==> x in entries || x in [e];
    assert e in [e];
  }

  lemma GrownNone(listed: map<UserStream, set<string>>)
    ensures Grown(listed, []) == listed
    ensures ExtraUsers([]) == {} && RoomsOf([]) == {}
  {
    forall s | s in listed ensures Grown(listed, [])[s] == listed[s] {
      assert JoinedBy([], s.userId) == {};
    }
  }

  lemma GrownMore(listed: map<UserStream, set<string>>, entries: seq<Queue.Entry>, e: Queue.Entry)
    ensures Grown(Grown(listed, entries), [e]) == Grown(listed, entries + [e])
  {
    hide JoinedBy, IsJoinOf;
    var once, twice := Grown(listed, entries + [e]), Grown(Grown(listed, entries), [e]);
    forall s | s in listed ensures once[s] == twice[s] {
      JoinedAppend(entries, e, s.userId);
    }
  }

  lemma OneMore(entries: seq<Queue.Entry>, e: Queue.Entry)
    ensures ExtraUsers(entries + [e]) == ExtraUsers(entries) + e.extraUsers
    ensures RoomsOf(entries + [e]) == RoomsOf(entries) + {e.roomId}
    ensures forall user :: JoinedBy(entries + [e], user) == JoinedBy(entries, user) + (if IsJoinOf(e, user) then {e.roomId} else {})
  {
    assert forall x :: x in entries + [e] <==> x in entries || x == e;
    forall user ensures JoinedBy(entries + [e], user) == JoinedBy(entries, user) + (if IsJoinOf(e, user) then {e.roomId} else {}) {
    }
  }

  // ----- the notifier -----

  class Notifier {
    var userToStream: ByUser
    var roomToStreams: ByRoom
    var pending: seq<Queue.Entry>
    /** The appends and flushes so far. */
    ghost var history: seq<Queue.Op>

    /** The rooms each registered stream lists. */
    ghost function Listed(): map<UserStream, set<string>>
      reads this`userToStream, userToStream.Values`rooms
    {
      map s | s in userToStream.Values :: s.rooms
    }

    ghost predicate IndexOk()
      reads this`userToStream, this`roomToStreams, userToStream.Values`rooms
    {
      Agrees(userToStream, roomToStreams, Listed())
    }

    ghost predicate ListenersOk()
      reads this`userToStream, userToStream.Values`listeners, userToStream.Values`issued, userToStream.Values`currentToken
      reads userToStream.Values`history
      reads set s, d | s in userToStream.Values && d in s.issued :: d
    {
      forall s :: s in userToStream.Values ==> s.ListenersOk()
    }

    ghost predicate QueueOk()
      reads this`pending, this`history
    {
      pending == Queue.Pending(history)
    }

    constructor ()
      ensures userToStream == map[] && roomToStreams == map[] && pending == [] && history == []
      ensures IndexOk() && ListenersOk() && QueueOk()
    {
      userToStream, roomToStreams, pending, history := map[], map[], [], [];
    }

    /** Adds a stream to the sets of some rooms, making the sets that do not exist yet. */
    method AddToRooms(stream: UserStream, rooms: set<string>)
      modifies this`roomToStreams
      ensures Added(old(roomToStreams), roomToStreams, stream, rooms)
    {
      var rest := rooms;
      while rest != {}
        invariant rest <= rooms && Added(old(roomToStreams), roomToStreams, stream, rooms - rest)
        decreases rest
      {
        var room :| room in rest;
        roomToStreams := roomToStreams[room := In(roomToStreams, room) + {stream}];
        rest := rest - {room};
      }
    }

    /**
     * _register_with_keys. The index stays right exactly when the user was not registered, or
     * their earlier stream listed no room: otherwise that stream is left behind in the room sets.
     */
    method Register(stream: UserStream)
      requires IndexOk() && stream !in userToStream.Values
      modifies this`userToStream, this`roomToStreams
      ensures userToStream == old(userToStream)[stream.userId := stream]
      ensures Added(old(roomToStreams), roomToStreams, stream, stream.rooms)
      ensures IndexOk() <==> (stream.userId !in old(userToStream) || old(userToStream)[stream.userId].rooms == {})
    {
      ghost var listed := Listed();
      userToStream := userToStream[stream.userId := stream];
      AddToRooms(stream, stream.rooms);
      assert userToStream[stream.userId] == stream;
      forall s | s in userToStream.Values && s != stream ensures s in listed && Listed()[s] == listed[s] {
        var u :| u in userToStream && userToStream[u] == s;
        assert old(userToStream)[u] == s;
      }
      if stream.userId in old(userToStream) && old(userToStream)[stream.userId].rooms != {} {
        RegisterOverBreaks(old(userToStream), old(roomToStreams), listed, stream, roomToStreams, Listed());
      } else {
        RegisterAgrees(old(userToStream), old(roomToStreams), listed, stream, roomToStreams, Listed());
      }
    }

    /** _user_joined_room: a registered stream learns that its user is now in the room. */
    method UserJoinedRoom(user: string, room: string)
      requires IndexOk()
      modifies this`roomToStreams, userToStream.Values`rooms
      ensures IndexOk()
      ensures user !in userToStream ==> roomToStreams == old(roomToStreams)
      ensures user in userToStream ==> userToStream[user].rooms == old(userToStream[user].rooms) + {room}
      ensures forall s :: s in userToStream.Values && (user in userToStream ==> s != userToStream[user]) ==> s.rooms == old(s.rooms)
    {
      if user in userToStream {
        var stream := userToStream[user];
        ghost var listed := Listed();
        AddToRooms(stream, {room});
        stream.rooms := stream.rooms + {room};
        JoinAgrees(userToStream, old(roomToStreams), listed, stream, room, roomToStreams);
        assert Listed() == listed[stream := listed[stream] + {room}];
      }
    }

    /** _NotifierUserStream.remove. */
    method Remove(stream: UserStream)
      requires IndexOk() && stream in userToStream.Values
      modifies this`userToStream, this`roomToStreams
      ensures IndexOk()
      ensures userToStream == old(userToStream) - {stream.userId}
      ensures userToStream.Values == old(userToStream.Values) - {stream}
    {
      ghost var listed := Listed();
      var rest := stream.rooms;
      while rest != {}
        invariant rest <= stream.rooms && userToStream == old(userToStream)
        invariant Dropped(old(roomToStreams), roomToStreams, stream, stream.rooms - rest)
        decreases rest
      {
        var room :| room in rest;
        var others := In(roomToStreams, room) - {stream};
        roomToStreams := if others == {} then roomToStreams - {room} else roomToStreams[room := others];
        rest := rest - {room};
      }
      userToStream := userToStream - {stream.userId};
      RemoveAgrees(old(userToStream), old(roomToStreams), listed, stream, roomToStreams);
      assert userToStream.Values == listed.Keys - {stream};
      assert Listed() == listed - {stream};
    }

    /** The streams with nobody listening and nothing announced within the expiry time. */
    ghost function Expired(nowMs: int): set<UserStream>
      reads this, userToStream.Values
    {
      set s | s in userToStream.Values && s.listeners == {} && s.lastNotifiedMs < nowMs - UNUSED_STREAM_EXPIRY_MS
    }

    /** remove_expired_streams: exactly the expired streams go, so nobody waiting is cut off. */
    method RemoveExpiredStreams(nowMs: int)
      requires IndexOk()
      modifies this`userToStream, this`roomToStreams
      ensures IndexOk()
      ensures userToStream.Values == old(userToStream.Values) - old(Expired(nowMs))
      ensures forall s :: s in old(userToStream.Values) ==>
                (s !in userToStream.Values <==> s.listeners == {} && nowMs - s.lastNotifiedMs > 10 * 60 * 1000)
    {
      var expired := set s | s in userToStream.Values && s.listeners == {} && s.lastNotifiedMs < nowMs - UNUSED_STREAM_EXPIRY_MS;
      ghost var all := expired;
      while expired != {}
        invariant IndexOk() && expired <= all
        invariant userToStream.Values == old(userToStream.Values) - (all - expired)
        decreases expired
      {
        var stream :| stream in expired;
        Remove(stream);
        expired := expired - {stream};
      }
    }

    // ----- waking -----

    /** The registered streams that a scan by user or by room selects. */
    ghost function Wakes(users: set<string>, rooms: set<string>): set<UserStream>
      reads this`userToStream, userToStream.Values`rooms
    {
      set s | s in userToStream.Values && (s.userId in users || Meets(s.rooms, rooms))
    }

    /** The streams on_new_event looks up in the two indexes: the same as a full scan would find. */
    method StreamsToWake(users: set<string>, rooms: set<string>) returns (streams: set<UserStream>)
      requires IndexOk()
      ensures streams == Wakes(users, rooms)
    {
      streams := {};
      var restUsers := users;
      while restUsers != {}
        invariant restUsers <= users
        invariant streams == set s | s in userToStream.Values && s.userId in users - restUsers
        decreases restUsers
      {
        var user :| user in restUsers;
        FoundByUser(userToStream, roomToStreams, Listed(), user);
        if user in userToStream {
          streams := streams + {userToStream[user]};
        }
        restUsers := restUsers - {user};
      }
      var restRooms := rooms;
      assert rooms - restRooms == {};
      while restRooms != {}
        invariant restRooms <= rooms
        invariant streams == set s | s in userToStream.Values && (s.userId in users || Meets(s.rooms, rooms - restRooms))
        decreases restRooms
      {
        var room :| room in restRooms;
        FoundByRoom(userToStream, roomToStreams, Listed(), room);
        ghost var before, done := streams, rooms - restRooms;
        streams := streams + In(roomToStreams, room);
        restRooms := restRooms - {room};
        assert rooms - restRooms == done + {room};
        forall s | s in userToStream.Values ensures Meets(s.rooms, done + {room}) <==> Meets(s.rooms, done) || s in In(roomToStreams, room) {
          MeetsMore(s.rooms, done, room);
          assert Listed()[s] == s.rooms;
        }
      }
    }

    /** Moves the given streams to the token, taking all their listeners. */
    method HandOut(streams: set<UserStream>, token: int, nowMs: int) returns (handed: set<Deferred>)
      requires streams <= userToStream.Values
      modifies streams
      ensures forall s :: s in streams ==> s.currentToken == token && s.lastNotifiedMs == nowMs && s.listeners == {}
      ensures forall s :: s in streams ==>
                s.rooms == old(s.rooms) && s.issued == old(s.issued) && s.history == old(s.history) + [Runs.Update(token)]
      ensures handed == set s, d | s in streams && d in old(s.listeners) :: d
    {
      ghost var before := map s | s in streams :: s.listeners;
      handed := {};
      var rest := streams;
      while rest != {}
        invariant rest <= streams
        invariant forall s :: s in streams - rest ==> s.currentToken == token && s.lastNotifiedMs == nowMs && s.listeners == {}
        invariant forall s :: s in streams ==> s.rooms == old(s.rooms) && s.issued == old(s.issued)
        invariant forall s :: s in rest ==> s.listeners == before[s] && s.history == old(s.history)
        invariant forall s :: s in streams - rest ==> s.history == old(s.history) + [Runs.Update(token)]
        invariant handed == set s, d | s in streams - rest && d in before[s] :: d
        decreases rest
      {
        var s :| s in rest;
        var fetched := s.UpdateAndFetch(token, nowMs);
        handed := handed + fetched;
        rest := rest - {s};
      }
    }

    method ResolveAll(handed: set<Deferred>, token: int)
      requires forall d :: d in handed ==> d.Waiting()
      modifies handed
      ensures forall d :: d in handed ==> d.result == Some(token) && !d.cancelled
    {
      var left := handed;
      while left != {}
        invariant left <= handed
        invariant forall d :: d in left ==> d.Waiting()
        invariant forall d :: d in handed - left ==> d.result == Some(token) && !d.cancelled
        decreases left
      {
        var d :| d in left;
        d.Callback(token);
        left := left - {d};
      }
    }

    /** Hands out and resolves every listener of the given streams. */
    method Wake(streams: set<UserStream>, token: int, nowMs: int)
      requires ListenersOk() && streams <= userToStream.Values
      modifies streams, set s, d | s in streams && d in s.listeners :: d
      ensures ListenersOk()
      ensures forall s :: s in streams ==> s.currentToken == token && s.lastNotifiedMs == nowMs && s.listeners == {}
      ensures forall s :: s in streams ==>
                s.rooms == old(s.rooms) && s.issued == old(s.issued) && s.history == old(s.history) + [Runs.Update(token)]
      ensures forall s, d :: s in streams && d in old(s.listeners) ==> d.result == Some(token)
    {
      var handed := HandOut(streams, token, nowMs);
      forall d | d in handed ensures d.Waiting() && d.stream in streams {
        var s :| s in streams && d in old(s.listeners);
        assert old(s.ListenersOk());
      }
      ResolveAll(handed, token);
      forall s | s in userToStream.Values ensures s.ListenersOk() {
        assert old(s.ListenersOk());
        if s in streams {
          UpdateTracks(s.startToken, old(s.history), old(s.currentToken), old(s.listeners), s.issued, token);
        }
      }
    }

    /**
     * on_new_event: wakes exactly the registered streams that a full scan by user or room selects,
     * resolving all their listeners with the current token, and leaves every other stream as it was.
     */
    method OnNewEvent(users: set<string>, rooms: set<string>, token: int, nowMs: int) returns (woken: set<UserStream>)
      requires IndexOk() && ListenersOk()
      modifies userToStream.Values, set s, d | s in userToStream.Values && d in s.listeners :: d
      ensures IndexOk() && ListenersOk()
      ensures woken == old(Wakes(users, rooms)) == Wakes(users, rooms)
      ensures Listed() == old(Listed())
      ensures forall s :: s in woken ==> s.currentToken == token && s.lastNotifiedMs == nowMs && s.listeners == {}
      ensures forall s :: s in userToStream.Values ==>
                s.history == old(s.history) + (if s in woken then [Runs.Update(token)] else [])
      ensures forall s, d :: s in woken && d in old(s.listeners) ==> d.result == Some(token)
      ensures forall s :: s in userToStream.Values ==> s.rooms == old(s.rooms) && s.issued == old(s.issued)
      ensures forall s :: s in userToStream.Values - woken ==>
                s.currentToken == old(s.currentToken) && s.lastNotifiedMs == old(s.lastNotifiedMs) && s.listeners == old(s.listeners)
    {
      hide ListenersOk;
      woken := {};
      if userToStream != map[] || roomToStreams != map[] {
        woken := StreamsToWake(users, rooms);
        ghost var listed := Listed();
        Wake(woken, token, nowMs);
        assert Listed() == listed;
      }
    }

    // ----- the queue -----

    /** notify_new_room_events queues an entry before anything else happens to it. */
    method AppendPending(entry: Queue.Entry)
      requires QueueOk()
      modifies this`pending, this`history
      ensures QueueOk()
      ensures pending == old(pending) + [entry] && history == old(history) + [Queue.Append(entry)]
    {
      pending := pending + [entry];
      history := history + [Queue.Append(entry)];
      assert history[..|history| - 1] == old(history);
    }

    /** What one delivered entry does to the index: a join adds the room to the user's stream. */
    method DeliverEntry(entry: Queue.Entry)
      requires IndexOk() && ListenersOk()
      modifies this`roomToStreams, userToStream.Values`rooms
      ensures IndexOk() && ListenersOk()
      ensures Listed() == Grown(old(Listed()), [entry])
    {
      hide ListenersOk;
      if entry.kind.Member? && entry.membership == Some(Join) && entry.stateKey.Some? && entry.stateKey.value != "" {
        FoundByUser(userToStream, roomToStreams, Listed(), entry.stateKey.value);
        UserJoinedRoom(entry.stateKey.value, entry.roomId);
      }
      forall s | s in userToStream.Values ensures s.rooms == old(s.rooms) + JoinedBy([entry], s.userId) {
        JoinedAppend([], entry, s.userId);
      }
    }

    /** The loop over the queue: covered entries are taken out and their joins recorded, the others stay. */
    method DrainQueue(maxToken: Queue.RoomToken) returns (users: set<string>, rooms: set<string>)
      requires IndexOk() && ListenersOk()
      modifies this`pending, this`roomToStreams, userToStream.Values`rooms
      ensures IndexOk() && ListenersOk()
      ensures pending == Queue.Kept(old(pending), maxToken)
      ensures var delivered := Queue.Delivered(old(pending), maxToken);
              users == ExtraUsers(delivered) && rooms == RoomsOf(delivered) && Listed() == Grown(old(Listed()), delivered)
    {
      hide IndexOk, ListenersOk, Listed, Agrees, Queue.Kept, Queue.Delivered, IsJoinOf, ExtraUsers, RoomsOf, JoinedBy, Grown, Queue.PersistedAfter;
      var queue := pending;
      pending := [];
      users, rooms := {}, {};
      ghost var delivered: seq<Queue.Entry>, listed := [], Listed();
      GrownNone(listed);
      Queue.FlushNone(queue, maxToken);
      for i := 0 to |queue|
        invariant IndexOk() && ListenersOk()
        invariant pending == Queue.Kept(queue[..i], maxToken) && delivered == Queue.Delivered(queue[..i], maxToken)
        invariant users == ExtraUsers(delivered) && rooms == RoomsOf(delivered)
        invariant Listed() == Grown(listed, delivered)
      {
        var entry := queue[i];
        Queue.FlushStep(queue, i, maxToken);
        if Queue.PersistedAfter(entry, maxToken) {
          pending := pending + [entry];
        } else {
          DeliverEntry(entry);
          OneMore(delivered, entry);
          GrownMore(listed, delivered, entry);
          users := users + entry.extraUsers;
          rooms := rooms + {entry.roomId};
          delivered := delivered + [entry];
        }
      }
      assert queue[..|queue|] == queue;
    }

    /** The registered stream of everyone whose join is among the entries is among the streams. */
    ghost predicate JoinersIn(entries: seq<Queue.Entry>, streams: set<UserStream>)
      reads this`userToStream
    {
      forall e, u :: e in entries && IsJoinOf(e, u) && u in userToStream ==> userToStream[u] in streams
    }

    /** A user whose join is among the entries lists a room among the rooms of the entries. */
    lemma JoinersInWakes(entries: seq<Queue.Entry>, listed: map<UserStream, set<string>>)
      requires IndexOk() && Listed() == Grown(listed, entries)
      ensures JoinersIn(entries, Wakes(ExtraUsers(entries), RoomsOf(entries)))
    {
      forall e, u | e in entries && IsJoinOf(e, u) && u in userToStream
        ensures userToStream[u] in Wakes(ExtraUsers(entries), RoomsOf(entries))
      {
        var s := userToStream[u];
        assert s in userToStream.Values && s in Listed();
        assert e.roomId in JoinedBy(entries, u) && e.roomId in RoomsOf(entries);
        assert e.roomId in s.rooms;
      }
    }

    /** Takes the covered entries out of the queue: those whose first covering flush this is. */
    method FlushQueue(maxToken: Queue.RoomToken) returns (users: set<string>, rooms: set<string>)
      requires IndexOk() && ListenersOk() && QueueOk()
      modifies this`pending, this`history, this`roomToStreams, userToStream.Values`rooms
      ensures IndexOk() && ListenersOk() && QueueOk()
      ensures pending == Queue.Kept(old(pending), maxToken) && history == old(history) + [Queue.Flush(maxToken)]
      ensures var delivered := Queue.Delivered(old(pending), maxToken);
              && users == ExtraUsers(delivered) && rooms == RoomsOf(delivered) && Listed() == Grown(old(Listed()), delivered)
              && JoinersIn(delivered, Wakes(users, rooms))
      ensures var q := |old(history)|;
              && Queue.Appends(history, Queue.DeliveredAt(history, q))
              && Queue.Delivered(old(pending), maxToken) == Queue.EntriesAt(history, Queue.DeliveredAt(history, q))
    {
      hide IndexOk, ListenersOk, Listed, Agrees, ExtraUsers, RoomsOf, JoinedBy, Grown, Wakes, JoinersIn;
      hide Queue.Pending, Queue.Kept, Queue.Delivered, Queue.Appends, Queue.DeliveredAt, Queue.EntriesAt;
      ghost var delivered, listed := Queue.Delivered(pending, maxToken), Listed();
      users, rooms := DrainQueue(maxToken);
      history := history + [Queue.Flush(maxToken)];
      Queue.OneMoreFlush(old(history), maxToken);
      JoinersInWakes(delivered, listed);
    }

    /**
     * _notify_pending_new_room_events: delivers exactly the covered entries. Every registered stream
     * concerned by a delivered entry is woken, including that of a user whose join is among them.
     */
    method NotifyPending(maxToken: Queue.RoomToken, token: int, nowMs: int) returns (woken: set<UserStream>)
      requires IndexOk() && ListenersOk() && QueueOk()
      modifies this`pending, this`history, this`roomToStreams, userToStream.Values
      modifies set s, d | s in userToStream.Values && d in s.listeners :: d
      ensures IndexOk() && ListenersOk() && QueueOk()
      ensures pending == Queue.Kept(old(pending), maxToken) && history == old(history) + [Queue.Flush(maxToken)]
      ensures var delivered := Queue.Delivered(old(pending), maxToken);
              && Listed() == Grown(old(Listed()), delivered)
              && woken == Wakes(ExtraUsers(delivered), RoomsOf(delivered))
              && JoinersIn(delivered, woken)
      ensures var q := |old(history)|;
              && Queue.Appends(history, Queue.DeliveredAt(history, q))
              && Queue.Delivered(old(pending), maxToken) == Queue.EntriesAt(history, Queue.DeliveredAt(history, q))
      ensures forall s :: s in woken ==> s.currentToken == token && s.lastNotifiedMs == nowMs && s.listeners == {}
      ensures forall s, d :: s in woken && d in old(s.listeners) ==> d.result == Some(token)
      ensures forall s :: s in userToStream.Values ==>
                s.issued == old(s.issued) && s.history == old(s.history) + (if s in woken then [Runs.Update(token)] else [])
      ensures forall s :: s in userToStream.Values - woken ==>
                s.currentToken == old(s.currentToken) && s.lastNotifiedMs == old(s.lastNotifiedMs) && s.listeners == old(s.listeners)
    {
      hide IndexOk, ListenersOk, QueueOk, Listed, Agrees, JoinersIn, ExtraUsers, RoomsOf, JoinedBy, Grown;
      hide Queue.Kept, Queue.Delivered, Queue.Appends, Queue.DeliveredAt, Queue.EntriesAt;
      var users, rooms := FlushQueue(maxToken);
      if users != {} || rooms != {} {
        woken := OnNewEvent(users, rooms, token, nowMs);
      } else {
        woken := {};
        assert Wakes({}, {}) == {};
      }
    }
  }
}

/** The life of one connection (`WebSocketHandler.handle`): registration in the
    process-wide registry, the dispatch of inbound messages, the asynchronous
    transcription passes, and the teardown when the message loop ends.

    A scheduled pass records the chunk list at the moment it is scheduled. Its
    task reads the list again when it starts, by which time more chunks may
    have arrived, so it runs over some longer-or-equal prefix of the current
    list. Starting and finishing are merged into one atomic step, which
    happens later, in any order relative to other passes and messages. */
module Connection {
  import opened Wrappers
  import opened Files
  import opened Chunks
  import opened WhisperCache
  import opened StreamSession

  /** An inbound message after `json.loads`. */
  datatype Message =
    | Config(model: Option<string>, language: Option<Option<string>>)
    | AudioChunk(data: Option<string>)
    | Stop
      /** Any other `type` field, or none. */
    | OtherType
      /** Text that is not JSON. */
    | InvalidJson
      /** JSON that is not an object: `data.get` raises, which ends the loop. */
    | NotAnObject

  /** Process-wide state: the filesystem, the shared model cache and the ids in
      `active_connections`. */
  datatype World = World(fs: Fs, service: Service, active: set<string>)

  /** One connection: its session, the snapshots of passes in flight, the events
      sent so far, and whether the message loop is still running. */
  datatype Conn = Conn(session: Session, pending: seq<seq<Path>>, sent: seq<Event>, open: bool)

  datatype State = State(world: World, conn: Conn)

  /** Events reach the client only while the connection is open. */
  function Send(c: Conn, events: seq<Event>): (r: Conn)
    ensures r.session == c.session && r.pending == c.pending && r.open == c.open
    ensures r.sent == if c.open then c.sent + events else c.sent
  {
    if c.open then c.(sent := c.sent + events) else c
  }

  /** A new connection: the session is created, registered under its id, and
      greets the client with a `Connected` status. */
  function Connect(w: World, id: string, tempDir: string): (r: State)
    ensures r.world.active == w.active + {id} && r.world.service == w.service
    ensures r.conn.open && r.conn.pending == [] && r.conn.sent == [Status("Connected")]
    ensures r.conn.session == NewSession(id, tempDir, w.fs).session
    ensures r.world.fs == NewSession(id, tempDir, w.fs).fs
  {
    var created := NewSession(id, tempDir, w.fs);
    State(World(created.fs, w.service, w.active + {id}), Conn(created.session, [], [Status("Connected")], true))
  }

  /** The `finally` block of `handle`: clean up, then remove the id from the
      registry if it is still there. */
  function EndSession(st: State): (r: State)
    ensures r.world.active == st.world.active - {st.conn.session.id}
    ensures r.world.fs == Cleanup(st.world.fs, st.conn.session)
    ensures r.world.service == st.world.service
    ensures !r.conn.open && r.conn.session == st.conn.session
    ensures r.conn.pending == st.conn.pending && r.conn.sent == st.conn.sent
  {
    var id := st.conn.session.id;
    var active := if id in st.world.active then st.world.active - {id} else st.world.active;
    State(st.world.(fs := Cleanup(st.world.fs, st.conn.session), active := active), st.conn.(open := false))
  }

  /** One inbound message handled by the loop in `handle`. */
  function Receive(env: Env, st: State, msg: Message): (r: State)
    requires st.conn.open
    ensures msg.OtherType? ==> r == st
    ensures msg.InvalidJson? ==>
              r == State(st.world, st.conn.(sent := st.conn.sent + [Error("Invalid JSON message")]))
    ensures msg.NotAnObject? ==> r == EndSession(st)
    ensures !msg.NotAnObject? ==> r.conn.open && r.world.active == st.world.active
    ensures !msg.AudioChunk? ==> r.conn.pending == st.conn.pending
    ensures msg.AudioChunk? ==>
              var o := HandleAudioChunk(env, st.world.fs, st.conn.session, msg.data);
              && r.conn.session == o.session
              && r.world == st.world.(fs := o.fs) && r.conn.sent == st.conn.sent + o.events
              && r.conn.pending == st.conn.pending + (if o.scheduled.Some? then [o.scheduled.value] else [])
    ensures msg.Config? ==>
              var o := HandleConfig(st.conn.session, st.world.service, env.load, msg.model, msg.language);
              && r.conn.session == o.session && r.world.service == o.service
              && r.world.fs == st.world.fs && r.conn.sent == st.conn.sent + [o.event]
    ensures msg.Stop? ==>
              var o := HandleStop(env, st.world.fs, st.world.service, st.conn.session);
              && r.conn.session == o.session && r.world.service == o.service
              && r.world.fs == o.fs && r.conn.sent == st.conn.sent + o.events
    ensures r.conn.session.id == st.conn.session.id && r.conn.session.tempDir == st.conn.session.tempDir
    ensures ChunksWellFormed(st.conn.session) ==> ChunksWellFormed(r.conn.session)
    ensures Valid(st.world.service) ==> Valid(r.world.service)
  {
    var w, c := st.world, st.conn;
    match msg
    case Config(model, language) =>
      var o := HandleConfig(c.session, w.service, env.load, model, language);
      State(w.(service := o.service), Send(c.(session := o.session), [o.event]))
    case AudioChunk(data) => ReceiveChunk(env, st, data)
    case Stop =>
      var o := HandleStop(env, w.fs, w.service, c.session);
      State(w.(fs := o.fs, service := o.service), Send(c.(session := o.session), o.events))
    case OtherType => st
    case InvalidJson => State(w, Send(c, [Error("Invalid JSON message")]))
    case NotAnObject => EndSession(st)
  }

  /** An `audio_chunk` message: the chunk is handled, a scheduled pass joins
      the set in flight, and the events are sent. When the payload decodes and
      the directory exists, the chunk counts once and schedules a pass exactly
      when the new count triggers. */
  function ReceiveChunk(env: Env, st: State, data: Option<string>): (r: State)
    requires st.conn.open
    ensures var o := HandleAudioChunk(env, st.world.fs, st.conn.session, data);
            && r.conn.session == o.session
            && r.world == st.world.(fs := o.fs) && r.conn.sent == st.conn.sent + o.events
            && r.conn.pending == st.conn.pending + (if o.scheduled.Some? then [o.scheduled.value] else [])
            && r.conn.open && r.world.active == st.world.active
    ensures ChunkAccepted(env, st.world.fs, st.conn.session, data) ==>
            var c := st.conn.session.chunkCount;
            && r.conn.session.chunkCount == c + 1
            && |r.conn.pending| == |st.conn.pending| + TriggerCount(c + 1) - TriggerCount(c)
            && r.conn.session.tempDir in r.world.fs.dirs
  {
    var w, c := st.world, st.conn;
    var o := HandleAudioChunk(env, w.fs, c.session, data);
    var pending := c.pending + (if o.scheduled.Some? then [o.scheduled.value] else []);
    State(w.(fs := o.fs), Send(c.(session := o.session, pending := pending), o.events))
  }

  /** Pass number `i` in flight runs over the first `upto` chunks, at least as
      many as when it was scheduled, with the session's state at that time.
      Passes are not cancelled when the connection ends; what they send then
      is lost. */
  function CompletePass(env: Env, st: State, i: nat, upto: nat): (r: State)
    requires i < |st.conn.pending| && |st.conn.pending[i]| <= upto <= |st.conn.session.chunks|
    ensures r.conn.pending == st.conn.pending[..i] + st.conn.pending[i + 1..]
    ensures r.conn.open == st.conn.open && r.world.active == st.world.active
    ensures r.conn.session.chunks == st.conn.session.chunks
    ensures r.conn.session.chunkCount == st.conn.session.chunkCount
    ensures |r.conn.sent| <= |st.conn.sent| + 1
    ensures var o := RunPass(env, st.world.fs, st.world.service, st.conn.session, st.conn.session.chunks[..upto]);
            && r.world == st.world.(fs := o.fs, service := o.service)
            && r.conn.session == o.session
            && r.conn.sent == (if st.conn.open then st.conn.sent + o.events else st.conn.sent)
    ensures ChunksWellFormed(st.conn.session) ==> ChunksWellFormed(r.conn.session)
    ensures Valid(st.world.service) ==> Valid(r.world.service)
  {
    var w, c := st.world, st.conn;
    var o := RunPass(env, w.fs, w.service, c.session, c.session.chunks[..upto]);
    var rest := c.pending[..i] + c.pending[i + 1..];
    State(w.(fs := o.fs, service := o.service), Send(c.(session := o.session, pending := rest), o.events))
  }

  /** The transport closes (or raises) and the loop ends: the id is no longer
      registered, no file of the session is left, nothing more is sent, and the
      invariant still holds. */
  function Disconnect(st: State): (r: State)
    requires st.conn.open
    ensures !r.conn.open && r.world.active == st.world.active - {st.conn.session.id}
    ensures r.world.fs == Cleanup(st.world.fs, st.conn.session)
    ensures forall p :: p in st.conn.session.chunks ==> p !in r.world.fs.files
    ensures CombinedPath(st.conn.session.tempDir) !in r.world.fs.files
    ensures r.conn.sent == st.conn.sent && r.world.service == st.world.service
    ensures Inv(st) ==> Inv(r)
  {
    EndSession(st)
  }

  /** Connecting registers the id; ending removes it and leaves every other
      registered id in place. */
  lemma RegistryLifecycle(w: World, id: string, tempDir: string)
    ensures var st := Connect(w, id, tempDir);
            && id in st.world.active
            && id !in EndSession(st).world.active
            && EndSession(st).world.active == w.active - {id}
  {
  }

  /** The cleanup in `finally` after a `stop` changes nothing on disk. */
  lemma StopThenDisconnect(env: Env, st: State)
    requires st.conn.open
    ensures var stopped := Receive(env, st, Stop);
            Disconnect(stopped).world.fs == stopped.world.fs
  {
    var o := HandleStop(env, st.world.fs, st.world.service, st.conn.session);
    var p := if |st.conn.session.chunks| > 0
             then RunPass(env, st.world.fs, st.world.service, st.conn.session, st.conn.session.chunks)
             else PassOutcome(st.conn.session, st.world.fs, st.world.service, []);
    assert o.fs == Cleanup(p.fs, st.conn.session);
    CleanupIdempotent(p.fs, st.conn.session);
  }

  /** The connection invariant: chunk files are numbered in order, only known
      model names are cached, every pass in flight holds a non-empty prefix of
      the chunk list, passes scheduled later hold strictly more chunks, and an
      ended connection is no longer registered. */
  predicate Inv(st: State)
  {
    && ChunksWellFormed(st.conn.session)
    && Valid(st.world.service)
    && InFlight(st.conn.pending, st.conn.session.chunks)
    && (!st.conn.open ==> st.conn.session.id !in st.world.active)
  }

  lemma ConnectEstablishesInv(w: World, id: string, tempDir: string)
    requires Valid(w.service)
    ensures Inv(Connect(w, id, tempDir))
  {
  }

  /** One step of a connection's life. */
  datatype Step = Deliver(msg: Message) | Finish(pass: nat, upto: nat) | Close

  /** Applies one step; a message or close after the loop has ended, or a pass
      that is not in flight or a chunk count it cannot see, changes nothing. */
  function Apply(env: Env, st: State, step: Step): State
  {
    match step
    case Deliver(msg) => if st.conn.open then Receive(env, st, msg) else st
    case Finish(i, n) =>
      if i < |st.conn.pending| && |st.conn.pending[i]| <= n <= |st.conn.session.chunks|
      then CompletePass(env, st, i, n) else st
    case Close => if st.conn.open then Disconnect(st) else st
  }

  function Run(env: Env, st: State, steps: seq<Step>): State
    decreases |steps|
  {
    if |steps| == 0 then st else Run(env, Apply(env, st, steps[0]), steps[1..])
  }

  /** A message keeps the invariant. */
  lemma ReceivePreservesInv(env: Env, st: State, msg: Message)
    requires Inv(st) && st.conn.open
    ensures Inv(Receive(env, st, msg))
  {
    var r := Receive(env, st, msg);
    if msg.AudioChunk? {
      var o := HandleAudioChunk(env, st.world.fs, st.conn.session, msg.data);
      if o.scheduled.Some? {
        assert r.conn.session.chunks == st.conn.session.chunks + [o.session.chunks[|o.session.chunks| - 1]];
        assert forall k :: 0 <= k < |st.conn.pending| ==> st.conn.pending[k] <= r.conn.session.chunks;
        assert forall k :: 0 <= k < |st.conn.pending| ==> |st.conn.pending[k]| < |r.conn.session.chunks|;
        assert r.conn.pending[|r.conn.pending| - 1] == r.conn.session.chunks;
      }
    }
  }

  /** A pass completing keeps the invariant. */
  lemma CompletePreservesInv(env: Env, st: State, i: nat, upto: nat)
    requires Inv(st) && i < |st.conn.pending| && |st.conn.pending[i]| <= upto <= |st.conn.session.chunks|
    ensures Inv(CompletePass(env, st, i, upto))
  {
    var r := CompletePass(env, st, i, upto);
    InFlightWithout(st.conn.pending, i, st.conn.session.chunks);
    assert r.conn.session.chunks == st.conn.session.chunks;
  }

  /** Whether passes in flight are non-empty prefixes of the chunk list, later
      ones strictly longer. */
  predicate InFlight(pending: seq<seq<Path>>, chunks: seq<Path>)
  {
    && (forall k :: 0 <= k < |pending| ==> |pending[k]| > 0 && pending[k] <= chunks)
    && (forall j, k :: 0 <= j < k < |pending| ==> |pending[j]| < |pending[k]|)
  }

  /** Taking one pass out of the set in flight keeps the others in order. */
  lemma InFlightWithout(p: seq<seq<Path>>, i: nat, chunks: seq<Path>)
    requires i < |p| && InFlight(p, chunks)
    ensures InFlight(p[..i] + p[i + 1..], chunks)
  {
    var q := p[..i] + p[i + 1..];
    assert |q| == |p| - 1;
    forall k | 0 <= k < |q|
      ensures |q[k]| > 0 && q[k] <= chunks
    {
      var m := if k < i then k else k + 1;
      assert q[k] == p[m];
    }
    forall j, k | 0 <= j < k < |q|
      ensures |q[j]| < |q[k]|
    {
      var mj := if j < i then j else j + 1;
      var mk := if k < i then k else k + 1;
      assert q[j] == p[mj] && q[k] == p[mk] && mj < mk;
    }
  }

  /** Every run of steps keeps the invariant. */
  lemma {:induction false} RunPreservesInv(env: Env, st: State, steps: seq<Step>)
    requires Inv(st)
    ensures Inv(Run(env, st, steps))
    decreases |steps|
  {
    if |steps| > 0 {
      var next := Apply(env, st, steps[0]);
      match steps[0] {
        case Deliver(msg) => if st.conn.open { ReceivePreservesInv(env, st, msg); }
        case Finish(i, n) =>
          if i < |st.conn.pending| && |st.conn.pending[i]| <= n <= |st.conn.session.chunks| {
            CompletePreservesInv(env, st, i, n);
          }
        case Close =>
      }
      RunPreservesInv(env, next, steps[1..]);
    }
  }

  /** Feeds a series of `audio_chunk` messages. */
  function FeedChunks(env: Env, st: State, datas: seq<string>): State
    requires st.conn.open
    decreases |datas|
  {
    if |datas| == 0 then st
    else
      FeedChunks(env, ReceiveChunk(env, st, Some(datas[0])), datas[1..])
  }

  /** Whether every chunk's payload decodes. */
  predicate PayloadsDecode(env: Env, datas: seq<string>)
  {
    forall d :: d in datas ==> env.b64decode(Payload(d)).Success?
  }

  /** When every chunk is stored, n chunks after c earlier ones schedule one
      pass for each count in c+1..c+n that triggers. */
  lemma {:induction false} FeedChunksSchedules(env: Env, st: State, datas: seq<string>)
    requires st.conn.open && st.conn.session.tempDir in st.world.fs.dirs
    requires PayloadsDecode(env, datas)
    ensures var r := FeedChunks(env, st, datas);
            var c := st.conn.session.chunkCount;
            && r.conn.session.chunkCount == c + |datas|
            && |r.conn.pending| == |st.conn.pending| + TriggerCount(c + |datas|) - TriggerCount(c)
            && r.conn.open && r.conn.session.tempDir in r.world.fs.dirs
    decreases |datas|
  {
    if |datas| > 0 {
      var next := ReceiveChunk(env, st, Some(datas[0]));
      assert datas[0] in datas;
      StoredChunkSchedules(env, st, datas[0]);
      assert PayloadsDecode(env, datas[1..]) by {
        assert forall d :: d in datas[1..] ==> d in datas;
      }
      FeedChunksSchedules(env, next, datas[1..]);
    }
  }

  /** One stored chunk counts once, keeps the directory and adds a pass exactly
      when the new count triggers. */
  lemma StoredChunkSchedules(env: Env, st: State, d: string)
    requires st.conn.open && st.conn.session.tempDir in st.world.fs.dirs
    requires env.b64decode(Payload(d)).Success?
    ensures var r := ReceiveChunk(env, st, Some(d));
            var c := st.conn.session.chunkCount;
            && r.conn.session.chunkCount == c + 1
            && |r.conn.pending| == |st.conn.pending| + TriggerCount(c + 1) - TriggerCount(c)
            && r.conn.open && r.conn.session.tempDir in r.world.fs.dirs
  {
    assert ChunkAccepted(env, st.world.fs, st.conn.session, Some(d));
  }

  /** From a fresh connection, n stored chunks schedule 1 + n div 3 passes
      (at chunks 1, 3, 6, 9, ...). */
  lemma FreshFeedSchedules(env: Env, w: World, id: string, tempDir: string, datas: seq<string>)
    requires |datas| > 0
    requires PayloadsDecode(env, datas)
    ensures |FeedChunks(env, Connect(w, id, tempDir), datas).conn.pending| == 1 + |datas| / 3
  {
    FeedChunksSchedules(env, Connect(w, id, tempDir), datas);
    TriggerCountClosedForm(|datas|);
  }
}

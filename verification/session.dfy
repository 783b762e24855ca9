/** One streaming transcription session (`WebSocketHandler`): its state, and
    the handlers for the `config`, `audio_chunk` and `stop` messages, the
    transcription pass with its de-duplication of emitted text, and cleanup. */
module StreamSession {
  import opened Wrappers
  import opened Text
  import opened Files
  import opened Chunks
  import opened WhisperCache

  /** The foreign capabilities a session calls: base64 decoding, audio decoding,
      WAV export, model loading and inference. Each is opaque. */
  datatype Env = Env(
    b64decode: string -> Result<Bytes>,
    decode: Decoder,
    toWav: Audio -> Bytes,
    load: Loader,
    infer: Inference)

  /** The messages a session sends to its client. */
  datatype Event = Status(message: string) | TranscriptionEvent(text: string) | Error(message: string)

  datatype Session = Session(
    id: string,
    tempDir: string,
    chunks: seq<Path>,
    chunkCount: nat,
    modelName: string,
    language: Option<string>,
    isStreaming: bool,
    lastTranscription: string)

  /** Chunk i is stored as `chunk_i.webm` in the session's directory, and the
      count is the number of stored chunks. */
  predicate ChunksWellFormed(s: Session)
  {
    && |s.chunks| == s.chunkCount
    && forall i :: 0 <= i < |s.chunks| ==> s.chunks[i] == ChunkPath(s.tempDir, i)
  }

  /** The stored chunk paths of a well-formed session are pairwise distinct and
      never the combined file. */
  lemma ChunkPathsDistinct(s: Session)
    requires ChunksWellFormed(s)
    ensures forall i, j :: 0 <= i < j < |s.chunks| ==> s.chunks[i] != s.chunks[j]
    ensures CombinedPath(s.tempDir) !in s.chunks
  {
    forall i, j | 0 <= i < j < |s.chunks|
      ensures s.chunks[i] != s.chunks[j]
    {
      if s.chunks[i] == s.chunks[j] {
        ChunkNameInjective(i, j);
      }
    }
    forall i | 0 <= i < |s.chunks|
      ensures s.chunks[i] != CombinedPath(s.tempDir)
    {
      ChunkNameNotCombined(i);
    }
  }

  datatype Created = Created(session: Session, fs: Fs)

  /** The constructor: a fresh id and a fresh scratch directory (both chosen by
      the caller, as `uuid4` and `mkdtemp` choose them), no chunks, the default
      model, no language and nothing transcribed yet. */
  function NewSession(id: string, tempDir: string, fs: Fs): (r: Created)
    ensures r.session.id == id && r.session.tempDir == tempDir
    ensures r.session.chunks == [] && r.session.chunkCount == 0
    ensures r.session.modelName == "base" && r.session.language == None
    ensures !r.session.isStreaming && r.session.lastTranscription == ""
    ensures ChunksWellFormed(r.session)
    ensures r.fs.files == fs.files && r.fs.dirs == fs.dirs + {tempDir}
  {
    Created(Session(id, tempDir, [], 0, DefaultModel, None, false, ""), MakeDirs(fs, tempDir))
  }

  datatype ConfigOutcome = ConfigOutcome(session: Session, service: Service, event: Event)

  /** `handle_config`: record the model name and the language for the keys that
      are present (`language` may be present and null), then try to load the
      recorded model. The name is recorded even when the load fails; either way
      one event is sent and the session goes on. */
  function HandleConfig(s: Session, svc: Service, load: Loader,
                        model: Option<string>, language: Option<Option<string>>): (r: ConfigOutcome)
    ensures r.session == s.(modelName := if model.Some? then model.value else s.modelName,
                            language := if language.Some? then language.value else s.language)
    ensures r.service == LoadModel(svc, r.session.modelName, load).service
    ensures r.event.Status? <==> LoadModel(svc, r.session.modelName, load).model.Success?
    ensures r.event.Status? ==> r.event.message == "Model '" + r.session.modelName + "' loaded"
    ensures r.event.Error? ==>
              r.event.message == "Failed to load model: " + LoadModel(svc, r.session.modelName, load).model.error
    ensures !r.event.TranscriptionEvent?
  {
    var s1 := if model.Some? then s.(modelName := model.value) else s;
    var s2 := if language.Some? then s1.(language := language.value) else s1;
    var l := LoadModel(svc, s2.modelName, load);
    match l.model
    case Success(_) => ConfigOutcome(s2, l.service, Status("Model '" + s2.modelName + "' loaded"))
    case Failure(e) => ConfigOutcome(s2, l.service, Error("Failed to load model: " + e))
  }

  /** The base64 text of an `audio_chunk`: a data URL `header,payload` loses its
      header; precisely, the field between the first comma and the next one
      (or the end) is kept, as `split(',')[1]` does. */
  function Payload(data: string): (r: string)
    ensures ',' !in data ==> r == data
    ensures ',' !in r
    ensures ',' in data ==> |r| < |data|
  {
    if ',' in data then
      SplitAtFirst(data, ',');
      FirstField(data[IndexOf(data, ',') + 1..]);
      Split(data, ",")[1]
    else data
  }

  /** The first field of a comma split: the longest comma-free prefix. */
  lemma FirstField(t: string)
    ensures var r := Split(t, [','])[0];
            && |r| <= |t| && r == t[..|r|] && ',' !in r
            && (|r| == |t| || t[|r|] == ',')
  {
    if ',' in t {
      SplitAtFirst(t, ',');
    } else {
      SplitNone(t, ',');
    }
  }

  /** The payload is the whole string without a comma, and otherwise exactly the
      comma-free field that follows the first comma. */
  lemma PayloadField(data: string)
    ensures ',' !in data ==> Payload(data) == data
    ensures ',' in data ==>
              var i := IndexOf(data, ',');
              var r := Payload(data);
              && i + 1 + |r| <= |data|
              && r == data[i + 1..i + 1 + |r|]
              && ',' !in r
              && (i + 1 + |r| == |data| || data[i + 1 + |r|] == ',')
  {
    if ',' in data {
      PayloadAfterComma(data);
      FirstField(data[IndexOf(data, ',') + 1..]);
    }
  }

  /** With a comma present, the payload is the first field of what follows it. */
  lemma PayloadAfterComma(data: string)
    requires ',' in data
    ensures Payload(data) == Split(data[IndexOf(data, ',') + 1..], [','])[0]
  {
    SplitAtFirst(data, ',');
  }

  /** The state after an `audio_chunk`, the events sent, and the snapshot of the
      chunk list handed to a new pass, if one was scheduled. */
  datatype ChunkOutcome = ChunkOutcome(session: Session, fs: Fs, events: seq<Event>, scheduled: Option<seq<Path>>)

  const ChunkErrorPrefix: string := "Error processing audio chunk: "

  /** Whether a chunk with this `data` field is stored: the field is present, its
      payload is valid base64 and the session's directory still exists. */
  predicate ChunkAccepted(env: Env, fs: Fs, s: Session, data: Option<string>)
  {
    data.Some? && env.b64decode(Payload(data.value)).Success? && s.tempDir in fs.dirs
  }

  /** `handle_audio_chunk`: decode the payload, store it as the next chunk file,
      append its path and count it, and schedule a pass when the new count
      triggers one. Any failure sends exactly one error event and changes nothing. */
  function HandleAudioChunk(env: Env, fs: Fs, s: Session, data: Option<string>): (r: ChunkOutcome)
    ensures ChunkAccepted(env, fs, s, data) ==>
              && r.session == s.(chunks := s.chunks + [ChunkPath(s.tempDir, s.chunkCount)],
                                 chunkCount := s.chunkCount + 1)
              && r.fs.files == fs.files[ChunkPath(s.tempDir, s.chunkCount) := env.b64decode(Payload(data.value)).value]
              && r.fs.dirs == fs.dirs
              && r.events == []
    ensures !ChunkAccepted(env, fs, s, data) ==>
              && r.session == s && r.fs == fs && r.scheduled == None
    ensures data.None? ==> r.events == [Error(ChunkErrorPrefix + "'data'")]
    ensures data.Some? && env.b64decode(Payload(data.value)).Failure? ==>
              r.events == [Error(ChunkErrorPrefix + env.b64decode(Payload(data.value)).error)]
    ensures data.Some? && env.b64decode(Payload(data.value)).Success? && s.tempDir !in fs.dirs ==>
              r.events == [Error(ChunkErrorPrefix + NotFound(ChunkPath(s.tempDir, s.chunkCount)))]
    ensures r.scheduled.Some? <==> ChunkAccepted(env, fs, s, data) && ShouldTrigger(s.chunkCount + 1)
    ensures r.scheduled.Some? ==> r.scheduled.value == r.session.chunks
    ensures ChunksWellFormed(s) ==> ChunksWellFormed(r.session)
  {
    match data
    case None => ChunkOutcome(s, fs, [Error(ChunkErrorPrefix + "'data'")], None)
    case Some(d) =>
      match env.b64decode(Payload(d))
      case Failure(e) => ChunkOutcome(s, fs, [Error(ChunkErrorPrefix + e)], None)
      case Success(bytes) =>
        var path := ChunkPath(s.tempDir, s.chunkCount);
        match WriteFile(fs, path, bytes)
        case Failure(e) => ChunkOutcome(s, fs, [Error(ChunkErrorPrefix + e)], None)
        case Success(fs1) =>
          var s1 := s.(chunks := s.chunks + [path], chunkCount := s.chunkCount + 1);
          ChunkOutcome(s1, fs1, [], if ShouldTrigger(s1.chunkCount) then Some(s1.chunks) else None)
  }

  /** The last emitted text and the transcription event to send, if any. */
  datatype Emit = Emit(last: string, event: Option<Event>)

  /** De-duplication of pass results: the stripped text is sent, and remembered,
      only when it is non-empty and differs from the last text sent. */
  function Dedup(last: string, raw: string): (r: Emit)
    ensures r.event.Some? <==> PyStrip(raw) != "" && PyStrip(raw) != last
    ensures r.event.Some? ==> r.event.value == TranscriptionEvent(r.last) && r.last == PyStrip(raw)
    ensures r.event.None? ==> r.last == last
  {
    var text := PyStrip(raw);
    if text != "" && text != last then Emit(text, Some(TranscriptionEvent(text))) else Emit(last, None)
  }

  /** A result that was just sent is not sent again. */
  lemma DedupSuppressesRepeat(last: string, raw: string)
    ensures Dedup(Dedup(last, raw).last, raw).event == None
  {
  }

  /** The texts sent for a series of pass results, starting from `last`. */
  function EmitAll(last: string, raws: seq<string>): seq<string>
    decreases |raws|
  {
    if |raws| == 0 then []
    else
      var e := Dedup(last, raws[0]);
      (if e.event.Some? then [e.last] else []) + EmitAll(e.last, raws[1..])
  }

  /** The last text remembered after a series of pass results. */
  function LastAfter(last: string, raws: seq<string>): string
    decreases |raws|
  {
    if |raws| == 0 then last else LastAfter(Dedup(last, raws[0]).last, raws[1..])
  }

  /** Over any series of pass results, the texts sent are non-empty, the first
      differs from the text remembered before, consecutive ones differ, and the
      remembered text ends as the last one sent. */
  lemma {:induction false} EmitAllNoRepeats(last: string, raws: seq<string>)
    ensures var out := EmitAll(last, raws);
            && (forall k :: 0 <= k < |out| ==> out[k] != "")
            && (|out| > 0 ==> out[0] != last)
            && (forall k :: 0 < k < |out| ==> out[k - 1] != out[k])
            && LastAfter(last, raws) == (if |out| == 0 then last else out[|out| - 1])
    decreases |raws|
  {
    if |raws| > 0 {
      var e := Dedup(last, raws[0]);
      var rest := EmitAll(e.last, raws[1..]);
      EmitAllNoRepeats(e.last, raws[1..]);
      assert LastAfter(last, raws) == LastAfter(e.last, raws[1..]);
      if e.event.Some? {
        assert EmitAll(last, raws) == [e.last] + rest;
        assert e.last != "" && e.last != last;
        ConsCoherent(e.last, rest);
      } else {
        assert EmitAll(last, raws) == rest;
        assert e.last == last;
      }
    }
  }

  /** Putting a text in front of a series that starts with a different text
      keeps consecutive texts different and the last text in place. */
  lemma ConsCoherent(x: string, rest: seq<string>)
    requires forall k :: 0 < k < |rest| ==> rest[k - 1] != rest[k]
    requires |rest| > 0 ==> rest[0] != x
    requires x != "" && forall k :: 0 <= k < |rest| ==> rest[k] != ""
    ensures var out := [x] + rest;
            && (forall k :: 0 <= k < |out| ==> out[k] != "")
            && (forall k :: 0 < k < |out| ==> out[k - 1] != out[k])
            && out[|out| - 1] == (if |rest| == 0 then x else rest[|rest| - 1])
  {
    var out := [x] + rest;
    forall k | 0 < k < |out| ensures out[k - 1] != out[k] {
      assert out[k] == rest[k - 1];
      if k > 1 {
        assert out[k - 1] == rest[k - 2];
      }
    }
  }

  datatype PassOutcome = PassOutcome(session: Session, fs: Fs, service: Service, events: seq<Event>)

  const PassErrorPrefix: string := "Error transcribing audio: "

  /** What transcribing the recording `wav` in a pass does, spelled out from the
      model cache and the inference: the session's model is loaded (or taken
      from the cache) and run with the streaming options; a failed load or a
      failed inference sends one error and leaves the session alone; otherwise
      the stripped text is sent, and remembered, exactly when it is non-empty
      and differs from the text sent last, and nothing is sent otherwise. */
  predicate Transcribed(env: Env, svc: Service, s: Session, wav: Bytes, r: PassOutcome)
  {
    var l := LoadModel(svc, s.modelName, env.load);
    && r.service == l.service
    && if l.model.Failure? then
         r.session == s && r.events == [Error(PassErrorPrefix + l.model.error)]
       else
         var out := env.infer(l.model.value, wav, StreamingOptions(s.language));
         if out.Failure? then
           r.session == s && r.events == [Error(PassErrorPrefix + out.error)]
         else if PyStrip(out.value) != "" && PyStrip(out.value) != s.lastTranscription then
           r.session == s.(lastTranscription := PyStrip(out.value)) && r.events == [TranscriptionEvent(PyStrip(out.value))]
         else
           r.session == s && r.events == []
  }

  /** `transcribe_chunks` over a snapshot of the chunk list, as one atomic step:
      combine the chunks, export them to the combined file, transcribe it with
      the session's current model and language, and send the de-duplicated text.
      An empty snapshot does nothing; any error sends one error event. */
  function RunPass(env: Env, fs: Fs, svc: Service, s: Session, snapshot: seq<Path>): (r: PassOutcome)
    ensures |snapshot| == 0 ==> r == PassOutcome(s, fs, svc, [])
    ensures |snapshot| > 0 && ReadSegment(fs, env.decode, snapshot[0]).Failure? ==>
              r == PassOutcome(s, fs, svc, [Error(PassErrorPrefix + ReadSegment(fs, env.decode, snapshot[0]).error)])
    ensures |snapshot| > 0 && ReadSegment(fs, env.decode, snapshot[0]).Success? && s.tempDir !in fs.dirs ==>
              r == PassOutcome(s, fs, svc, [Error(PassErrorPrefix + NotFound(CombinedPath(s.tempDir)))])
    ensures |snapshot| > 0 && ReadSegment(fs, env.decode, snapshot[0]).Success? && s.tempDir in fs.dirs ==>
              var wav := env.toWav(Combine(fs, env.decode, snapshot).value);
              && r.fs == fs.(files := fs.files[CombinedPath(s.tempDir) := wav])
              && Transcribed(env, svc, s, wav, r)
    ensures |r.events| <= 1
    ensures r.session == s.(lastTranscription := r.session.lastTranscription)
    ensures r.session.lastTranscription != s.lastTranscription ==>
              r.events == [TranscriptionEvent(r.session.lastTranscription)]
    ensures forall k :: 0 <= k < |r.events| && r.events[k].TranscriptionEvent? ==>
              r.events[k].text != "" && r.events[k].text != s.lastTranscription
    ensures forall k :: 0 <= k < |r.events| ==> !r.events[k].Status?
    ensures r.fs.dirs == fs.dirs
    ensures forall p :: p != CombinedPath(s.tempDir) ==> (p in r.fs.files <==> p in fs.files)
    ensures forall p :: p in fs.files && p != CombinedPath(s.tempDir) ==> r.fs.files[p] == fs.files[p]
    ensures Valid(svc) ==> Valid(r.service)
  {
    if |snapshot| == 0 then PassOutcome(s, fs, svc, [])
    else
      match Combine(fs, env.decode, snapshot)
      case Failure(e) => PassOutcome(s, fs, svc, [Error(PassErrorPrefix + e)])
      case Success(audio) =>
        var combined := CombinedPath(s.tempDir);
        match WriteFile(fs, combined, env.toWav(audio))
        case Failure(e) => PassOutcome(s, fs, svc, [Error(PassErrorPrefix + e)])
        case Success(fs1) => TranscribeCombined(env, fs1, svc, s)
  }

  /** The second half of a pass: transcribe the combined file written in the
      session's directory and send the de-duplicated text, or one error. */
  function TranscribeCombined(env: Env, fs: Fs, svc: Service, s: Session): (r: PassOutcome)
    requires CombinedPath(s.tempDir) in fs.files
    ensures r.fs == fs
    ensures Transcribed(env, svc, s, fs.files[CombinedPath(s.tempDir)], r)
    ensures |r.events| <= 1
    ensures r.session == s.(lastTranscription := r.session.lastTranscription)
    ensures r.session.lastTranscription != s.lastTranscription ==>
              r.events == [TranscriptionEvent(r.session.lastTranscription)]
    ensures forall k :: 0 <= k < |r.events| && r.events[k].TranscriptionEvent? ==>
              r.events[k].text != "" && r.events[k].text != s.lastTranscription
    ensures forall k :: 0 <= k < |r.events| ==> !r.events[k].Status?
    ensures Valid(svc) ==> Valid(r.service)
  {
    var t := TranscribeChunk(svc, fs.files[CombinedPath(s.tempDir)], env.load, env.infer, s.modelName, s.language);
    match t.text
    case Failure(e) => PassOutcome(s, fs, t.service, [Error(PassErrorPrefix + e)])
    case Success(raw) =>
      var d := Dedup(s.lastTranscription, raw);
      PassOutcome(s.(lastTranscription := d.last), fs, t.service,
                  if d.event.Some? then [d.event.value] else [])
  }

  /** A chunk after the first that fails to decode makes no difference to a
      pass: dropping it from the snapshot gives the same outcome. */
  lemma PassSkipsFailedChunk(env: Env, fs: Fs, svc: Service, s: Session, snapshot: seq<Path>, j: nat)
    requires 0 < j < |snapshot|
    requires ReadSegment(fs, env.decode, snapshot[j]).Failure?
    ensures RunPass(env, fs, svc, s, snapshot[..j] + snapshot[j + 1..]) == RunPass(env, fs, svc, s, snapshot)
  {
    CombineSkipsFailed(fs, env.decode, snapshot, j);
  }

  /** Deletes each listed file that exists. */
  function RemoveAll(fs: Fs, paths: seq<Path>): (r: Fs)
    ensures r.dirs == fs.dirs
    ensures forall p :: p in r.files <==> p in fs.files && p !in paths
    ensures forall p :: p in r.files ==> r.files[p] == fs.files[p]
    decreases |paths|
  {
    if |paths| == 0 then fs else RemoveAll(RemoveIfExists(fs, paths[0]), paths[1..])
  }

  /** Whether every file in the session's directory is one cleanup deletes. */
  predicate OnlySessionFiles(fs: Fs, s: Session)
  {
    forall p :: p in fs.files && p.dir == s.tempDir ==> p in s.chunks || p == CombinedPath(s.tempDir)
  }

  /** `cleanup`: delete the chunk files and the combined file that exist, then
      remove the directory. Removing the directory raises when it is missing or
      holds other files; that error is logged and swallowed, so cleanup never
      fails. */
  function Cleanup(fs: Fs, s: Session): (r: Fs)
    ensures forall p :: p in r.files <==> p in fs.files && p !in s.chunks && p != CombinedPath(s.tempDir)
    ensures forall p :: p in r.files ==> r.files[p] == fs.files[p]
    ensures r.dirs == if s.tempDir in fs.dirs && OnlySessionFiles(fs, s) then fs.dirs - {s.tempDir} else fs.dirs
  {
    var fs1 := RemoveIfExists(RemoveAll(fs, s.chunks), CombinedPath(s.tempDir));
    assert DirEmpty(fs1, s.tempDir) <==> OnlySessionFiles(fs, s);
    match RemoveDir(fs1, s.tempDir)
    case Success(fs2) => fs2
    case Failure(_) => fs1
  }

  /** A second cleanup changes nothing, so the cleanup run again when the
      connection ends after a `stop` is harmless. */
  lemma CleanupIdempotent(fs: Fs, s: Session)
    ensures Cleanup(Cleanup(fs, s), s) == Cleanup(fs, s)
  {
    var once := Cleanup(fs, s);
    var twice := Cleanup(once, s);
    assert twice.files.Keys == once.files.Keys;
    assert twice.files == once.files;
  }

  /** `handle_stop`: a final pass over all chunks if there are any, then cleanup.
      The chunk list itself is kept. */
  function HandleStop(env: Env, fs: Fs, svc: Service, s: Session): (r: PassOutcome)
    ensures |s.chunks| == 0 ==> r == PassOutcome(s, Cleanup(fs, s), svc, [])
    ensures |s.chunks| > 0 ==>
              var p := RunPass(env, fs, svc, s, s.chunks);
              r == PassOutcome(p.session, Cleanup(p.fs, s), p.service, p.events)
    ensures r.session.chunks == s.chunks && r.session.chunkCount == s.chunkCount
    ensures forall p :: p in s.chunks ==> p !in r.fs.files
    ensures CombinedPath(s.tempDir) !in r.fs.files
  {
    var p := if |s.chunks| > 0 then RunPass(env, fs, svc, s, s.chunks) else PassOutcome(s, fs, svc, []);
    PassOutcome(p.session, Cleanup(p.fs, p.session), p.service, p.events)
  }

  /** Cleanup keeps the chunk list, so a second `stop` runs a pass over deleted
      files: its first chunk is missing and the pass reports one error. */
  lemma SecondStopReportsError(env: Env, fs: Fs, svc: Service, s: Session)
    requires |s.chunks| > 0
    ensures var first := HandleStop(env, fs, svc, s);
            var second := HandleStop(env, first.fs, first.service, first.session);
            && second.events == [Error(PassErrorPrefix + NotFound(s.chunks[0]))]
            && second.session == first.session
            && second.fs == first.fs
  {
    var first := HandleStop(env, fs, svc, s);
    assert s.chunks[0] !in first.fs.files;
    assert first.session.chunks == s.chunks;
    var p := RunPass(env, first.fs, first.service, first.session, first.session.chunks);
    assert p.fs == first.fs;
    assert first.session.tempDir == s.tempDir;
    CleanupIdempotent(RunPass(env, fs, svc, s, s.chunks).fs, s);
  }
}

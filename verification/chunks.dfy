/** The audio side of a streaming session: when a transcription pass is
    triggered, where each chunk is stored, and how the stored chunks are
    decoded and combined into one recording. */
module Chunks {
  import opened Wrappers
  import Text
  import opened Files

  /** A pass is scheduled after the first chunk and after every third chunk;
      `count` is the chunk count after the increment. */
  predicate ShouldTrigger(count: nat)
  {
    count % 3 == 0 || count == 1
  }

  /** How many of the counts 1..n trigger a pass. */
  function TriggerCount(n: nat): nat
  {
    if n == 0 then 0 else TriggerCount(n - 1) + (if ShouldTrigger(n) then 1 else 0)
  }

  /** Over n chunks, passes run at chunks 1, 3, 6, 9, ...: one plus n div 3 of them. */
  lemma {:induction false} TriggerCountClosedForm(n: nat)
    ensures TriggerCount(n) == if n == 0 then 0 else 1 + n / 3
  {
    if n > 1 {
      TriggerCountClosedForm(n - 1);
    }
  }

  /** A stream never goes three chunks without a pass, and after the first chunk
      two passes are always exactly three chunks apart. */
  lemma TriggerGaps(n: nat)
    requires n >= 1
    ensures ShouldTrigger(n) || ShouldTrigger(n + 1) || ShouldTrigger(n + 2)
    ensures n >= 2 && ShouldTrigger(n) ==> !ShouldTrigger(n + 1) && !ShouldTrigger(n + 2) && ShouldTrigger(n + 3)
  {
  }

  /** `f"chunk_{index}.webm"`. */
  function ChunkName(index: nat): string
  {
    "chunk_" + Text.NatToString(index) + ".webm"
  }

  /** The file every pass exports the combined recording to. */
  const CombinedName: string := "combined.wav"

  function ChunkPath(dir: string, index: nat): Path
  {
    Path(dir, ChunkName(index))
  }

  function CombinedPath(dir: string): Path
  {
    Path(dir, CombinedName)
  }

  /** Different chunk indices give different file names. */
  lemma ChunkNameInjective(a: nat, b: nat)
    requires ChunkName(a) == ChunkName(b)
    ensures a == b
  {
    var na, nb := Text.NatToString(a), Text.NatToString(b);
    assert |na| == |nb|;
    assert na == ChunkName(a)[6..6 + |na|];
    assert nb == ChunkName(b)[6..6 + |nb|];
    Text.NatToStringInjective(a, b);
  }

  /** No chunk file is the combined file. */
  lemma ChunkNameNotCombined(index: nat)
    ensures ChunkName(index) != CombinedName
  {
    var n := ChunkName(index);
    assert n[|n| - 1] == 'm';
    assert CombinedName[|CombinedName| - 1] == 'v';
  }

  /** A decoded audio segment, opaque apart from its samples. */
  datatype Segment = Segment(samples: seq<int>)

  /** The combined recording: the decoded segments in the order they were added. */
  type Audio = seq<Segment>

  /** `AudioSegment.from_file` on file contents, which may raise. */
  type Decoder = Bytes -> Result<Segment>

  /** `AudioSegment.from_file(path)`: a missing file raises `FileNotFoundError`
      when it is opened; an existing one is decoded. */
  function ReadSegment(fs: Fs, decode: Decoder, path: Path): (r: Result<Segment>)
    ensures path !in fs.files ==> r == Failure(NotFound(path))
    ensures path in fs.files ==> r == decode(fs.files[path])
  {
    if path in fs.files then decode(fs.files[path]) else Failure(NotFound(path))
  }

  /** The segments of the files that decode, in the order of `paths`; the
      others are skipped with a warning. */
  function DecodedAll(fs: Fs, decode: Decoder, paths: seq<Path>): (r: Audio)
    ensures |r| <= |paths|
  {
    if |paths| == 0 then []
    else
      var rest := DecodedAll(fs, decode, paths[1..]);
      match ReadSegment(fs, decode, paths[0])
      case Success(seg) => [seg] + rest
      case Failure(_) => rest
  }

  /** Decoding distributes over concatenation of path lists. */
  lemma {:induction false} DecodedAllAppend(fs: Fs, decode: Decoder, a: seq<Path>, b: seq<Path>)
    ensures DecodedAll(fs, decode, a + b) == DecodedAll(fs, decode, a) + DecodedAll(fs, decode, b)
    decreases |a|
  {
    if |a| > 0 {
      assert (a + b)[0] == a[0];
      assert (a + b)[1..] == a[1..] + b;
      DecodedAllAppend(fs, decode, a[1..], b);
    } else {
      assert a + b == b;
    }
  }

  /** When every file decodes, nothing is dropped and the order is kept. */
  lemma {:induction false} DecodedAllComplete(fs: Fs, decode: Decoder, paths: seq<Path>)
    requires forall i :: 0 <= i < |paths| ==> ReadSegment(fs, decode, paths[i]).Success?
    ensures |DecodedAll(fs, decode, paths)| == |paths|
    ensures forall i :: 0 <= i < |paths| ==>
              DecodedAll(fs, decode, paths)[i] == ReadSegment(fs, decode, paths[i]).value
  {
    if |paths| > 0 {
      DecodedAllComplete(fs, decode, paths[1..]);
    }
  }

  /** The first chunk and the rest are treated differently: a failure on the
      first aborts the pass, a failure on a later one skips that chunk. */
  function Combine(fs: Fs, decode: Decoder, paths: seq<Path>): (r: Result<Audio>)
    requires |paths| > 0
    ensures r.Failure? <==> ReadSegment(fs, decode, paths[0]).Failure?
    ensures r.Failure? ==> r.error == ReadSegment(fs, decode, paths[0]).error
    ensures r.Success? ==> |r.value| >= 1 && r.value[0] == ReadSegment(fs, decode, paths[0]).value
    ensures r.Success? ==> r.value[1..] == DecodedAll(fs, decode, paths[1..])
  {
    match ReadSegment(fs, decode, paths[0])
    case Failure(e) => Failure(e)
    case Success(first) => Success([first] + DecodedAll(fs, decode, paths[1..]))
  }

  /** A later chunk that fails to decode makes no difference: combining with it
      equals combining without it. */
  lemma CombineSkipsFailed(fs: Fs, decode: Decoder, paths: seq<Path>, j: nat)
    requires 0 < j < |paths|
    requires ReadSegment(fs, decode, paths[j]).Failure?
    ensures Combine(fs, decode, paths) == Combine(fs, decode, paths[..j] + paths[j + 1..])
  {
    var without := paths[..j] + paths[j + 1..];
    assert without[0] == paths[0];
    assert paths[1..] == paths[1..j] + [paths[j]] + paths[j + 1..];
    assert without[1..] == paths[1..j] + paths[j + 1..];
    DecodedAllAppend(fs, decode, paths[1..j] + [paths[j]], paths[j + 1..]);
    DecodedAllAppend(fs, decode, paths[1..j], [paths[j]]);
    DecodedAllAppend(fs, decode, paths[1..j], paths[j + 1..]);
    assert [paths[j]][1..] == [];
    assert DecodedAll(fs, decode, [paths[j]]) == [];
    assert DecodedAll(fs, decode, paths[1..]) == DecodedAll(fs, decode, without[1..]);
  }

  /** The loop of `transcribe_chunks` that builds the combined recording:
      start from the first chunk, then add every later chunk that decodes. */
  method CombineChunks(fs: Fs, decode: Decoder, paths: seq<Path>) returns (r: Result<Audio>)
    requires |paths| > 0
    ensures r.Failure? <==> ReadSegment(fs, decode, paths[0]).Failure?
    ensures r.Failure? ==> r.error == ReadSegment(fs, decode, paths[0]).error
    ensures r.Success? ==> r.value == [ReadSegment(fs, decode, paths[0]).value] + DecodedAll(fs, decode, paths[1..])
  {
    var first := ReadSegment(fs, decode, paths[0]);
    if first.Failure? {
      return Failure(first.error);
    }
    var audio: Audio := [first.value];
    var i := 1;
    while i < |paths|
      invariant 1 <= i <= |paths|
      invariant audio == [first.value] + DecodedAll(fs, decode, paths[1..i])
    {
      var chunk := ReadSegment(fs, decode, paths[i]);
      DecodedAllAppend(fs, decode, paths[1..i], [paths[i]]);
      assert paths[1..i + 1] == paths[1..i] + [paths[i]];
      if chunk.Success? {
        audio := audio + [chunk.value];
      }
      i := i + 1;
    }
    assert paths[1..i] == paths[1..];
    return Success(audio);
  }
}

/** Silero voice-activity detection: per-chunk speech labels and the speech boundaries used to
    trim a recording before transcription. */
module Vad {
  import opened Wrappers

  type Sample = real

  const SampleRate: int := 16000
  /** Samples per classified chunk (32 ms at 16 kHz). */
  const ChunkSize: int := 512
  /** The recurrent state holds 2 x 1 x 128 values. */
  const StateSize: int := 256

  type HiddenState = seq<real>

  /** `n` zero samples. */
  function Zeros(n: nat): (r: seq<real>)
    ensures |r| == n && forall i :: 0 <= i < n ==> r[i] == 0.0
  {
    if n == 0 then [] else Zeros(n - 1) + [0.0]
  }

  /** The state a reset installs. */
  const ZeroState: HiddenState := Zeros(StateSize)

  /** One run of the ONNX session on a 512-sample chunk: a probability and, when the session
      returns two outputs, the next recurrent state; or an exception. */
  datatype Inference = Output(prob: real, next: Option<HiddenState>) | Raised

  /** The session's behaviour, as a function of the chunk and the current state. */
  type Session = (seq<Sample>, HiddenState) -> Inference

  datatype VadError = NotLoaded

  /** The chunk handed to the session: zero-padded or truncated to exactly `ChunkSize` samples. */
  function Normalize(chunk: seq<Sample>): (r: seq<Sample>)
    ensures |r| == ChunkSize
    ensures forall i :: 0 <= i < ChunkSize ==> r[i] == if i < |chunk| then chunk[i] else 0.0
  {
    if |chunk| < ChunkSize then chunk + Zeros(ChunkSize - |chunk|) else chunk[..ChunkSize]
  }

  /** The label and next state of one `is_speech` call on a loaded session. */
  function Classify(session: Session, st: HiddenState, chunk: seq<Sample>): (r: (bool, HiddenState))
    ensures session(Normalize(chunk), st).Raised? ==> r == (true, st)
    ensures session(Normalize(chunk), st).Output? ==>
      r.0 == (session(Normalize(chunk), st).prob > 0.5) && r.1 == session(Normalize(chunk), st).next.GetOr(st)
  {
    match session(Normalize(chunk), st)
    case Raised => (true, st)
    case Output(p, next) => (p > 0.5, next.GetOr(st))
  }

  /** Chunk-by-chunk classification of a stream from state `st`: the labels in chunk order and
      the final state. The last chunk may be partial. */
  function Stream(session: Session, st: HiddenState, audio: seq<Sample>): (r: (seq<bool>, HiddenState))
    decreases |audio|
  {
    if |audio| == 0 then ([], st)
    else
      var k := if |audio| < ChunkSize then |audio| else ChunkSize;
      ([Classify(session, st, audio[..k]).0] + Stream(session, Classify(session, st, audio[..k]).1, audio[k..]).0,
       Stream(session, Classify(session, st, audio[..k]).1, audio[k..]).1)
  }

  /** One step of the chunk walk: the chunk at `i..end` is classified from `st`. */
  lemma StreamStep(session: Session, st: HiddenState, audio: seq<Sample>, i: nat, end: nat)
    requires i < |audio| && end == (if i + ChunkSize <= |audio| then i + ChunkSize else |audio|)
    ensures Stream(session, st, audio[i..]).0
            == [Classify(session, st, audio[i..end]).0]
               + Stream(session, Classify(session, st, audio[i..end]).1, audio[end..]).0
    ensures Stream(session, st, audio[i..]).1
            == Stream(session, Classify(session, st, audio[i..end]).1, audio[end..]).1
  {
    var rest := audio[i..];
    assert rest[..end - i] == audio[i..end];
    assert rest[end - i..] == audio[end..];
  }

  /** Padding a short chunk with zeros gives what the session would see for the chunk itself. */
  lemma NormalizePadded(chunk: seq<Sample>)
    requires |chunk| < ChunkSize
    ensures Normalize(chunk + Zeros(ChunkSize - |chunk|)) == Normalize(chunk)
  {
  }

  /** The labels of a whole recording, classified from the zero state. */
  function Labels(session: Session, audio: seq<Sample>): (r: seq<bool>)
    ensures |audio| == 0 <==> r == []
  {
    Stream(session, ZeroState, audio).0
  }

  /** One label per 512-sample chunk, the final partial chunk included. */
  lemma {:induction false} StreamLength(session: Session, st: HiddenState, audio: seq<Sample>)
    ensures |Stream(session, st, audio).0| == (|audio| + ChunkSize - 1) / ChunkSize
    decreases |audio|
  {
    if |audio| > 0 {
      var k := if |audio| < ChunkSize then |audio| else ChunkSize;
      StreamLength(session, Classify(session, st, audio[..k]).1, audio[k..]);
    }
  }

  /** The end of chunk `j` in a buffer of `n` samples. */
  function ChunkEnd(j: nat, n: nat): (r: nat)
    requires j * ChunkSize < n
    ensures j * ChunkSize < r <= n && r <= (j + 1) * ChunkSize
  {
    if (j + 1) * ChunkSize <= n then (j + 1) * ChunkSize else n
  }

  /** Classifying a prefix of at least one full chunk passes the state of its first chunk on to
      the rest of the prefix. */
  lemma StreamPrefixState(session: Session, st: HiddenState, audio: seq<Sample>, lo: nat)
    requires ChunkSize <= lo <= |audio|
    ensures Stream(session, st, audio[..lo]).1
            == Stream(session, Classify(session, st, audio[..ChunkSize]).1, audio[ChunkSize..][..lo - ChunkSize]).1
  {
    var p := audio[..lo];
    assert p[..ChunkSize] == audio[..ChunkSize];
    assert p[ChunkSize..] == audio[ChunkSize..][..lo - ChunkSize];
  }

  /** Label `j` classifies the samples of chunk `j`, from the state the earlier chunks left. */
  lemma {:induction false} StreamChunks(session: Session, st: HiddenState, audio: seq<Sample>, j: nat)
    requires j * ChunkSize < |audio|
    ensures |Stream(session, st, audio).0| > j
    ensures Stream(session, st, audio).0[j] ==
              Classify(session, Stream(session, st, audio[..j * ChunkSize]).1,
                       audio[j * ChunkSize..ChunkEnd(j, |audio|)]).0
    decreases j
  {
    if j > 0 {
      var st1 := Classify(session, st, audio[..ChunkSize]).1;
      var tail := audio[ChunkSize..];
      var lo, hi := j * ChunkSize, ChunkEnd(j, |audio|);
      StreamChunks(session, st1, tail, j - 1);
      StreamPrefixState(session, st, audio, lo);
      assert (j - 1) * ChunkSize == lo - ChunkSize;
      assert ChunkEnd(j - 1, |tail|) == hi - ChunkSize;
      assert tail[lo - ChunkSize..hi - ChunkSize] == audio[lo..hi];
      assert Stream(session, st, audio).0[j] == Stream(session, st1, tail).0[j - 1];
    } else {
      var k := if |audio| < ChunkSize then |audio| else ChunkSize;
      assert audio[..0] == [];
      assert ChunkEnd(0, |audio|) == k;
    }
  }

  /** Some chunk is labelled speech. */
  predicate HasSpeech(labels: seq<bool>) {
    true in labels
  }

  /** The first speech label. */
  function FirstSpeech(labels: seq<bool>): (r: nat)
    requires true in labels
    ensures r < |labels| && labels[r]
    ensures forall j :: 0 <= j < r ==> !labels[j]
  {
    if labels[0] then 0 else 1 + FirstSpeech(labels[1..])
  }

  /** The last speech label. */
  function LastSpeech(labels: seq<bool>): (r: nat)
    requires true in labels
    ensures r < |labels| && labels[r]
    ensures forall j :: r < j < |labels| ==> !labels[j]
  {
    if labels[|labels| - 1] then |labels| - 1 else LastSpeech(labels[..|labels| - 1])
  }

  /** `padding_ms` converted to samples at 16 kHz (exact: 16 samples per millisecond). */
  function PaddingSamples(paddingMs: int): (r: int)
    ensures r == 16 * paddingMs
  {
    paddingMs * SampleRate / 1000
  }

  /** The padded sample range of the chunks `first..last`, clamped to a buffer of `n` samples. */
  function PaddedRange(first: nat, last: nat, n: nat, paddingMs: int): (r: (int, int))
    requires first <= last && first * ChunkSize < n
    ensures paddingMs >= 0 ==> 0 <= r.0 < r.1 <= n
  {
    var firstSample := first * ChunkSize;
    var lastSample := (last + 1) * ChunkSize;
    var pad := PaddingSamples(paddingMs);
    (if firstSample - pad > 0 then firstSample - pad else 0,
     if n < lastSample + pad then n else lastSample + pad)
  }

  /** The speech boundaries `find_speech_boundaries` reports for `audio`. With a non-negative
      padding they lie inside the buffer. */
  function SpeechBoundaries(loaded: bool, session: Session, audio: seq<Sample>, paddingMs: int): (r: (int, int))
    ensures paddingMs >= 0 ==> 0 <= r.0 <= r.1 <= |audio|
  {
    if !loaded then (0, |audio|)
    else if |audio| == 0 then (0, 0)
    else
      var labels := Labels(session, audio);
      if !HasSpeech(labels) then (0, |audio|)
      else
        StreamLength(session, ZeroState, audio);
        PaddedRange(FirstSpeech(labels), LastSpeech(labels), |audio|, paddingMs)
  }

  /** The scan for the first and last speech labels: none exactly when no chunk is speech. */
  method ScanSpeech(labels: seq<bool>) returns (first: Option<nat>, last: Option<nat>)
    ensures first.None? <==> !HasSpeech(labels)
    ensures last.None? <==> !HasSpeech(labels)
    ensures first.Some? ==> HasSpeech(labels) && first.value == FirstSpeech(labels)
    ensures last.Some? ==> HasSpeech(labels) && last.value == LastSpeech(labels)
  {
    first, last := None, None;
    var i := 0;
    while i < |labels|
      invariant 0 <= i <= |labels|
      invariant first.None? <==> true !in labels[..i]
      invariant last.None? <==> first.None?
      invariant first.Some? ==>
                  first.value < i && labels[first.value]
                  && forall j :: 0 <= j < first.value ==> !labels[j]
      invariant last.Some? ==>
                  last.value < i && labels[last.value]
                  && forall j :: last.value < j < i ==> !labels[j]
    {
      if labels[i] {
        if first.None? {
          first := Some(i);
        }
        last := Some(i);
      }
      assert labels[..i + 1] == labels[..i] + [labels[i]];
      i := i + 1;
    }
    assert labels[..i] == labels;
    if first.Some? {
      assert first.value == FirstSpeech(labels);
      assert last.value == LastSpeech(labels);
    }
  }

  /** A recording with speech yields a non-empty range. */
  lemma BoundariesNonEmpty(session: Session, audio: seq<Sample>, paddingMs: int)
    requires paddingMs >= 0 && HasSpeech(Labels(session, audio))
    ensures SpeechBoundaries(true, session, audio, paddingMs).0 < SpeechBoundaries(true, session, audio, paddingMs).1
  {
    StreamLength(session, ZeroState, audio);
  }

  /** Every speech chunk's samples lie inside the reported range: trimming to it loses no speech. */
  lemma BoundariesCoverSpeech(session: Session, audio: seq<Sample>, paddingMs: int, j: nat)
    requires paddingMs >= 0
    requires j < |Labels(session, audio)| && Labels(session, audio)[j]
    ensures var (s, e) := SpeechBoundaries(true, session, audio, paddingMs);
            s <= j * ChunkSize
            && (if (j + 1) * ChunkSize <= |audio| then (j + 1) * ChunkSize else |audio|) <= e
  {
    var labels := Labels(session, audio);
    StreamLength(session, ZeroState, audio);
    assert |audio| > 0;
    var f, l := FirstSpeech(labels), LastSpeech(labels);
    assert f <= j <= l;
    assert f * ChunkSize <= j * ChunkSize;
    assert (j + 1) * ChunkSize <= (l + 1) * ChunkSize;
  }

  /** With speech and no clamping, the range is the speech span widened by the padding each side. */
  lemma BoundariesUnclamped(session: Session, audio: seq<Sample>, paddingMs: int)
    requires HasSpeech(Labels(session, audio))
    requires var labels := Labels(session, audio);
             16 * paddingMs <= FirstSpeech(labels) * ChunkSize
             && (LastSpeech(labels) + 1) * ChunkSize + 16 * paddingMs <= |audio|
    ensures var labels := Labels(session, audio);
            var (s, e) := SpeechBoundaries(true, session, audio, paddingMs);
            s == FirstSpeech(labels) * ChunkSize - 16 * paddingMs
            && e == (LastSpeech(labels) + 1) * ChunkSize + 16 * paddingMs
  {
  }

  /** A non-empty recording always yields at least one label. */
  lemma LabelsNonEmpty(session: Session, audio: seq<Sample>)
    requires |audio| > 0
    ensures |Labels(session, audio)| > 0
  {
    StreamLength(session, ZeroState, audio);
  }

  /** The recording passed on for transcription: the speech range when it is non-empty, otherwise
      the whole recording. */
  function Trim(audio: seq<Sample>, bounds: (int, int)): (r: seq<Sample>)
    requires bounds.0 < bounds.1 ==> 0 <= bounds.0 && bounds.1 <= |audio|
    ensures bounds.0 < bounds.1 ==> r == audio[bounds.0..bounds.1]
    ensures bounds.0 >= bounds.1 ==> r == audio
  {
    if bounds.0 < bounds.1 then audio[bounds.0..bounds.1] else audio
  }

  /** What the recording controllers transcribe: the full recording trimmed to the speech
      boundaries with 100 ms padding. */
  function TrimmedForTranscription(loaded: bool, session: Session, audio: seq<Sample>): (r: seq<Sample>)
    ensures |r| <= |audio|
    ensures loaded && |audio| > 0 && HasSpeech(Labels(session, audio)) ==>
      r == audio[SpeechBoundaries(loaded, session, audio, 100).0..SpeechBoundaries(loaded, session, audio, 100).1]
    ensures !(loaded && |audio| > 0 && HasSpeech(Labels(session, audio))) ==> r == audio
  {
    Trim(audio, SpeechBoundaries(loaded, session, audio, 100))
  }

  class SileroVad {
    /** The ONNX session's behaviour. */
    const session: Session
    /** Whether an inference session exists. */
    var loaded: bool
    /** The recurrent state; None until first reset. */
    var state: Option<HiddenState>

    constructor (session: Session)
      ensures this.session == session && !loaded && state == None
    {
      this.session := session;
      loaded := false;
      state := None;
    }

    /** Loads the model. `modelFound` says whether the package ships the ONNX file and
        `sessionCreated` whether the runtime accepts it. */
    method LoadVadModel(modelFound: bool, sessionCreated: bool) returns (ok: bool)
      modifies this
      ensures ok == (modelFound && sessionCreated)
      ensures ok ==> loaded && state == Some(ZeroState)
      ensures !ok ==> loaded == old(loaded) && state == old(state)
    {
      if !modelFound || !sessionCreated {
        return false;
      }
      loaded := true;
      ResetStates();
      ok := true;
    }

    /** Zeroes the recurrent state; does nothing without a session. */
    method ResetStates()
      modifies this
      ensures loaded == old(loaded)
      ensures state == if loaded then Some(ZeroState) else old(state)
    {
      if !loaded {
        return;
      }
      state := Some(ZeroState);
    }

    /** Resets for a new recording session. */
    method Reset()
      modifies this
      ensures loaded == old(loaded)
      ensures state == if loaded then Some(ZeroState) else old(state)
    {
      ResetStates();
    }

    /** Classifies one chunk (see Classify): speech iff the probability exceeds 0.5, and speech
        when inference raises. The state advances only when the session returns a next state. */
    method IsSpeech(chunk: seq<Sample>) returns (r: Result<bool, VadError>)
      modifies this
      ensures loaded == old(loaded)
      ensures !old(loaded) ==> r == Failure(NotLoaded) && state == old(state)
      ensures old(loaded) ==> r == Success(Classify(session, old(state).GetOr(ZeroState), chunk).0)
      ensures old(loaded) ==> state == Some(Classify(session, old(state).GetOr(ZeroState), chunk).1)
    {
      if !loaded {
        return Failure(NotLoaded);
      }
      var input := Normalize(chunk);
      if state.None? {
        ResetStates();
      }
      var st := state.value;
      match session(input, st)
      case Raised =>
        r := Success(true);
      case Output(prob, next) =>
        if next.Some? {
          state := next;
        }
        r := Success(prob > 0.5);
    }

    /** Labels a stream chunk by chunk after resetting the state, zero-padding the last chunk. */
    method ProcessStream(audio: seq<Sample>) returns (r: Result<seq<bool>, VadError>)
      modifies this
      ensures loaded == old(loaded)
      ensures old(loaded) ==> r == Success(Labels(session, audio))
                              && state == Some(Stream(session, ZeroState, audio).1)
      ensures !old(loaded) ==> r == (if |audio| == 0 then Success([]) else Failure(NotLoaded))
                               && state == old(state)
    {
      var results: seq<bool> := [];
      ResetStates();
      var i := 0;
      // `i` visits 0, 512, 1024, ... below |audio|; after a partial chunk the loop ends,
      // so stepping to the chunk's end is the same walk.
      while i < |audio|
        invariant 0 <= i <= |audio|
        invariant loaded == old(loaded)
        invariant !loaded ==> i == 0 && results == [] && state == old(state)
        invariant loaded ==> state.Some?
        invariant loaded ==> results + Stream(session, state.value, audio[i..]).0 == Labels(session, audio)
        invariant loaded ==> Stream(session, state.value, audio[i..]).1 == Stream(session, ZeroState, audio).1
      {
        var end := if i + ChunkSize <= |audio| then i + ChunkSize else |audio|;
        var chunk := audio[i..end];
        StreamStep(session, if loaded then state.value else ZeroState, audio, i, end);
        var speech: Result<bool, VadError>;
        if |chunk| == ChunkSize {
          speech := IsSpeech(chunk);
        } else {
          var padded := chunk + Zeros(ChunkSize - |chunk|);
          NormalizePadded(chunk);
          speech := IsSpeech(padded);
        }
        if speech.Failure? {
          return Failure(speech.error);
        }
        results := results + [speech.value];
        i := end;
      }
      if loaded {
        assert audio[i..] == [];
        assert Stream(session, state.value, audio[i..]).0 == [];
        assert results == Labels(session, audio);
      }
      r := Success(results);
    }

    /** The padded sample range of the speech in `audio`; see SpeechBoundaries. */
    method FindSpeechBoundaries(audio: seq<Sample>, paddingMs: int) returns (start: int, end: int)
      modifies this
      ensures loaded == old(loaded)
      ensures (start, end) == SpeechBoundaries(old(loaded), session, audio, paddingMs)
      ensures !old(loaded) ==> (start, end) == (0, |audio|) && state == old(state)
      ensures old(loaded) && |audio| == 0 ==> (start, end) == (0, 0)
      ensures old(loaded) && |audio| > 0 && !HasSpeech(Labels(session, audio)) ==> (start, end) == (0, |audio|)
      ensures old(loaded) && |audio| > 0 ==> state == Some(Stream(session, ZeroState, audio).1)
    {
      if !loaded {
        return 0, |audio|;
      }
      if |audio| == 0 {
        return 0, 0;
      }
      var speechResults := ProcessStream(audio);
      var labels := speechResults.value;
      var firstSpeechIdx, lastSpeechIdx := ScanSpeech(labels);
      if firstSpeechIdx.None? {
        return 0, |audio|;
      }
      var firstSample := firstSpeechIdx.value * ChunkSize;
      var lastSample := (lastSpeechIdx.value + 1) * ChunkSize;
      var paddingSamples := PaddingSamples(paddingMs);
      start := if firstSample - paddingSamples > 0 then firstSample - paddingSamples else 0;
      end := if |audio| < lastSample + paddingSamples then |audio| else lastSample + paddingSamples;
    }
  }
}

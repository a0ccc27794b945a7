/** The single-stream recorder of the menu-bar application: one mono input stream whose blocks
    are appended to an unbounded session buffer, each block also adding one point to the bounded
    waveform history. */
module LegacyCapture {
  import opened Wrappers
  import opened Waveform

  type Sample = real

  /** The blocks of a session, concatenated in arrival order. */
  function Flatten(blocks: seq<seq<Sample>>): (r: seq<Sample>)
    ensures |blocks| > 0 ==> |r| >= |blocks[|blocks| - 1]| && r[|r| - |blocks[|blocks| - 1]|..] == blocks[|blocks| - 1]
  {
    if |blocks| == 0 then [] else Flatten(blocks[..|blocks| - 1]) + blocks[|blocks| - 1]
  }

  /** The session audio holds as many samples as all its blocks together. */
  function TotalLength(blocks: seq<seq<Sample>>): nat
  {
    if |blocks| == 0 then 0 else TotalLength(blocks[..|blocks| - 1]) + |blocks[|blocks| - 1]|
  }

  lemma {:induction false} FlattenLength(blocks: seq<seq<Sample>>)
    ensures |Flatten(blocks)| == TotalLength(blocks)
  {
    if |blocks| > 0 {
      FlattenLength(blocks[..|blocks| - 1]);
    }
  }

  /** Every block occurs in the session audio, unchanged, right after the blocks before it. */
  lemma {:induction false} FlattenHoldsBlock(blocks: seq<seq<Sample>>, k: nat)
    requires k < |blocks|
    ensures TotalLength(blocks[..k]) + |blocks[k]| <= |Flatten(blocks)|
    ensures Flatten(blocks)[TotalLength(blocks[..k])..TotalLength(blocks[..k]) + |blocks[k]|] == blocks[k]
    decreases |blocks|
  {
    var n := |blocks| - 1;
    var init := blocks[..n];
    FlattenLength(init);
    if k == n {
      assert blocks[..k] == init;
    } else {
      FlattenHoldsBlock(init, k);
      assert init[..k] == blocks[..k];
    }
  }

  /** One waveform point per block, in block order. */
  function Amplitudes(blocks: seq<seq<Sample>>): (r: seq<real>)
    ensures |r| == |blocks|
  {
    if |blocks| == 0 then [] else Amplitudes(blocks[..|blocks| - 1]) + [Amplitude(blocks[|blocks| - 1])]
  }

  lemma {:induction false} AmplitudesAt(blocks: seq<seq<Sample>>, i: nat)
    requires i < |blocks|
    ensures Amplitudes(blocks)[i] == Amplitude(blocks[i])
    decreases |blocks|
  {
    var n := |blocks| - 1;
    if i < n {
      AmplitudesAt(blocks[..n], i);
    }
  }

  /** Where starting the stream can fail: constructing `sd.InputStream`, or its `start()`. */
  datatype StartFault = NoStartFault | CreateFails | StartFails

  class AudioRecorder {
    /** The session buffer (an unbounded deque). */
    var audio: seq<Sample>
    /** The waveform history (a deque with `maxlen=200`). */
    var waveform: seq<real>
    var recording: bool
    /** Whether the `stream` field holds a stream. */
    var hasStream: bool
    /** Whether a waveform callback was given to the current session. */
    var notify: bool
    /** The blocks the stream delivered this session. */
    ghost var blocks: seq<seq<Sample>>

    ghost predicate Valid()
      reads this
    {
      audio == Flatten(blocks) && waveform == Window(Amplitudes(blocks))
    }

    constructor ()
      ensures Valid() && !recording && !hasStream && audio == [] && waveform == []
    {
      audio, waveform, blocks := [], [], [];
      recording, hasStream, notify := false, false, false;
    }

    /** Starts a session. A start while recording changes nothing. Otherwise the buffers are
        emptied, and recording begins only if the stream is both created and started; either
        failure is raised. A stream that was created but failed to start stays in the field. */
    method StartRecording(notify: bool, fault: StartFault) returns (raised: bool)
      requires Valid()
      modifies this
      ensures Valid()
      ensures old(recording) ==> !raised && unchanged(this)
      ensures !old(recording) ==>
        && raised == !fault.NoStartFault? && recording == !raised
        && hasStream == (if fault.CreateFails? then old(hasStream) else true)
        && this.notify == notify && audio == [] && waveform == [] && blocks == []
    {
      if recording {
        return false;
      }
      var stream := if fault.CreateFails? then hasStream else true;
      var started := fault.NoStartFault?;
      this.notify, audio, waveform, blocks, hasStream, recording := notify, [], [], [], stream, started;
      raised := !started;
    }

    /** One block from the running stream: appended to the session buffer, with its amplitude
        pushed onto the history and, when a waveform callback was given, reported to it. */
    method AudioCallback(block: seq<Sample>) returns (reported: Option<real>)
      requires Valid() && recording
      modifies this
      ensures Valid()
      ensures blocks == old(blocks) + [block]
      ensures audio == old(audio) + block
      ensures waveform == Push(old(waveform), Amplitude(block))
      ensures reported == (if notify then Some(Amplitude(block)) else None)
      ensures recording == old(recording) && hasStream == old(hasStream) && notify == old(notify)
    {
      var a := Amplitude(block);
      PushWindow(Amplitudes(blocks), a);
      assert (blocks + [block])[..|blocks|] == blocks;
      audio, waveform, blocks := audio + block, Push(waveform, a), blocks + [block];
      reported := if notify then Some(a) else None;
    }

    /** Stops the session and returns everything it captured: the concatenation of its blocks in
        arrival order. A stop while not recording returns nothing and changes nothing. */
    method StopRecording() returns (data: seq<Sample>)
      requires Valid()
      modifies this
      ensures Valid()
      ensures !old(recording) ==> data == [] && unchanged(this)
      ensures old(recording) ==>
        && data == Flatten(old(blocks)) && |data| == TotalLength(old(blocks))
        && !recording && !hasStream && audio == [] && waveform == [] && blocks == []
        && notify == old(notify)
    {
      if !recording {
        return [];
      }
      FlattenLength(blocks);
      data := audio;
      recording, hasStream, audio, waveform, blocks := false, false, [], [], [];
    }

    /** The history: the amplitudes of the newest 200 blocks, oldest first. */
    method GetWaveformData() returns (w: seq<real>)
      requires Valid()
      ensures |w| == if |blocks| < Capacity then |blocks| else Capacity
      ensures forall i :: 0 <= i < |w| ==> w[i] == Amplitude(blocks[|blocks| - |w| + i])
    {
      w := waveform;
      WindowIsSuffix(Amplitudes(blocks));
      forall i | 0 <= i < |w|
        ensures w[i] == Amplitude(blocks[|blocks| - |w| + i])
      {
        AmplitudesAt(blocks, |blocks| - |w| + i);
      }
    }

    /** The amplitude of the newest block, or 0.0 before the first. */
    method GetCurrentAmplitude() returns (a: real)
      requires Valid()
      ensures |blocks| > 0 ==> a == Amplitude(blocks[|blocks| - 1])
      ensures |blocks| == 0 ==> a == 0.0
    {
      a := if |waveform| > 0 then waveform[|waveform| - 1] else 0.0;
      if |blocks| > 0 {
        WindowIsSuffix(Amplitudes(blocks));
        AmplitudesAt(blocks, |blocks| - 1);
      }
    }
  }
}

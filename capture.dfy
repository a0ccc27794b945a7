/** The backend's dual-stream recorder: a microphone stream, an optional system-audio (loopback)
    stream, a mixer that sums the two in 1024-sample ticks into the session buffer, and the
    bounded waveform history shown by the overlay. */
module Capture {
  import opened Wrappers
  import opened Text
  import opened Waveform

  type Sample = real

  const SampleRate: int := 16000
  /** Samples per stream block and per mix tick. */
  const BufferSize: nat := 1024

  /** Elementwise sum of two equally long sample runs (the unnormalised mix). */
  function Mix(a: seq<Sample>, b: seq<Sample>): (r: seq<Sample>)
    requires |a| == |b|
    ensures |r| == |a|
    ensures forall i :: 0 <= i < |a| ==> r[i] == a[i] + b[i]
  {
    seq(|a|, i requires 0 <= i < |a| => a[i] + b[i])
  }

  /** Mixing two runs piecewise is mixing them whole. */
  lemma MixAppend(a1: seq<Sample>, b1: seq<Sample>, a2: seq<Sample>, b2: seq<Sample>)
    requires |a1| == |b1| && |a2| == |b2|
    ensures Mix(a1, b1) + Mix(a2, b2) == Mix(a1 + a2, b1 + b2)
  {
    var l, r := Mix(a1, b1) + Mix(a2, b2), Mix(a1 + a2, b1 + b2);
    forall i | 0 <= i < |l|
      ensures l[i] == r[i]
    {
      if i >= |a1| {
        assert (a1 + a2)[i] == a2[i - |a1|] && (b1 + b2)[i] == b2[i - |a1|];
      }
    }
  }

  /** Mixing the next `n` queued samples extends the mixed prefix of the two inputs by `n`. */
  lemma MixExtend(m: seq<Sample>, s: seq<Sample>, k: nat, n: nat)
    requires k + n <= |m| && k + n <= |s|
    ensures Mix(m[..k], s[..k]) + Mix(m[k..][..n], s[k..][..n]) == Mix(m[..k + n], s[..k + n])
  {
    MixAppend(m[..k], s[..k], m[k..][..n], s[k..][..n]);
    assert m[..k] + m[k..][..n] == m[..k + n];
    assert s[..k] + s[k..][..n] == s[..k + n];
  }

  /** What the stop flush appends when the side queues still hold `mic` and `sys`: with mixing,
      the common length is mixed, leftover microphone samples follow unmixed and surplus system
      samples are dropped; without mixing nothing is appended. */
  function Flush(mic: seq<Sample>, sys: seq<Sample>, mixAudio: bool): (r: seq<Sample>)
    ensures !mixAudio ==> r == []
    ensures mixAudio ==> |r| == |mic|
  {
    if !mixAudio then []
    else if |mic| > 0 && |sys| > 0 then
      var n := if |mic| < |sys| then |mic| else |sys|;
      Mix(mic[..n], sys[..n]) + mic[n..]
    else mic
  }

  /** Sample `i` of a mixing flush: summed where a system sample is queued beside it, the
      microphone sample alone otherwise. */
  lemma FlushSample(mic: seq<Sample>, sys: seq<Sample>, i: nat)
    requires i < |mic|
    ensures Flush(mic, sys, true)[i] == if i < |sys| then mic[i] + sys[i] else mic[i]
  {
  }

  /** The audio of a whole session, given everything the microphone (`micIn`) and the system
      stream (`sysIn`) delivered: when mixing, the sum over their common length followed by the
      microphone's surplus; otherwise the microphone alone. */
  function SessionAudio(micIn: seq<Sample>, sysIn: seq<Sample>, mixing: bool): (r: seq<Sample>)
    ensures |r| == |micIn|
  {
    if !mixing then micIn
    else
      var n := if |micIn| < |sysIn| then |micIn| else |sysIn|;
      Mix(micIn[..n], sysIn[..n]) + micIn[n..]
  }

  /** Sample `i` of a session's audio. */
  lemma SessionSample(micIn: seq<Sample>, sysIn: seq<Sample>, mixing: bool, i: nat)
    requires i < |micIn|
    ensures SessionAudio(micIn, sysIn, mixing)[i] == if mixing && i < |sysIn| then micIn[i] + sysIn[i] else micIn[i]
  {
  }

  /** The stop flush completes the session: whatever the mixer has already produced (the mix of
      the first `k` samples of each input) followed by the flush of what remains queued is the
      session's audio. */
  lemma FlushCompletesSession(m: seq<Sample>, s: seq<Sample>, k: nat)
    requires k <= |m| && k <= |s|
    ensures Mix(m[..k], s[..k]) + Flush(m[k..], s[k..], true) == SessionAudio(m, s, true)
  {
    var n := if |m| < |s| then |m| else |s|;
    assert SessionAudio(m, s, true) == Mix(m[..n], s[..n]) + m[n..];
    if |m[k..]| > 0 && |s[k..]| > 0 {
      assert Flush(m[k..], s[k..], true) == Mix(m[k..][..n - k], s[k..][..n - k]) + m[k..][n - k..];
      MixExtend(m, s, k, n - k);
      assert m[k..][n - k..] == m[n..];
    } else if |m[k..]| == 0 {
      assert n == k && m[k..] == m[n..] == [];
    } else {
      assert n == k;
    }
  }

  // ---------------------------------------------------------------------------------------
  // Device queries

  /** One entry of the audio backend's device list. */
  datatype PortDevice = PortDevice(name: string, maxInputChannels: int, defaultSampleRate: real, hostapi: int)

  /** A usable input device as reported to the rest of the program. */
  datatype InputDevice = InputDevice(index: int, name: string, channels: int, sampleRate: real, hostapi: int)

  function Describe(i: int, d: PortDevice): InputDevice {
    InputDevice(i, d.name, d.maxInputChannels, d.defaultSampleRate, d.hostapi)
  }

  /** The input devices among the first `n` backend entries, in backend order. */
  function InputDevices(all: seq<PortDevice>, n: nat): (r: seq<InputDevice>)
    requires n <= |all|
    ensures forall k :: 0 <= k < |r| ==>
      0 <= r[k].index < n && all[r[k].index].maxInputChannels > 0 && r[k] == Describe(r[k].index, all[r[k].index])
    ensures forall j, k :: 0 <= j < k < |r| ==> r[j].index < r[k].index
  {
    if n == 0 then []
    else InputDevices(all, n - 1) + (if all[n - 1].maxInputChannels > 0 then [Describe(n - 1, all[n - 1])] else [])
  }

  /** Every backend entry with an input channel is listed. */
  lemma {:induction false} InputDevicesComplete(all: seq<PortDevice>, n: nat, i: nat)
    requires n <= |all| && i < n && all[i].maxInputChannels > 0
    ensures Describe(i, all[i]) in InputDevices(all, n)
  {
    if i < n - 1 {
      InputDevicesComplete(all, n - 1, i);
    }
  }

  /** Lists the input devices; a failing backend query gives the empty list. */
  method ListAudioDevices(query: Option<seq<PortDevice>>) returns (devices: seq<InputDevice>)
    ensures query.None? ==> devices == []
    ensures query.Some? ==> devices == InputDevices(query.value, |query.value|)
  {
    devices := [];
    if query.None? {
      return;
    }
    var all := query.value;
    var i := 0;
    while i < |all|
      invariant 0 <= i <= |all|
      invariant devices == InputDevices(all, i)
    {
      if all[i].maxInputChannels > 0 {
        devices := devices + [Describe(i, all[i])];
      }
      i := i + 1;
    }
  }

  /** Whether a device's name contains the pattern, ignoring case. */
  predicate NameMatches(d: InputDevice, pattern: string) {
    Contains(Lower(d.name), Lower(pattern))
  }

  /** `r` is the index of the first listed device whose name matches the pattern, and None
      exactly when no listed device matches. */
  predicate FirstMatch(devices: seq<InputDevice>, pattern: string, r: Option<int>) {
    && (r.None? <==> forall k :: 0 <= k < |devices| ==> !NameMatches(devices[k], pattern))
    && (r.Some? ==> exists k :: 0 <= k < |devices| && devices[k].index == r.value
                      && NameMatches(devices[k], pattern)
                      && forall j :: 0 <= j < k ==> !NameMatches(devices[j], pattern))
  }

  /** The index of the first listed input device whose name contains the pattern, ignoring
      case; None when no listed device matches. */
  method FindDeviceByName(pattern: string, query: Option<seq<PortDevice>>) returns (r: Option<int>)
    ensures FirstMatch(if query.Some? then InputDevices(query.value, |query.value|) else [], pattern, r)
  {
    var devices := ListAudioDevices(query);
    var nameLower := Lower(pattern);
    var i := 0;
    while i < |devices|
      invariant 0 <= i <= |devices|
      invariant forall j :: 0 <= j < i ==> !NameMatches(devices[j], pattern)
    {
      if Contains(Lower(devices[i].name), nameLower) {
        r := Some(devices[i].index);
        assert NameMatches(devices[i], pattern);
        assert FirstMatch(devices, pattern, r);
        return;
      }
      i := i + 1;
    }
    r := None;
    assert FirstMatch(devices, pattern, r);
  }

  /** The name the loopback device is looked up by. */
  const LoopbackName: string := "BlackHole"

  /** The loopback device is looked up by the name LoopbackName. */
  method FindBlackHoleDevice(query: Option<seq<PortDevice>>) returns (r: Option<int>)
    ensures FirstMatch(if query.Some? then InputDevices(query.value, |query.value|) else [], LoopbackName, r)
  {
    r := FindDeviceByName(LoopbackName, query);
  }

  // ---------------------------------------------------------------------------------------
  // The recorder

  /** Which stream, if any, fails to be created or started. */
  datatype StreamFault = NoStreamFault | MicStreamFault | SystemStreamFault

  /** The audio backend as seen by `start_recording`: the default input device, the device
      indices that answer a query, and the stream that fails, if one does. */
  datatype DeviceEnv = DeviceEnv(defaultInput: Option<int>, available: set<int>, fault: StreamFault)

  datatype StartError = NoMicrophone | MicUnavailable(device: int) | StreamFailed

  /** The devices a start would use, or the error it raises. The system device is silently
      dropped when it does not answer the query. */
  function ResolveStart(env: DeviceEnv, micDevice: Option<int>, systemDevice: Option<int>): (r: Result<(int, bool), StartError>)
    ensures r.Success? ==> r.value.0 in env.available
    ensures r.Success? ==> r.value.1 == (systemDevice.Some? && systemDevice.value in env.available)
    ensures r == Failure(NoMicrophone) <==> micDevice.None? && env.defaultInput.None?
    ensures r.Failure? && r.error.MicUnavailable? ==> r.error.device !in env.available
    ensures r.Success? ==> !env.fault.MicStreamFault? && (env.fault.SystemStreamFault? ==> !r.value.1)
    ensures var mic := if micDevice.Some? then micDevice else env.defaultInput;
      r.Success? ==> mic.Some? && r.value.0 == mic.value
    ensures var mic := if micDevice.Some? then micDevice else env.defaultInput;
      r.Failure? && r.error.MicUnavailable? ==> mic == Some(r.error.device)
    ensures var mic := if micDevice.Some? then micDevice else env.defaultInput;
      var useSystem := systemDevice.Some? && systemDevice.value in env.available;
      (mic.Some? && mic.value in env.available && env.fault != MicStreamFault && !(useSystem && env.fault == SystemStreamFault)) ==>
        r == Success((mic.value, useSystem))
  {
    var mic := if micDevice.Some? then micDevice else env.defaultInput;
    if mic.None? then Failure(NoMicrophone)
    else if mic.value !in env.available then Failure(MicUnavailable(mic.value))
    else
      var useSystem := systemDevice.Some? && systemDevice.value in env.available;
      if env.fault == MicStreamFault || (useSystem && env.fault == SystemStreamFault) then Failure(StreamFailed)
      else Success((mic.value, useSystem))
  }

  /** The device checks and stream creation of `start_recording`, in the source's order: the
      default input stands in for a missing microphone, the microphone must answer a query, an
      unanswering system device is dropped, then the microphone stream and, if used, the system
      stream are opened. */
  method OpenStreams(env: DeviceEnv, micDevice: Option<int>, systemDevice: Option<int>)
    returns (r: Result<(int, bool), StartError>)
    ensures r == ResolveStart(env, micDevice, systemDevice)
  {
    var useSys := systemDevice.Some?;
    var device := micDevice;
    if device.None? {
      device := env.defaultInput;
      if device.None? {
        return Failure(NoMicrophone);
      }
    }
    if device.value !in env.available {
      return Failure(MicUnavailable(device.value));
    }
    if useSys && systemDevice.value !in env.available {
      useSys := false;
    }
    if env.fault == MicStreamFault {
      return Failure(StreamFailed);
    }
    if useSys && env.fault == SystemStreamFault {
      // The microphone stream had started; the cleanup stops it and clears its handle.
      return Failure(StreamFailed);
    }
    r := Success((device.value, useSys));
  }

  /** How the buffers of a running session relate to everything delivered so far (`micIn`,
      `sysIn`) and every amplitude computed (`amps`). When mixing, the session buffer is the mix
      of the first |audio| samples of each input and the queues hold the rest; otherwise the
      microphone goes straight to the session buffer and the system queue keeps its samples.
      The waveform history is the window of all amplitudes. */
  ghost predicate SessionInv(mixing: bool, audio: seq<Sample>, mic: seq<Sample>, system: seq<Sample>,
                             waveform: seq<real>, micIn: seq<Sample>, sysIn: seq<Sample>, amps: seq<real>)
  {
    && waveform == Window(amps)
    && if mixing then
         && |audio| <= |micIn| && |audio| <= |sysIn|
         && audio == Mix(micIn[..|audio|], sysIn[..|audio|])
         && mic == micIn[|audio|..] && system == sysIn[|audio|..]
       else
         mic == [] && audio == micIn && system == sysIn
  }

  /** A microphone block queued for the mixer keeps the invariant. */
  lemma QueueMicKeepsInv(audio: seq<Sample>, mic: seq<Sample>, system: seq<Sample>, waveform: seq<real>,
                         micIn: seq<Sample>, sysIn: seq<Sample>, amps: seq<real>, block: seq<Sample>)
    requires SessionInv(true, audio, mic, system, waveform, micIn, sysIn, amps)
    ensures SessionInv(true, audio, mic + block, system, waveform, micIn + block, sysIn, amps)
  {
    assert (micIn + block)[..|audio|] == micIn[..|audio|];
    assert (micIn + block)[|audio|..] == mic + block;
  }

  /** A microphone block recorded directly, with its waveform point, keeps the invariant. */
  lemma RecordMicKeepsInv(audio: seq<Sample>, mic: seq<Sample>, system: seq<Sample>, waveform: seq<real>,
                          micIn: seq<Sample>, sysIn: seq<Sample>, amps: seq<real>, block: seq<Sample>)
    requires SessionInv(false, audio, mic, system, waveform, micIn, sysIn, amps)
    ensures |waveform| <= Capacity
    ensures SessionInv(false, audio + block, mic, system, Push(waveform, Amplitude(block)),
                       micIn + block, sysIn, amps + [Amplitude(block)])
  {
    PushWindow(amps, Amplitude(block));
  }

  /** A system block keeps the invariant, whether or not the session mixes. */
  lemma QueueSystemKeepsInv(mixing: bool, audio: seq<Sample>, mic: seq<Sample>, system: seq<Sample>,
                            waveform: seq<real>, micIn: seq<Sample>, sysIn: seq<Sample>, amps: seq<real>,
                            block: seq<Sample>)
    requires SessionInv(mixing, audio, mic, system, waveform, micIn, sysIn, amps)
    ensures SessionInv(mixing, audio, mic, system + block, waveform, micIn, sysIn + block, amps)
  {
    if mixing {
      assert (sysIn + block)[..|audio|] == sysIn[..|audio|];
      assert (sysIn + block)[|audio|..] == system + block;
    }
  }

  /** A mix tick keeps the invariant: the popped buffers are the next samples of each input. */
  lemma MixTickKeepsInv(audio: seq<Sample>, mic: seq<Sample>, system: seq<Sample>, waveform: seq<real>,
                        micIn: seq<Sample>, sysIn: seq<Sample>, amps: seq<real>)
    requires SessionInv(true, audio, mic, system, waveform, micIn, sysIn, amps)
    requires |mic| >= BufferSize && |system| >= BufferSize
    ensures |waveform| <= Capacity
    ensures var mixed := Mix(mic[..BufferSize], system[..BufferSize]);
      SessionInv(true, audio + mixed, mic[BufferSize..], system[BufferSize..],
                 Push(waveform, Amplitude(mixed)), micIn, sysIn, amps + [Amplitude(mixed)])
  {
    var k := |audio|;
    var mixed := Mix(mic[..BufferSize], system[..BufferSize]);
    MixExtend(micIn, sysIn, k, BufferSize);
    assert micIn[k..][BufferSize..] == micIn[k + BufferSize..];
    assert sysIn[k..][BufferSize..] == sysIn[k + BufferSize..];
    PushWindow(amps, Amplitude(mixed));
  }

  /** At stop, the session buffer followed by the flush of the queues is the session's audio. */
  lemma StopCompletesSession(useSystem: bool, mixAudio: bool, audio: seq<Sample>, mic: seq<Sample>,
                             system: seq<Sample>, waveform: seq<real>, micIn: seq<Sample>,
                             sysIn: seq<Sample>, amps: seq<real>)
    requires SessionInv(useSystem && mixAudio, audio, mic, system, waveform, micIn, sysIn, amps)
    ensures audio + Flush(mic, system, mixAudio) == SessionAudio(micIn, sysIn, useSystem && mixAudio)
  {
    if useSystem && mixAudio {
      FlushCompletesSession(micIn, sysIn, |audio|);
    } else {
      assert Flush(mic, system, mixAudio) == [];
    }
  }

  /** A session with nothing delivered satisfies the invariant. */
  lemma EmptySessionInv(mixing: bool)
    ensures SessionInv(mixing, [], [], [], [], [], [], [])
  {
    assert Window([]) == [];
  }

  /** The final mix of `stop_recording` on the queues `mic` and `sys`: the common length is
      mixed, then the microphone's remainder is appended unmixed. */
  method FinalMix(mic: seq<Sample>, sys: seq<Sample>, mixAudio: bool) returns (flushed: seq<Sample>)
    ensures flushed == Flush(mic, sys, mixAudio)
  {
    flushed := [];
    var micLeft, systemLeft := mic, sys;
    if mixAudio && |micLeft| > 0 && |systemLeft| > 0 {
      var minLen := if |micLeft| < |systemLeft| then |micLeft| else |systemLeft|;
      var micRemaining := micLeft[..minLen];
      var systemRemaining := systemLeft[..minLen];
      micLeft, systemLeft := micLeft[minLen..], systemLeft[minLen..];
      flushed := flushed + Mix(micRemaining, systemRemaining);
    }
    if mixAudio && |micLeft| > 0 {
      flushed := flushed + micLeft;
    }
  }

  class AudioRecorder {
    /** The session buffer. */
    var audio: seq<Sample>
    /** Microphone samples waiting to be mixed. */
    var mic: seq<Sample>
    /** System samples waiting to be mixed. */
    var system: seq<Sample>
    /** The waveform history (at most 200 points). */
    var waveform: seq<real>
    var recording: bool
    /** Whether the microphone / system stream handle is set. */
    var micStream: bool
    var systemStream: bool
    /** The `mix_audio` setting of the current session. */
    var mixAudio: bool
    /** Whether the current session opened a system stream (the callbacks' `use_system`). */
    var useSystem: bool

    /** Everything the microphone and the system stream delivered this session, and every
        amplitude computed. */
    ghost var micIn: seq<Sample>
    ghost var sysIn: seq<Sample>
    ghost var amps: seq<real>

    /** Whether microphone samples are queued for the mixer rather than recorded directly. */
    predicate Mixing()
      reads this
    {
      useSystem && mixAudio
    }

    ghost predicate Valid()
      reads this
    {
      && micStream == recording && systemStream == (recording && useSystem)
      && SessionInv(Mixing(), audio, mic, system, waveform, micIn, sysIn, amps)
    }

    constructor ()
      ensures Valid() && !recording && !micStream && !systemStream
      ensures audio == [] && mic == [] && system == [] && waveform == []
    {
      audio, mic, system, waveform := [], [], [], [];
      recording, micStream, systemStream := false, false, false;
      mixAudio, useSystem := true, false;
      micIn, sysIn, amps := [], [], [];
    }

    /** Starts a session. A start while recording changes nothing. Otherwise the buffers are
        emptied first, and recording begins only once every stream has started; on an error no
        stream handle is left set. */
    method StartRecording(env: DeviceEnv, micDevice: Option<int>, systemDevice: Option<int>, mixAudio: bool)
      returns (err: Option<StartError>)
      requires Valid()
      modifies this
      ensures Valid()
      ensures old(recording) ==> err.None? && unchanged(this)
      ensures !old(recording) ==> var outcome := ResolveStart(env, micDevice, systemDevice);
        && err == (if outcome.Success? then None else Some(outcome.error))
        && recording == outcome.Success?
        && (outcome.Success? ==> useSystem == outcome.value.1)
        && this.mixAudio == mixAudio
        && audio == [] && mic == [] && system == [] && waveform == []
    {
      if recording {
        return None;
      }
      var streams := OpenStreams(env, micDevice, systemDevice);
      if streams.Failure? {
        ResetSession(mixAudio, false, false);
        return Some(streams.error);
      }
      ResetSession(mixAudio, streams.value.1, true);
      err := None;
    }

    /** Empties every buffer and sets the stream flags for a session that is (or is not) open. */
    method ResetSession(mixAudio: bool, useSystem: bool, open: bool)
      modifies this
      ensures Valid()
      ensures recording == open && this.mixAudio == mixAudio && this.useSystem == (open && useSystem)
      ensures audio == [] && mic == [] && system == [] && waveform == []
    {
      this.mixAudio, this.useSystem, audio, mic, system, waveform, micIn, sysIn, amps, micStream, systemStream, recording :=
        mixAudio, open && useSystem, [], [], [], [], [], [], [], open, open && useSystem, open;
      EmptySessionInv(Mixing());
    }

    /** A microphone block: queued for the mixer when mixing, otherwise appended to the session
        buffer with one waveform point. */
    method MicCallback(block: seq<Sample>)
      requires Valid() && micStream
      modifies this
      ensures Valid()
      ensures micIn == old(micIn) + block && sysIn == old(sysIn)
      ensures Mixing() ==> mic == old(mic) + block && audio == old(audio) && waveform == old(waveform)
      ensures !Mixing() ==> && audio == old(audio) + block && mic == old(mic)
                            && waveform == Push(old(waveform), Amplitude(block))
      ensures system == old(system) && recording == old(recording)
      ensures mixAudio == old(mixAudio) && useSystem == old(useSystem)
      ensures micStream == old(micStream) && systemStream == old(systemStream)
    {
      if useSystem && mixAudio {
        QueueMicKeepsInv(audio, mic, system, waveform, micIn, sysIn, amps, block);
        mic, micIn := mic + block, micIn + block;
      } else {
        RecordMicKeepsInv(audio, mic, system, waveform, micIn, sysIn, amps, block);
        var a := Amplitude(block);
        audio, waveform, micIn, amps := audio + block, Push(waveform, a), micIn + block, amps + [a];
      }
    }

    /** A system block is always queued. */
    method SystemCallback(block: seq<Sample>)
      requires Valid() && systemStream
      modifies this
      ensures Valid()
      ensures system == old(system) + block && sysIn == old(sysIn) + block
      ensures audio == old(audio) && mic == old(mic) && waveform == old(waveform)
      ensures micIn == old(micIn) && recording == old(recording)
      ensures mixAudio == old(mixAudio) && useSystem == old(useSystem)
      ensures micStream == old(micStream) && systemStream == old(systemStream)
    {
      QueueSystemKeepsInv(Mixing(), audio, mic, system, waveform, micIn, sysIn, amps, block);
      system, sysIn := system + block, sysIn + block;
    }

    /** One pass of the mixing thread: when recording and both queues hold a full buffer, the
        first 1024 samples of each are popped, their sum is appended to the session buffer and
        one waveform point is recorded. */
    method MixTick() returns (mixed: bool)
      requires Valid()
      modifies this
      ensures Valid()
      ensures mixed == (old(recording) && |old(mic)| >= BufferSize && |old(system)| >= BufferSize)
      ensures mixed ==> && mic == old(mic)[BufferSize..] && system == old(system)[BufferSize..]
                        && audio == old(audio) + Mix(old(mic)[..BufferSize], old(system)[..BufferSize])
                        && waveform == Push(old(waveform), Amplitude(Mix(old(mic)[..BufferSize], old(system)[..BufferSize])))
      ensures !mixed ==> audio == old(audio) && mic == old(mic) && system == old(system) && waveform == old(waveform)
      ensures micIn == old(micIn) && sysIn == old(sysIn) && recording == old(recording)
      ensures mixAudio == old(mixAudio) && useSystem == old(useSystem)
      ensures micStream == old(micStream) && systemStream == old(systemStream)
    {
      mixed := false;
      if recording && |mic| >= BufferSize && |system| >= BufferSize {
        MixTickKeepsInv(audio, mic, system, waveform, micIn, sysIn, amps);
        var micChunk := mic[..BufferSize];
        var systemChunk := system[..BufferSize];
        var m := Mix(micChunk, systemChunk);
        var a := Amplitude(m);
        mic, system, audio, waveform, amps := mic[BufferSize..], system[BufferSize..], audio + m, Push(waveform, a), amps + [a];
        mixed := true;
      }
    }

    /** Stops the session and returns its audio: the session buffer followed by the flush of the
        side queues, which is the session's audio (SessionAudio) and holds exactly as many samples
        as the microphone delivered. Afterwards every buffer is empty and no stream is open. A
        stop while not recording returns nothing and changes nothing. */
    method StopRecording() returns (data: seq<Sample>)
      requires Valid()
      modifies this
      ensures Valid()
      ensures !old(recording) ==> data == [] && unchanged(this)
      ensures old(recording) ==>
        && data == old(audio) + Flush(old(mic), old(system), old(mixAudio))
        && data == SessionAudio(old(micIn), old(sysIn), old(Mixing()))
        && |data| == |old(micIn)|
        && !recording && !micStream && !systemStream
        && audio == [] && mic == [] && system == [] && waveform == []
        && mixAudio == old(mixAudio) && useSystem == old(useSystem)
    {
      if !recording {
        return [];
      }
      StopCompletesSession(useSystem, mixAudio, audio, mic, system, waveform, micIn, sysIn, amps);
      var flushed := FinalMix(mic, system, mixAudio);
      data := audio + flushed;
      recording, micStream, systemStream, audio, mic, system, waveform, micIn, sysIn, amps :=
        false, false, false, [], [], [], [], [], [], [];
      EmptySessionInv(Mixing());
    }

    /** The waveform history: the newest 200 amplitudes of the session, oldest first. */
    method GetWaveformData() returns (w: seq<real>)
      requires Valid()
      ensures |w| == if |amps| < Capacity then |amps| else Capacity
      ensures w == amps[|amps| - |w|..]
    {
      w := waveform;
    }

    /** The newest amplitude of the session, or 0.0 before the first. */
    method GetCurrentAmplitude() returns (a: real)
      requires Valid()
      ensures |amps| > 0 ==> a == amps[|amps| - 1]
      ensures |amps| == 0 ==> a == 0.0
    {
      a := if |waveform| > 0 then waveform[|waveform| - 1] else 0.0;
    }
  }
}

/** The HTTP/WebSocket backend of the SwiftUI application: the recording start and stop
    endpoints with their guards, the speech trimming of a finished recording, the broadcast
    of events to the connected sockets, the configuration update endpoint and the device
    detection it shares with the start endpoint. The configuration is the dictionary the
    endpoint loaded; loading and saving it are inputs and outcomes. */
module Server {
  import opened Wrappers
  import opened Json
  import opened Capture
  import opened Vad
  import Waveform

  // ---------------------------------------------------------------------------------------
  // Audio device detection

  /** An optional device index as the JSON value Python would hold (`None` or an int). */
  function DeviceJson(d: Option<int>): (r: Json)
    ensures d.None? <==> r.JNull?
    ensures d.Some? ==> r == JInt(d.value)
  {
    if d.Some? then JInt(d.value) else JNull
  }

  /** Whether the audio section asks for auto-detection (`auto_detect_devices`, default true). */
  predicate AutoDetect(audio: Object) {
    Truthy(Get(audio, "auto_detect_devices", JBool(true)))
  }

  /** The microphone and system devices for a start: the configured values, with an unset
      (`None`) slot filled from the default input device and the BlackHole search when
      auto-detection is on. */
  function DetectAudioDevices(audio: Object, defaultInput: Option<int>, blackhole: Option<int>): (r: (Json, Json))
    ensures !AutoDetect(audio) ==> r == (Get(audio, "microphone_device", JNull), Get(audio, "system_audio_device", JNull))
    ensures r.0 == Get(audio, "microphone_device", JNull) || r.0 == DeviceJson(defaultInput)
    ensures r.1 == Get(audio, "system_audio_device", JNull) || r.1 == DeviceJson(blackhole)
  {
    var mic := Get(audio, "microphone_device", JNull);
    var system := Get(audio, "system_audio_device", JNull);
    if AutoDetect(audio) then
      (if mic.JNull? then DeviceJson(defaultInput) else mic,
       if system.JNull? then DeviceJson(blackhole) else system)
    else (mic, system)
  }

  /** A configured device is kept whatever auto-detection says; an unset slot is filled only when
      auto-detection is on, and then from the detected device. */
  lemma DetectKeepsConfigured(audio: Object, defaultInput: Option<int>, blackhole: Option<int>)
    ensures var r := DetectAudioDevices(audio, defaultInput, blackhole);
      && (!Get(audio, "microphone_device", JNull).JNull? ==> r.0 == audio["microphone_device"])
      && (!Get(audio, "system_audio_device", JNull).JNull? ==> r.1 == audio["system_audio_device"])
      && (Get(audio, "microphone_device", JNull).JNull? ==> r.0 == if AutoDetect(audio) then DeviceJson(defaultInput) else JNull)
      && (Get(audio, "system_audio_device", JNull).JNull? ==> r.1 == if AutoDetect(audio) then DeviceJson(blackhole) else JNull)
  {
  }

  /** Writing the detected devices into the configuration and detecting again changes nothing. */
  lemma DetectFixpoint(audio: Object, defaultInput: Option<int>, blackhole: Option<int>)
    ensures var r := DetectAudioDevices(audio, defaultInput, blackhole);
      DetectAudioDevices(audio["microphone_device" := r.0]["system_audio_device" := r.1], defaultInput, blackhole) == r
  {
    var r := DetectAudioDevices(audio, defaultInput, blackhole);
    var a2 := audio["microphone_device" := r.0]["system_audio_device" := r.1];
    assert Get(a2, "auto_detect_devices", JBool(true)) == Get(audio, "auto_detect_devices", JBool(true));
    assert Get(a2, "microphone_device", JNull) == r.0;
    assert Get(a2, "system_audio_device", JNull) == r.1;
  }

  /** The audio section of the configuration (`cfg.get("audio", {})`), or None when it is not
      a dictionary, on which `.get` raises. */
  function AudioSection(cfg: Object): (r: Option<Object>)
    ensures "audio" !in cfg ==> r == Some(map[])
    ensures "audio" in cfg ==> (r.Some? <==> cfg["audio"].JObj?)
    ensures "audio" in cfg && cfg["audio"].JObj? ==> r == Some(cfg["audio"].fields)
  {
    if "audio" !in cfg then Some(map[])
    else if cfg["audio"].JObj? then Some(cfg["audio"].fields)
    else None
  }

  // ---------------------------------------------------------------------------------------
  // Replies

  /** The start endpoint's replies: success, "Already recording", "No microphone device
      available", an error raised by the recorder, or a configuration the endpoint cannot use. */
  datatype StartReply = Started | AlreadyRecording | NoMicrophoneDevice | StartFailed(error: StartError) | BadAudioConfig

  /** The stop endpoint's replies: "Not recording", "No audio recorded", or processing begun. */
  datatype StopReply = NotRecording | NoAudio | Processing

  /** What a start would hand to the recorder: the microphone, the system device and `mix_audio`. */
  datatype StartPlan = StartPlan(mic: int, system: Option<int>, mixAudio: bool)

  /** The configuration side of a start: the audio section, the detected devices and the mixing
      flag, or the reply that ends the start before the recorder is asked. */
  function PlanStart(cfg: Object, defaultInput: Option<int>, blackhole: Option<int>): (r: Result<StartPlan, StartReply>)
    ensures r.Failure? ==> r.error in {NoMicrophoneDevice, BadAudioConfig}
    ensures r.Success? ==>
      && AudioSection(cfg).Some?
      && DetectAudioDevices(AudioSection(cfg).value, defaultInput, blackhole).0 == JInt(r.value.mic)
      && DetectAudioDevices(AudioSection(cfg).value, defaultInput, blackhole).1 == DeviceJson(r.value.system)
      && r.value.mixAudio == Truthy(Get(AudioSection(cfg).value, "mix_audio", JBool(true)))
    ensures r == Failure(NoMicrophoneDevice) <==>
      AudioSection(cfg).Some? && DetectAudioDevices(AudioSection(cfg).value, defaultInput, blackhole).0.JNull?
    ensures AudioSection(cfg).Some? ==>
      var d := DetectAudioDevices(AudioSection(cfg).value, defaultInput, blackhole);
      (d.0.JInt? && (d.1.JNull? || d.1.JInt?)) ==> r.Success?
    ensures r == Failure(BadAudioConfig) <==>
      || AudioSection(cfg).None?
      || (var d := DetectAudioDevices(AudioSection(cfg).value, defaultInput, blackhole);
          !d.0.JNull? && !(d.0.JInt? && (d.1.JNull? || d.1.JInt?)))
  {
    var section := AudioSection(cfg);
    if section.None? then Failure(BadAudioConfig)
    else
      var devices := DetectAudioDevices(section.value, defaultInput, blackhole);
      if devices.0.JNull? then Failure(NoMicrophoneDevice)
      else if !devices.0.JInt? || !(devices.1.JNull? || devices.1.JInt?) then Failure(BadAudioConfig)
      else
        var system := if devices.1.JInt? then Some(devices.1.i) else None;
        Success(StartPlan(devices.0.i, system, Truthy(Get(section.value, "mix_audio", JBool(true)))))
  }

  // ---------------------------------------------------------------------------------------
  // The server state

  /** A connected WebSocket, by identity. */
  type Socket = nat

  /** The transcription event sent to every client. */
  function TranscriptionEvent(text: string): (r: Json)
    ensures r.JObj? && "type" in r.fields && "text" in r.fields
    ensures r.fields["type"] == JStr("transcription") && r.fields["text"] == JStr(text)
  {
    JObj(map["type" := JStr("transcription"), "text" := JStr(text)])
  }

  /** The waveform event a waveform update sends. */
  function WaveformEvent(points: seq<real>): (r: Json)
    ensures r.JObj? && "type" in r.fields && "data" in r.fields
    ensures r.fields["type"] == JStr("waveform")
    ensures r.fields["data"].JArr? && |r.fields["data"].items| == |points|
    ensures forall i :: 0 <= i < |points| ==> r.fields["data"].items[i] == JReal(points[i])
  {
    JObj(map["type" := JStr("waveform"),
             "data" := JArr(seq(|points|, i requires 0 <= i < |points| => JReal(points[i])))])
  }

  /** The module globals of the server: the recording flag, the connected sockets and the
      recorder the endpoints drive. */
  class LocalFlowServer {
    var recording: bool
    var sockets: set<Socket>
    const recorder: AudioRecorder

    /** The flag says whether the recorder is recording. */
    ghost predicate Valid()
      reads this, recorder
    {
      recorder.Valid() && recording == recorder.recording
    }

    constructor ()
      ensures Valid() && !recording && sockets == {} && fresh(recorder)
    {
      recording := false;
      sockets := {};
      recorder := new AudioRecorder();
    }

    /** `POST /api/recording/start`. While recording it replies "Already recording" and changes
        nothing. Otherwise, up to the first error, it plans the start from the configuration
        and hands the plan to the recorder; the flag is set only once the recorder has started.
        `defaultInput` and `blackhole` are what the recorder's device queries return. */
    method StartRecording(cfg: Object, env: DeviceEnv, blackhole: Option<int>) returns (reply: StartReply)
      requires Valid()
      modifies this, recorder
      ensures Valid() && sockets == old(sockets)
      ensures old(recording) ==> reply == AlreadyRecording && unchanged(this, recorder)
      ensures !old(recording) ==> var plan := PlanStart(cfg, env.defaultInput, blackhole);
        && (plan.Failure? ==> reply == plan.error && unchanged(this, recorder))
        && (plan.Success? ==>
             var outcome := ResolveStart(env, Some(plan.value.mic), plan.value.system);
             && reply == (if outcome.Success? then Started else StartFailed(outcome.error))
             && recording == outcome.Success?
             && recorder.mixAudio == plan.value.mixAudio
             && recorder.audio == [] && recorder.waveform == [])
      ensures recording ==> reply == Started || reply == AlreadyRecording
    {
      if recording {
        return AlreadyRecording;
      }
      var plan := PlanStart(cfg, env.defaultInput, blackhole);
      if plan.Failure? {
        return plan.error;
      }
      var err := recorder.StartRecording(env, Some(plan.value.mic), plan.value.system, plan.value.mixAudio);
      if err.Some? {
        return StartFailed(err.value);
      }
      recording := true;
      reply := Started;
    }

    /** `POST /api/recording/stop`. When idle it replies "Not recording" and changes nothing.
        Otherwise the flag is cleared before the recorder is drained; an empty capture replies
        "No audio recorded" and transcribes nothing, and any other capture is handed on for
        transcription, trimmed to its speech when the detector is loaded and does not fail
        (`vadLoaded`, `vadFails`). */
    method StopRecording(vadLoaded: bool, session: Session, vadFails: bool)
      returns (reply: StopReply, transcribe: Option<seq<Capture.Sample>>)
      requires Valid()
      modifies this, recorder
      ensures Valid() && sockets == old(sockets)
      ensures !old(recording) ==> reply == NotRecording && transcribe.None? && unchanged(this, recorder)
      ensures old(recording) ==> !recording
      ensures old(recording) ==>
        var data := SessionAudio(old(recorder.micIn), old(recorder.sysIn), old(recorder.Mixing()));
        && (|data| == 0 ==> reply == NoAudio && transcribe.None?)
        && (|data| > 0 ==> reply == Processing && transcribe == Some(TrimmedForTranscription(vadLoaded && !vadFails, session, data)))
    {
      if !recording {
        return NotRecording, None;
      }
      recording := false;
      var data := recorder.StopRecording();
      if |data| == 0 {
        return NoAudio, None;
      }
      reply := Processing;
      transcribe := Some(TrimmedForTranscription(vadLoaded && !vadFails, session, data));
    }

    /** Sends `message` to every connected socket and then drops exactly those whose send failed
        (`failing`). With no socket connected nothing happens. */
    method Broadcast(message: Json, failing: set<Socket>) returns (sent: set<Socket>)
      modifies this
      ensures sent == old(sockets)
      ensures sockets == old(sockets) - failing
      ensures recording == old(recording)
    {
      if sockets == {} {
        return {};
      }
      var disconnected: set<Socket> := {};
      var rest := sockets;
      sent := {};
      while rest != {}
        invariant rest <= sockets
        invariant sent == sockets - rest
        invariant disconnected == sent * failing
        decreases |rest|
      {
        var s :| s in rest;
        sent := sent + {s};
        if s in failing {
          disconnected := disconnected + {s};
        }
        rest := rest - {s};
      }
      sockets := sockets - disconnected;
    }

    /** A finished transcription: the transcription event goes to every client, and the text is
        injected only when an injector exists and the text is not empty. */
    method Complete(text: string, injectorPresent: bool, failing: set<Socket>)
      returns (message: Json, delivered: set<Socket>, inject: bool)
      modifies this
      ensures message == TranscriptionEvent(text)
      ensures delivered == old(sockets) && sockets == old(sockets) - failing
      ensures inject == (injectorPresent && text != "")
      ensures recording == old(recording)
    {
      message := TranscriptionEvent(text);
      delivered := Broadcast(message, failing);
      inject := injectorPresent && text != "";
    }

    /** One pass of the waveform update loop: while recording, a non-empty history is broadcast. */
    method WaveformUpdate(failing: set<Socket>) returns (message: Option<Json>)
      requires Valid()
      modifies this
      ensures Valid()
      ensures message.Some? <==> old(recording) && |recorder.amps| > 0
      ensures message.Some? ==> message.value == WaveformEvent(Waveform.Window(recorder.amps))
      ensures message.Some? ==> sockets == old(sockets) - failing
      ensures message.None? ==> sockets == old(sockets)
      ensures recording == old(recording)
    {
      if !recording {
        return None;
      }
      var w := recorder.GetWaveformData();
      if |w| == 0 {
        return None;
      }
      message := Some(WaveformEvent(w));
      var _ := Broadcast(message.value, failing);
    }

    /** A client connects to `/ws`. */
    method Connect(s: Socket)
      modifies this
      ensures sockets == old(sockets) + {s} && recording == old(recording)
    {
      sockets := sockets + {s};
    }

    /** A client's connection ends, cleanly or with an error; it leaves the set. */
    method Disconnect(s: Socket)
      modifies this
      ensures sockets == old(sockets) - {s} && recording == old(recording)
    {
      sockets := sockets - {s};
    }
  }
}

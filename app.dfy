/** The menu-bar application's session controller: the recording flag with its start, stop and
    cancel guards, the hotkey trigger in toggle and hold mode, the key handlers that feed the
    hotkey listener, and the speech trimming of a finished recording. The configuration is the
    dictionary loaded at start-up. */
module App {
  import opened Wrappers
  import opened Json
  import opened Capture
  import opened Vad
  import opened Hotkeys
  import opened Server

  /** A device index survives detection only if the audio backend answers a query for it. */
  function Answering(d: Option<int>, available: set<int>): (r: Option<int>)
    ensures r.Some? <==> d.Some? && d.value in available
    ensures r.Some? ==> r == d
  {
    if d.Some? && d.value in available then d else None
  }

  /** The application's device detection: configured devices are kept; with auto-detection on,
      an unset microphone becomes the default input device and an unset system device the
      BlackHole device, each dropped again when a query for it fails. */
  function DetectDevices(audio: Object, env: DeviceEnv, blackhole: Option<int>): (r: (Json, Json))
    ensures !AutoDetect(audio) ==> r == (Get(audio, "microphone_device", JNull), Get(audio, "system_audio_device", JNull))
    ensures r.0 == Get(audio, "microphone_device", JNull) || r.0 == DeviceJson(Answering(env.defaultInput, env.available))
    ensures r.1 == Get(audio, "system_audio_device", JNull) || r.1 == DeviceJson(Answering(blackhole, env.available))
  {
    var mic := Get(audio, "microphone_device", JNull);
    var system := Get(audio, "system_audio_device", JNull);
    if Truthy(Get(audio, "auto_detect_devices", JBool(true))) then
      (if mic.JNull? then
         (if env.defaultInput.Some? && env.defaultInput.value !in env.available then JNull else DeviceJson(env.defaultInput))
       else mic,
       if system.JNull? then
         (if blackhole.Some? && blackhole.value !in env.available then JNull else DeviceJson(blackhole))
       else system)
    else (mic, system)
  }

  /** The application detects exactly what the backend would detect if its device queries
      returned only devices that answer. */
  lemma DetectDevicesAsBackend(audio: Object, env: DeviceEnv, blackhole: Option<int>)
    ensures DetectDevices(audio, env, blackhole) ==
      DetectAudioDevices(audio, Answering(env.defaultInput, env.available), Answering(blackhole, env.available))
  {
  }

  /** An auto-detected device answers a query; a configured one is passed on as configured. */
  lemma DetectedDevicesAnswer(audio: Object, env: DeviceEnv, blackhole: Option<int>)
    ensures var r := DetectDevices(audio, env, blackhole);
      && (Get(audio, "microphone_device", JNull).JNull? && r.0.JInt? ==> r.0.i in env.available)
      && (Get(audio, "system_audio_device", JNull).JNull? && r.1.JInt? ==> r.1.i in env.available)
      && (!Get(audio, "microphone_device", JNull).JNull? ==> r.0 == audio["microphone_device"])
      && (!Get(audio, "system_audio_device", JNull).JNull? ==> r.1 == audio["system_audio_device"])
  {
    DetectDevicesAsBackend(audio, env, blackhole);
    DetectKeepsConfigured(audio, Answering(env.defaultInput, env.available), Answering(blackhole, env.available));
  }

  /** The start plan of the application: the backend's plan over the answering devices. */
  function AppPlan(config: Object, env: DeviceEnv, blackhole: Option<int>): Result<StartPlan, StartReply> {
    PlanStart(config, Answering(env.defaultInput, env.available), Answering(blackhole, env.available))
  }

  /** How a start from idle ends with the single-stream recorder that the application
      actually imports: an unset microphone without auto-detection stops at "no microphone";
      every other path raises, because that recorder has neither device lookup and its
      `start_recording` accepts no device arguments, and the handler clears the flag. */
  datatype ImportedStart = ImportedNoMicrophone | ImportedRaised

  function StartWithImportedRecorder(config: Object): (r: ImportedStart)
    ensures r == ImportedNoMicrophone <==>
      AudioSection(config).Some? && !AutoDetect(AudioSection(config).value)
      && Get(AudioSection(config).value, "microphone_device", JNull).JNull?
  {
    match AudioSection(config)
    case None => ImportedRaised
    case Some(audio) =>
      var mic := Get(audio, "microphone_device", JNull);
      var system := Get(audio, "system_audio_device", JNull);
      if AutoDetect(audio) && (mic.JNull? || system.JNull?) then ImportedRaised
      else if mic.JNull? then ImportedNoMicrophone
      else ImportedRaised
  }

  /** A configured, answering microphone: the application's start as written raises, where the
      start against the two-stream recorder plans that microphone and the recorder accepts it. */
  lemma ImportedRecorderCounterexample()
    ensures var config := map["audio" := JObj(map["auto_detect_devices" := JBool(false), "microphone_device" := JInt(0)])];
      var env := DeviceEnv(Some(0), {0}, NoStreamFault);
      && StartWithImportedRecorder(config) == ImportedRaised
      && AppPlan(config, env, None) == Success(StartPlan(0, None, true))
      && ResolveStart(env, Some(0), None) == Success((0, false))
  {
    var audio := map["auto_detect_devices" := JBool(false), "microphone_device" := JInt(0)];
    var config := map["audio" := JObj(audio)];
    assert AudioSection(config) == Some(audio);
    assert "system_audio_device" !in audio;
    assert "mix_audio" !in audio;
  }

  /** What a hotkey trigger did. */
  datatype Trigger = StartAttempted(reply: StartReply) | StopAttempted(transcribe: Option<seq<Capture.Sample>>) | Ignored

  /** The configured mode (`mode`, default "toggle"). */
  function Mode(config: Object): Json {
    Get(config, "mode", JStr("toggle"))
  }

  class LocalFlowApp {
    var recording: bool
    const config: Object
    const recorder: AudioRecorder
    /** The voice-activity detector, or null when it is disabled. */
    const vad: SileroVad?

    /** The flag says whether the recorder is recording. */
    ghost predicate Valid()
      reads this, recorder
    {
      recorder.Valid() && recording == recorder.recording
    }

    constructor (config: Object, vad: SileroVad?)
      ensures Valid() && !recording && this.config == config && this.vad == vad && fresh(recorder)
    {
      this.config := config;
      this.vad := vad;
      recording := false;
      recorder := new AudioRecorder();
    }

    /** Starts a recording. While recording it does nothing. Otherwise the flag is set first and
        restored to false when the audio section is unusable, no microphone is found, or the
        recorder fails to start. */
    method StartRecording(env: DeviceEnv, blackhole: Option<int>) returns (reply: StartReply)
      requires Valid()
      modifies this, recorder
      ensures Valid()
      ensures old(recording) ==> reply == AlreadyRecording && unchanged(this, recorder)
      ensures !old(recording) ==> var plan := AppPlan(config, env, blackhole);
        && (plan.Failure? ==> reply == plan.error && !recording && unchanged(recorder))
        && (plan.Success? ==>
             var outcome := ResolveStart(env, Some(plan.value.mic), plan.value.system);
             && reply == (if outcome.Success? then Started else StartFailed(outcome.error))
             && recording == outcome.Success?
             && recorder.mixAudio == plan.value.mixAudio
             && recorder.audio == [] && recorder.waveform == [])
      ensures recording <==> old(recording) || reply == Started
    {
      if recording {
        return AlreadyRecording;
      }
      recording := true;
      var section := AudioSection(config);
      if section.None? {
        recording := false;
        return BadAudioConfig;
      }
      var devices := DetectDevices(section.value, env, blackhole);
      DetectDevicesAsBackend(section.value, env, blackhole);
      if devices.0.JNull? {
        recording := false;
        return NoMicrophoneDevice;
      }
      if !devices.0.JInt? || !(devices.1.JNull? || devices.1.JInt?) {
        recording := false;
        return BadAudioConfig;
      }
      var mixAudio := Truthy(Get(section.value, "mix_audio", JBool(true)));
      var system := if devices.1.JInt? then Some(devices.1.i) else None;
      var err := recorder.StartRecording(env, Some(devices.0.i), system, mixAudio);
      if err.Some? {
        recording := false;
        return StartFailed(err.value);
      }
      reply := Started;
    }

    /** Stops a recording. When idle it does nothing. Otherwise the flag is cleared and the
        recorder drained; an empty capture dispatches nothing, and any other capture is
        dispatched for transcription, trimmed to its speech when a detector with a session
        exists and the boundaries it finds are a non-empty range. `vadFails` says that the
        boundary search raises, in which case the whole capture is dispatched. */
    method StopRecording(vadFails: bool) returns (transcribe: Option<seq<Capture.Sample>>)
      requires Valid()
      modifies this, recorder, vad
      ensures Valid()
      ensures !old(recording) ==> transcribe.None? && unchanged(this, recorder)
      ensures !old(recording) && vad != null ==> unchanged(vad)
      ensures old(recording) ==> !recording && !recorder.recording && recorder.audio == []
      ensures old(recording) ==>
        var data := SessionAudio(old(recorder.micIn), old(recorder.sysIn), old(recorder.Mixing()));
        && (|data| == 0 ==> transcribe.None?)
        && (|data| > 0 && vad != null && old(vad.loaded) && !vadFails ==>
              transcribe == Some(TrimmedForTranscription(true, vad.session, data)))
        && (|data| > 0 && !(vad != null && old(vad.loaded) && !vadFails) ==> transcribe == Some(data))
    {
      if !recording {
        return None;
      }
      recording := false;
      var data := recorder.StopRecording();
      if |data| == 0 {
        return None;
      }
      var toTranscribe := data;
      if vad != null && vad.loaded && !vadFails {
        var start, end := vad.FindSpeechBoundaries(data, 100);
        if start < end {
          toTranscribe := data[start..end];
        }
      }
      transcribe := Some(toTranscribe);
    }

    /** Cancels a recording: when idle nothing happens; otherwise the flag is cleared and the
        recorder drained, and nothing is transcribed. */
    method CancelRecording()
      requires Valid()
      modifies this, recorder
      ensures Valid()
      ensures !old(recording) ==> unchanged(this, recorder)
      ensures old(recording) ==> !recording && !recorder.recording
      ensures old(recording) ==> recorder.audio == [] && recorder.mic == [] && recorder.system == [] && recorder.waveform == []
    {
      if !recording {
        return;
      }
      recording := false;
      var _ := recorder.StopRecording();
    }

    /** The hotkey trigger. In toggle mode (`mode` "toggle", the default) it starts when idle
        and stops when recording; in any other mode it only starts, from idle, and a trigger
        while recording is ignored. */
    method OnHotkeyTriggered(env: DeviceEnv, blackhole: Option<int>, vadFails: bool) returns (action: Trigger)
      requires Valid()
      modifies this, recorder, vad
      ensures Valid()
      ensures action.StartAttempted? <==> !old(recording)
      ensures action.StopAttempted? <==> old(recording) && Mode(config) == JStr("toggle")
      ensures action.Ignored? <==> old(recording) && Mode(config) != JStr("toggle")
      ensures action.Ignored? ==> unchanged(this, recorder)
      ensures action.StopAttempted? ==> !recording
      ensures action.StartAttempted? ==> (recording <==> action.reply == Started)
    {
      if Mode(config) == JStr("toggle") {
        if recording {
          var t := StopRecording(vadFails);
          action := StopAttempted(t);
        } else {
          var r := StartRecording(env, blackhole);
          action := StartAttempted(r);
        }
      } else {
        if !recording {
          var r := StartRecording(env, blackhole);
          action := StartAttempted(r);
        } else {
          action := Ignored;
        }
      }
    }

    /** A key press reaches the listener; an accepted press runs the trigger. */
    method KeyPressed(listener: HotkeyListener, key: Key, now: int, env: DeviceEnv, blackhole: Option<int>, vadFails: bool)
      returns (action: Option<Trigger>)
      requires Valid() && listener.Valid()
      modifies this, recorder, vad, listener
      ensures Valid() && listener.Valid()
      ensures listener.pressed == old(listener.pressed) + {key}
      ensures action.Some? <==>
        ComboPressed(listener.pressed, listener.mainKey, listener.modifierKeys) && now - old(listener.lastTrigger) >= DebounceMs
      ensures action.None? ==> recording == old(recording)
      ensures action.Some? ==> (action.value.StartAttempted? <==> !old(recording))
      ensures action.Some? ==> (action.value.StopAttempted? <==> old(recording) && Mode(config) == JStr("toggle"))
      ensures action.Some? && action.value.StartAttempted? ==> (recording <==> action.value.reply == Started)
      ensures action.Some? && !action.value.StartAttempted? ==> (recording <==> action.value.Ignored?)
    {
      var triggered := listener.OnPress(key, now);
      if !triggered {
        return None;
      }
      var t := OnHotkeyTriggered(env, blackhole, vadFails);
      action := Some(t);
    }

    /** A key release reaches the listener; in hold mode (`mode` exactly "hold") while recording,
        releasing the main key stops the recording. */
    method KeyReleased(listener: HotkeyListener, key: Key, vadFails: bool) returns (stopped: Option<Option<seq<Capture.Sample>>>)
      requires Valid() && listener.Valid()
      modifies this, recorder, vad, listener
      ensures Valid() && listener.Valid()
      ensures listener.pressed == old(listener.pressed) - {key}
      ensures stopped.Some? <==> Mode(config) == JStr("hold") && old(recording) && IsMainKey(key, listener.mainKey)
      ensures stopped.Some? ==> !recording
      ensures stopped.None? ==> recording == old(recording)
    {
      var stop := listener.OnRelease(key, Mode(config) == JStr("hold") && recording);
      if !stop {
        return None;
      }
      var t := StopRecording(vadFails);
      stopped := Some(t);
    }
  }
}

# LocalFlow, modelled in Dafny

LocalFlow is a local dictation tool for macOS. A global hotkey (or an HTTP call to its backend)
starts a recording. The recording takes the microphone and, optionally, a loopback device
(BlackHole), each as its own stream, and mixes them. When the recording stops, Silero voice
activity detection trims it to the speech it contains. MLX-Whisper transcribes the result, and
the text is broadcast to WebSocket clients and may be injected into the focused element.

This project models the core of that program and proves properties of the model:

- `capture.dfy` (module `Capture`): the two-stream recorder of the backend engine. It covers
  device listing and lookup, the start checks, the microphone, system and mixer callbacks, the
  stop flush and the waveform history. Its session invariant ties the recorder's buffers to
  everything both streams delivered. Stopping returns the session's audio: the per-sample mix
  over the common length, followed by the microphone's surplus.
- `legacy_capture.dfy` (`LegacyCapture`): the single-stream recorder of the application engine.
- `waveform.dfy` (`Waveform`): the 200-point amplitude history (a bounded deque) and the mean
  absolute amplitude of a block.
- `vad.dfy` (`Vad`): the Silero detector. It covers the 512-sample chunk normalisation, the
  0.5 threshold with its fallback on inference errors, the recurrent state, chunk-by-chunk
  labelling and the padded speech boundaries. The ONNX session is an uninterpreted function
  from a chunk and a state to an output.
- `models.dfy` (`Models`): the Whisper model table, the model-name classifier and cache paths,
  and the transcriber's list, download, load and transcribe operations.
- `config_merge.dfy` (`ConfigMerge`) and `server.dfy` (`Server`): the backend's configuration
  update and device detection, plus the start, stop, broadcast, completion, waveform and
  WebSocket handlers.
- `hotkeys.dfy` (`Hotkeys`) and `app.dfy` (`App`): the menu-bar application. This covers
  hotkey registration, the combination test, the 200 ms debounce, hold-mode release, the
  toggle/hold trigger, and start, stop and cancel with speech trimming.
- `injector.dfy` (`Injector`): the key-code table for simulated typing, the typing loop and
  the order in which injection methods are tried.
- `settings.dfy` (`Settings`): the preferences window. It covers hotkey display, hotkey
  capture from key presses, and the save that writes the hotkey and mode into the
  configuration.
- `json.dfy`, `text.dfy` and `wrappers.dfy` define the shared vocabulary:
  - JSON-like configuration values;
  - the ASCII part of Python's string methods (`lower`, `title`, `join`, `replace`, `in`);
  - `Option` and `Result`.

The key-code table sends digit 7 and the newline as the same code, 36
(`Injector.SevenTypesReturn`). Besides letter case, this is the only pair of characters that
share a code (`Injector.KeycodeCollisions`).

The configuration file, the audio backend, the accessibility API, the ONNX and Whisper runtimes
and the clock are not modelled; their answers are parameters. Device queries are the set of
device indices that answer. A stream failure is a `StreamFault`. An accessibility outcome is a
flag in `InjectEnv`. Time is an integer number of milliseconds. Successful transcription output
is a function parameter. The configuration is a map from strings to JSON values.

The application (`main.py`) imports the single-stream recorder of `engine/audio.py`. It
nevertheless calls that recorder with device lookups and device arguments that only the
two-stream recorder of `backend/engine/audio.py` has. `App` models the controller against the
two-stream recorder (`Capture.AudioRecorder`), the one those calls are written for. What the
program does as written is recorded under "Findings". The application also imports
`engine/vad.py`, which is not part of this model; `App` uses the backend's detector (`Vad`) in
its place.

## Model

| member | source | states |
|---|---|---|
| Capture.Mix | backend/engine/audio.py:213-217 | the mix has the inputs' length and each sample is the sum of the two inputs' samples |
| Capture.MixAppend | backend/engine/audio.py:209-220 | mixing two runs piece by piece gives the mix of the whole runs |
| Capture.MixExtend | backend/engine/audio.py:209-220 | mixing the next n queued samples extends the mixed prefix of both inputs by n |
| Capture.Flush | backend/engine/audio.py:348-362 | the stop flush mixes the common length, appends the microphone's leftover and drops surplus system samples; without mixing it appends nothing |
| Capture.FlushSample | backend/engine/audio.py:351-362 | flush sample i is the sum where a system sample is queued beside it, else the microphone sample alone |
| Capture.SessionAudio | backend/engine/audio.py:171-220 | a session's audio: with mixing, the mix over the common length followed by the microphone's surplus; without mixing, the microphone alone |
| Capture.SessionSample | backend/engine/audio.py:171-220 | each sample of a session's audio, by position |
| Capture.FlushCompletesSession | backend/engine/audio.py:348-369 | what the mixer has produced, followed by the flush of what is queued, is the session's audio |
| Capture.InputDevices | backend/engine/audio.py:47-61 | the listing holds exactly the backend entries with an input channel, in backend order, with their index |
| Capture.InputDevicesComplete | backend/engine/audio.py:50-58 | every backend entry with an input channel is listed |
| Capture.ListAudioDevices | backend/engine/audio.py:37-61 | the listing loop computes the input-device listing; a failing query gives the empty list |
| Capture.FindDeviceByName | backend/engine/audio.py:64-78 | the result is the index of the first listed device whose name contains the pattern ignoring case, and None exactly when no listed device matches |
| Capture.FindBlackHoleDevice | backend/engine/audio.py:81-87 | the index of the first listed device whose name contains "BlackHole" ignoring case, and None exactly when no listed device's name does |
| Capture.ResolveStart | backend/engine/audio.py:131-157 | the device used is the given microphone, else the default input; no microphone, or one that does not answer, is an error naming that device; an unanswering system device is dropped; a failing used stream is an error; and the start succeeds with that microphone whenever it answers and no used stream fails |
| Capture.OpenStreams | backend/engine/audio.py:131-295 | the device checks and stream creation, in order, end as ResolveStart says |
| Capture.QueueMicKeepsInv | backend/engine/audio.py:173-174 | queueing a microphone block for the mixer keeps the session invariant |
| Capture.RecordMicKeepsInv | backend/engine/audio.py:175-183 | recording a microphone block directly, with its waveform point, keeps the session invariant |
| Capture.QueueSystemKeepsInv | backend/engine/audio.py:199-200 | queueing a system block keeps the session invariant with or without mixing |
| Capture.MixTickKeepsInv | backend/engine/audio.py:209-226 | a mixer pass keeps the session invariant: the popped samples are the next samples of each input |
| Capture.StopCompletesSession | backend/engine/audio.py:348-369 | at stop, the session buffer followed by the flush is the session's audio |
| Capture.EmptySessionInv | backend/engine/audio.py:123-128 | emptied buffers satisfy the session invariant for an empty session |
| Capture.FinalMix | backend/engine/audio.py:351-362 | the final-mix loop computes Flush |
| Capture.AudioRecorder.constructor | backend/engine/audio.py:20-33 | a new recorder is idle, with empty buffers and no streams |
| Capture.AudioRecorder.StartRecording | backend/engine/audio.py:103-295 | a start while recording changes nothing; otherwise the buffers are emptied and recording begins exactly when ResolveStart succeeds; on an error no stream is left open |
| Capture.AudioRecorder.ResetSession | backend/engine/audio.py:123-128 | every buffer is emptied and the stream flags set for the session |
| Capture.AudioRecorder.MicCallback | backend/engine/audio.py:159-185 | a microphone block is queued when mixing, otherwise appended with one waveform point |
| Capture.AudioRecorder.SystemCallback | backend/engine/audio.py:187-200 | a system block is always queued |
| Capture.AudioRecorder.MixTick | backend/engine/audio.py:202-239 | when recording and both queues hold 1024 samples, their first 1024 are popped, summed and appended with one waveform point; otherwise nothing changes |
| Capture.AudioRecorder.StopRecording | backend/engine/audio.py:297-377 | stopping returns the session's audio, as long as everything the microphone delivered, and leaves every buffer empty and no stream open; a stop while idle returns nothing and changes nothing |
| Capture.AudioRecorder.GetWaveformData | backend/engine/audio.py:379-386 | the history is the newest 200 amplitudes of the session, oldest first |
| Capture.AudioRecorder.GetCurrentAmplitude | backend/engine/audio.py:388-397 | the newest amplitude, or 0.0 before the first |
| Waveform.Amplitude | backend/engine/audio.py:178 | a block's waveform point is its mean absolute sample, never negative |
| Waveform.Push | backend/engine/audio.py:29 | appending to the history grows it up to 200 points and ends with the new point |
| Waveform.PushKeepsNewest | backend/engine/audio.py:29 | a push keeps the newest points followed by the new one, evicting the oldest when full |
| Waveform.Window | backend/engine/audio.py:29 | the window of a stream of points holds at most 200 points |
| Waveform.WindowIsSuffix | backend/engine/audio.py:29 | the window is the suffix of the stream |
| Waveform.PushWindow | backend/engine/audio.py:29 | pushing onto the window of a stream gives the window of the extended stream |
| Waveform.Latest | backend/engine/audio.py:394-397 | the newest point, or 0.0 for an empty history |
| Waveform.LatestAfterPush | backend/engine/audio.py:394-397 | after a push the newest point is the one pushed |
| LegacyCapture.FlattenLength | engine/audio.py:117 | the session audio holds as many samples as all its blocks together |
| LegacyCapture.FlattenHoldsBlock | engine/audio.py:60 | every block occurs unchanged in the session audio, right after the blocks before it |
| LegacyCapture.Flatten | engine/audio.py:117 | the session audio is the blocks concatenated in arrival order, ending with the newest block |
| LegacyCapture.Amplitudes | engine/audio.py:63-64 | one waveform point per block |
| LegacyCapture.AmplitudesAt | engine/audio.py:63-64 | point i is the amplitude of block i |
| LegacyCapture.AudioRecorder.constructor | engine/audio.py:20-28 | a new recorder is idle with empty buffers and no stream |
| LegacyCapture.AudioRecorder.StartRecording | engine/audio.py:31-88 | a start while recording changes nothing; otherwise the buffers are emptied and recording begins only when the stream is created and started, either failure being raised |
| LegacyCapture.AudioRecorder.AudioCallback | engine/audio.py:47-71 | a block is appended to the session audio, its amplitude pushed onto the history and reported when a callback was given |
| LegacyCapture.AudioRecorder.StopRecording | engine/audio.py:90-123 | stopping returns the concatenation of the session's blocks and empties the buffers; a stop while idle returns nothing and changes nothing |
| LegacyCapture.AudioRecorder.GetWaveformData | engine/audio.py:125-132 | the history holds the amplitudes of the newest 200 blocks, oldest first |
| LegacyCapture.AudioRecorder.GetCurrentAmplitude | engine/audio.py:134-143 | the newest block's amplitude, or 0.0 before the first |
| Vad.Normalize | backend/engine/vad.py:114-119 | the chunk the session sees has exactly 512 samples: the chunk's own, then zeros |
| Vad.Classify | backend/engine/vad.py:140-161 | the label is probability > 0.5, with the state advanced when the session returns one; an inference error labels the chunk speech and keeps the state |
| Vad.StreamStep | backend/engine/vad.py:176-183 | labelling a stream is labelling its first chunk, then the rest from the state that chunk leaves |
| Vad.Stream | backend/engine/vad.py:163-185 | chunk-by-chunk labelling from a state, the last chunk partial; a definition whose properties StreamStep, StreamLength and StreamChunks state |
| Vad.Labels | backend/engine/vad.py:163-185 | the labels of a recording, classified from the zero state: none exactly for an empty recording; StreamLength counts one per 512-sample chunk |
| Vad.NormalizePadded | backend/engine/vad.py:180-183 | padding the last short chunk before classification changes nothing the session sees |
| Vad.StreamLength | backend/engine/vad.py:176-185 | one label per 512-sample chunk, the final partial chunk included |
| Vad.StreamChunks | backend/engine/vad.py:163-185 | label j classifies the samples of chunk j from the state the earlier chunks left |
| Vad.FirstSpeech | backend/engine/vad.py:219-226 | the first speech label: labelled speech, and no speech before it |
| Vad.LastSpeech | backend/engine/vad.py:219-226 | the last speech label: labelled speech, and no speech after it |
| Vad.ScanSpeech | backend/engine/vad.py:219-231 | the scan finds the first and the last speech label, and neither exactly when no chunk is speech |
| Vad.PaddingSamples | backend/engine/vad.py:238 | the padding is 16 samples per millisecond |
| Vad.PaddedRange | backend/engine/vad.py:234-242 | with non-negative padding the padded speech range is a non-empty range inside the buffer |
| Vad.SpeechBoundaries | backend/engine/vad.py:191-248 | with non-negative padding the reported boundaries are an in-bounds range |
| Vad.BoundariesNonEmpty | backend/engine/vad.py:229-242 | a recording with speech yields a non-empty range |
| Vad.BoundariesCoverSpeech | backend/engine/vad.py:233-242 | every speech chunk's samples lie inside the reported range |
| Vad.BoundariesUnclamped | backend/engine/vad.py:233-242 | with speech and no clamping, the range is the speech span widened by the padding on each side |
| Vad.LabelsNonEmpty | backend/engine/vad.py:206-216 | a non-empty recording always yields at least one label |
| Vad.Trim | backend/server.py:190-195 | a non-empty range selects that slice, anything else keeps the whole recording |
| Vad.TrimmedForTranscription | backend/server.py:189-195 | what is transcribed is the speech range with 100 ms padding when there is speech, else the whole recording; it is never longer than the recording |
| Vad.SileroVad.constructor | backend/engine/vad.py:19-30 | a new detector has no session and no state |
| Vad.SileroVad.LoadVadModel | backend/engine/vad.py:33-89 | loading succeeds exactly when the model file is found and the session created, and then zeroes the state |
| Vad.SileroVad.ResetStates | backend/engine/vad.py:91-99 | the state is zeroed when a session exists, untouched otherwise |
| Vad.SileroVad.Reset | backend/engine/vad.py:187-189 | the state is zeroed when a session exists, untouched otherwise |
| Vad.SileroVad.IsSpeech | backend/engine/vad.py:101-161 | without a session it fails; otherwise the label and new state are Classify's, starting from the zero state when none is held |
| Vad.SileroVad.ProcessStream | backend/engine/vad.py:163-185 | the labels are the chunk-by-chunk labels from the zero state, and the state is the one they leave; without a session it fails, unless the audio is empty |
| Vad.SileroVad.FindSpeechBoundaries | backend/engine/vad.py:191-248 | the result is SpeechBoundaries; without a session it is the whole buffer, with the state untouched |
| Models.ParseVariant | engine/transcriber.py:20-27 | a name is accepted exactly when it is a key of the variant table, and then gives that variant |
| Models.Repo | engine/transcriber.py:20-27 | every repository id starts with the shared "mlx-community/whisper-" prefix, followed by the variant's own tail (that the ids classify back to their variants and give distinct directories is ExtractModelVariantInverts and ModelPathsDistinct) |
| Models.ExtractModelVariantCaseInsensitive | backend/server.py:95-112 | classification ignores case: a name and its lower-cased form name the same variant |
| Models.VariantOfLowered | backend/server.py:97-112 | a variant is returned only when its keyword occurs in the name and no keyword tested before it (turbo, large, medium, small, base, tiny) does |
| Models.ExtractModelVariantNone | backend/server.py:99-112 | a name is unrecognised exactly when none of the five size words occurs in it |
| Models.ExtractModelVariantInverts | backend/server.py:95-112 | every repository id in the table is classified as its own variant |
| Models.TurboRepoAlsoNamesLarge | backend/server.py:99-102 | the turbo id also contains "large", so the turbo test must come first |
| Models.LocalDirName | engine/transcriber.py:52 | the cache directory name is the id with every "/" replaced by "_" and every other character kept, so no "/" remains |
| Models.ModelPath | engine/transcriber.py:52 | a model's path lies inside the cache directory |
| Models.LocalDirTail | engine/transcriber.py:52 | the directory name keeps the id's variant tail |
| Models.ModelPathsDistinct | engine/transcriber.py:52 | no two variants share a cache directory |
| Models.AllVariantsListed | engine/transcriber.py:51 | the listing covers every variant |
| Models.WhisperTranscriber.constructor | engine/transcriber.py:29-40 | a new transcriber has no current model and no loaded model |
| Models.WhisperTranscriber.GetAvailableModels | engine/transcriber.py:43-62 | one entry per variant with its id, downloaded flag, path when downloaded, and active flag |
| Models.WhisperTranscriber.DownloadModel | engine/transcriber.py:64-109 | unknown names fail without progress; a known name succeeds unless the download fails, reporting 0.1 then 1.0, or -1.0 on failure |
| Models.WhisperTranscriber.LoadModel | engine/transcriber.py:111-159 | loading succeeds for a known variant whose files exist or download and which loads from its path or its id, and then makes it current |
| Models.WhisperTranscriber.ActiveRepo | engine/transcriber.py:197 | the repository is the current variant's, else the tiny fallback |
| Models.WhisperTranscriber.Transcribe | engine/transcriber.py:161-239 | with no model it fails; otherwise the text is the recogniser's, or "" when it raises |
| Models.WhisperTranscriber.TranscribeAsync | engine/transcriber.py:241-259 | the callback receives the transcription, or "" when transcription fails |
| ConfigMerge.ApplyFieldsEffect | backend/server.py:241-254 | the field steps write the hotkey when given, mode and model when non-empty, vad_enabled whenever given, and keep every other key |
| ConfigMerge.ApplyFieldsNoop | backend/server.py:241-254 | the field steps leave unchanged a configuration that already holds their values |
| ConfigMerge.ApplyFields | backend/server.py:241-254 | the field steps add at most the hotkey, mode, model and vad_enabled keys and remove none; ApplyFieldsEffect says what each writes |
| ConfigMerge.MergeAudio | backend/server.py:256-259 | the audio merge fails exactly when an existing audio entry is not a dictionary |
| ConfigMerge.MergeAudioEffect | backend/server.py:256-259 | the audio step writes only the audio section |
| ConfigMerge.Merge | backend/server.py:241-259 | the update fails exactly when it brings audio settings and the existing audio entry is not a dictionary |
| ConfigMerge.MergeWritesProvided | backend/server.py:241-259 | an update overwrites only what it provides, and vad_enabled = false is still written |
| ConfigMerge.MergeAudioKeyByKey | backend/server.py:256-259 | the audio section is merged key by key: given keys take the new value, other existing keys are kept |
| ConfigMerge.MergeIdempotent | backend/server.py:241-259 | applying the same update twice is the same as once |
| ConfigMerge.MergeEmptyUpdate | backend/server.py:241-259 | an empty update changes nothing |
| ConfigMerge.UpdateFields | backend/server.py:241-254 | the in-place field steps compute ApplyFields |
| ConfigMerge.UpdateConfig | backend/server.py:235-267 | the endpoint returns the merged configuration when the merge succeeds and the save works, "failed to save" when the save fails, and an error for a non-dictionary audio entry |
| Server.DetectKeepsConfigured | backend/server.py:413-428 | configured devices are kept; an unset slot is filled from detection only when auto-detection is on |
| Server.DetectFixpoint | backend/server.py:413-428 | writing the detected devices back and detecting again changes nothing |
| Server.DetectAudioDevices | backend/server.py:413-428 | without auto-detection the configured values are returned; each slot is either its configured value or the detected device |
| Server.AudioSection | backend/server.py:148 | a missing audio section reads as empty, a dictionary section reads as its own fields, and a non-dictionary one is unusable |
| Server.PlanStart | backend/server.py:142-149 | the plan carries the detected devices and mix_audio (default true); failure is "no microphone" exactly when the detected microphone is unset; a dictionary section with an integer microphone and an integer or unset system device always yields a plan, and BadAudioConfig is exactly a non-dictionary section or a detected device of another type |
| Server.TranscriptionEvent | backend/server.py:205 | the event has type "transcription" and the text |
| Server.WaveformEvent | backend/server.py:394-397 | the event has type "waveform" and its data are the history's points, in order, as numbers |
| Server.LocalFlowServer.constructor | backend/server.py:65-90 | the server starts idle with no clients |
| Server.LocalFlowServer.StartRecording | backend/server.py:133-165 | while recording it replies "already recording" and changes nothing; otherwise the flag is set exactly when the plan and the recorder start succeed |
| Server.LocalFlowServer.StopRecording | backend/server.py:168-226 | when idle it changes nothing; otherwise the flag is cleared, an empty capture transcribes nothing, and anything else is transcribed trimmed to its speech when the detector works |
| Server.LocalFlowServer.Broadcast | backend/server.py:363-377 | the message goes to every connected socket and exactly the failing ones are removed |
| Server.LocalFlowServer.Complete | backend/server.py:200-210 | the transcription is always broadcast and injected only when an injector exists and the text is non-empty |
| Server.LocalFlowServer.WaveformUpdate | backend/server.py:387-401 | while recording, a non-empty history is broadcast as the waveform event of the recorder's newest 200 amplitudes; otherwise nothing is sent |
| Server.LocalFlowServer.Connect | backend/server.py:344-348 | a connecting client joins the set |
| Server.LocalFlowServer.Disconnect | backend/server.py:356-360 | a disconnecting client leaves the set |
| Hotkeys.ModifierKey | main.py:426-434 | only cmd, ctrl, alt and shift are modifier keys |
| Hotkeys.KnownModifiers | main.py:424-434 | the combination's modifier keys are at most as many as the configured names, all named keys among cmd, ctrl, alt and shift; KnownModifiersMembers gives membership both ways |
| Hotkeys.KnownModifiersMembers | main.py:424-434 | a key is a combination modifier exactly when its name is configured and one of the four |
| Hotkeys.UnknownModifierDropped | main.py:426-434 | an unknown modifier name adds nothing |
| Hotkeys.ResolveMainKey | main.py:420-443 | the lower-cased key name is "space", a named key of the enumeration, or else a character key |
| Hotkeys.IsMainKey | main.py:512-520 | a named main key is matched only by a named key, and a character main key only by a key code |
| Hotkeys.ComboPressed | main.py:452-473 | the combination is held when the main key and every configured modifier key are pressed |
| Hotkeys.ComboMonotone | main.py:452-473 | pressing more keys never undoes a match |
| Hotkeys.StrItems | backend/server.py:242-245 | the list of modifier names becomes a JSON list of the same strings in the same order |
| Hotkeys.HotkeyJson | backend/server.py:242-245 | the stored hotkey is a dictionary with exactly the keys "modifiers" (the names in order) and "key" |
| Hotkeys.MapModifiers | main.py:424-434 | the registration loop computes the known modifier keys in list order |
| Hotkeys.FormatHotkeyForLog | main.py:547-553 | no hotkey logs as "None"; a hotkey's log line ends with its main key |
| Hotkeys.FormatHotkeyForLogJoins | main.py:547-553 | the logged hotkey is its modifiers and key joined by "+" |
| Hotkeys.SpacedSnoc | main.py:486-492 | accepting a press 200 ms after the last one keeps accepted presses spaced |
| Hotkeys.AcceptedSpaced | main.py:447-494 | any two accepted presses are at least 200 ms apart per press between them |
| Hotkeys.HotkeyListener.constructor | main.py:419-450 | the listener holds the configured modifiers and main key, no pressed keys and last trigger 0 |
| Hotkeys.HotkeyListener.CheckHotkeyCombination | main.py:452-473 | the test answers whether the main key and every modifier are pressed |
| Hotkeys.HotkeyListener.OnPress | main.py:475-498 | the key joins the pressed set; the press triggers exactly when the combination is held and 200 ms have passed since the last accepted press, which only a trigger moves |
| Hotkeys.HotkeyListener.OnRelease | main.py:500-522 | the key leaves the pressed set; in hold mode while recording, releasing the main key asks for a stop |
| App.Answering | main.py:594-608 | a detected device survives only when it answers a query |
| App.DetectDevices | main.py:577-613 | without auto-detection the configured values are returned; each slot is either its configured value or the detected device, if that device answers a query |
| App.DetectDevicesAsBackend | main.py:577-613 | the application detects what the backend detects, over the answering devices |
| App.DetectedDevicesAnswer | main.py:577-613 | an auto-detected device answers a query; a configured one is passed on unchanged |
| App.StartWithImportedRecorder | main.py:615-716 | with the imported single-stream recorder, a start ends at "no microphone" exactly when the microphone is unset without auto-detection, and raises otherwise |
| App.ImportedRecorderCounterexample | main.py:615-716 | a configured, answering microphone: the start as written raises, while the two-stream recorder would start |
| App.LocalFlowApp.constructor | main.py:177-183 | the application starts idle with its configuration and detector |
| App.LocalFlowApp.StartRecording | main.py:615-716 | while recording nothing changes; otherwise the flag ends set exactly when the start succeeds, with the plan's devices and mixing |
| App.LocalFlowApp.StopRecording | main.py:718-810 | when idle nothing changes; otherwise the flag is cleared and the session's audio is transcribed, trimmed with 100 ms padding when a loaded detector exists and its boundary search does not raise, the whole audio when it raises, and nothing when the audio is empty |
| App.LocalFlowApp.CancelRecording | main.py:812-826 | when idle nothing changes; otherwise recording stops, the buffers are emptied and nothing is transcribed |
| App.LocalFlowApp.OnHotkeyTriggered | main.py:555-575 | toggle mode starts when idle and stops when recording; any other mode only starts from idle and ignores a trigger while recording |
| App.LocalFlowApp.KeyPressed | main.py:475-498 | an accepted press runs the trigger: from idle it attempts a start and records exactly when the start succeeds; while recording it stops in toggle mode and is ignored, leaving the recording on, otherwise; any other press leaves the recording flag alone |
| App.LocalFlowApp.KeyReleased | main.py:500-522 | a stop happens exactly in hold mode while recording when the main key is released |
| Injector.CharToKeycode | engine/injector.py:248-273 | ASCII letters in either case get 0..25 in order, digit d gets d + 29, space 49, newline 36, anything else none |
| Injector.KeycodeCaseInsensitive | engine/injector.py:260-264 | the upper- and lower-case forms of a letter get the same code |
| Injector.KeycodeRange | engine/injector.py:262-271 | every code is a letter code 0..25, a digit code 29..38 or the space code 49 |
| Injector.KeycodeCollisions | engine/injector.py:262-271 | two characters share a code only as two cases of one letter, or as '7' and newline |
| Injector.SevenTypesReturn | engine/injector.py:265-271 | '7' and newline are both sent as code 36 |
| Injector.CharToKeycodeAsWritten | engine/injector.py:260-273 | the table with Python's Unicode-aware letter and digit tests: any Latin-1 letter gets its code point minus 97 |
| Injector.AsWrittenAgreesOnAscii | engine/injector.py:260-273 | on ASCII the table as written is the ASCII table |
| Injector.AsWrittenNonAsciiCodes | engine/injector.py:262-267 | 'é' and 'É' get 136 and '²' gets 159 as written, where the ASCII table has none |
| Injector.CharEvents | engine/injector.py:221-238 | one character is typed by exactly two events |
| Injector.TypedEvents | engine/injector.py:221-240 | a text is typed by two events per character |
| Injector.TypedEventsAt | engine/injector.py:221-240 | character i is typed by events 2i and 2i+1: its key (from the corrected ASCII table) pressed and released, or the Unicode pair |
| Injector.TypedEventsAsWrittenOnAscii | engine/injector.py:221-240 | on an ASCII character the events are exactly those the table as written gives: its code pressed and released, or the Unicode pair |
| Injector.TypedEventsAppend | engine/injector.py:221-240 | typing two texts one after the other posts the events of their concatenation |
| Injector.SimulateTyping | engine/injector.py:197-246 | without the target's process id nothing is posted and typing fails; otherwise every character is typed in order and it succeeds |
| Injector.InjectText | engine/injector.py:300-339 | empty text fails before any lookup; no focused element fails; the direct set is tried unless typing is asked for, and typing runs when it was skipped or failed; success is exactly one method succeeding |
| Settings.ModifierDisplay | ui/settings.py:159-166 | cmd, ctrl, alt and shift display as Cmd, Ctrl, Opt and Shift; any other name is title-cased |
| Settings.ModifierDisplays | ui/settings.py:166 | the display names follow the modifiers in list order |
| Settings.FormatHotkey | ui/settings.py:144-174 | no hotkey, or one without a key, shows "Not set"; otherwise the display ends with the title-cased key |
| Settings.FormatHotkeyCases | ui/settings.py:144-174 | no key shows "Not set" whatever the modifiers; a key alone shows the title-cased key; modifiers and a key show their names and the key joined by "+" |
| Settings.FormatHotkeyNonEmpty | ui/settings.py:144-174 | the display is never empty |
| Settings.CaptureModifier | ui/settings.py:203-210 | exactly the cmd, ctrl, alt and shift keys are captured as modifiers, by name |
| Settings.CapturedKeyNames | ui/settings.py:213-223 | a key with a character is stored by it, and a named key by its name without "Key." |
| Settings.Capture | ui/settings.py:198-228 | a capture never loses a modifier already collected |
| Settings.CaptureModifiersKnown | ui/settings.py:203-210 | only the four modifier names are ever collected |
| Settings.CaptureRepeatedModifier | ui/settings.py:194-210 | pressing a modifier again changes nothing |
| Settings.CaptureStopsAtFirstKey | ui/settings.py:211-225 | the first non-modifier press ends the capture with its key name; presses after it do not matter, and the modifiers are those pressed before it |
| Settings.PreferencesWindow.constructor | ui/settings.py:13-24 | a new window is not capturing and has nothing captured |
| Settings.PreferencesWindow.StartRecordingHotkey | ui/settings.py:176-188 | a start during a capture changes nothing; otherwise capture begins and the captured hotkey is cleared |
| Settings.PreferencesWindow.CaptureHotkey | ui/settings.py:190-254 | a hotkey is stored only when a modifier and a non-empty key were captured, with each collected modifier once; the flag is cleared and the label message set |
| Settings.PreferencesWindow.SavePreferences | ui/settings.py:256-271 | the captured hotkey replaces the stored one, the selected mode is always written when the selector exists, other entries are kept, and a given callback receives the configuration once the save succeeds |
| Settings.SetToList | ui/settings.py:243 | the list holds every element of the set exactly once |

## Left out

- Concurrency: the recorder lock, the mixing thread, the transcription and processing threads,
  the hotkey trigger thread and the backend's waveform task. Each callback, mixer pass and
  handler is one atomic step. `Server.LocalFlowServer.WaveformUpdate` is one pass of the loop,
  without its 50 ms sleep or cancellation.
- Floating point. Samples and amplitudes are reals. Mixing is exact, with no `float32`
  rounding, and an empty block's amplitude is 0.0 where numpy gives NaN. `Vad.PaddingSamples`
  computes `int(padding_ms / 1000.0 * 16000)` exactly, as 16 samples per millisecond.
- The two-stream recorder's optional waveform callback: the amplitude it would be handed is
  the waveform point the model records.
- Stereo-to-mono conversion: every block is taken as mono.
- Device information beyond indices, names and channel counts, and the device-query exception
  texts. A device query's answer is the set `DeviceEnv.available`.
- Error messages, alerts, labels (except the capture label) and log output. Errors are
  datatype values.
- `Server.PlanStart`: a configured device must be a JSON integer here. The source passes the
  configured value on unchanged. The audio library also accepts a device name (a substring of
  it) and `true` (a Python int), and then records. The model answers `BadAudioConfig` for
  these, for any other non-integer device and for a non-dictionary audio section.
- `App.LocalFlowApp.StartRecording`: the same restriction. A configured device name or boolean,
  which the source hands to the recorder, ends as `BadAudioConfig`.
- `Capture.AudioRecorder.Valid` does not state that an idle recorder has empty buffers. Each
  method states its new buffers instead.
- `Vad.SileroVad.FindSpeechBoundaries` leaves out the "no results" branch, which cannot be
  reached: a non-empty recording always has a label (`Vad.LabelsNonEmpty`).
- A raised exception in `find_speech_boundaries` is the `vadFails` flag of
  `Server.LocalFlowServer.StopRecording` and `App.LocalFlowApp.StopRecording`: the whole
  recording is kept. What the detector's state holds after a raise is left open.
- The backend's `process_audio` error broadcast, and the `pong` echo of `/ws`.
- `Server.LocalFlowServer.Disconnect` merges the clean `remove` and the erroring `discard`.
  A second removal, which would raise `KeyError`, is not modelled.
- The backend's `initialize_components`, `/api/status`, `/api/config`, `/api/models`,
  `/api/models/download` and `/api/models/switch`. These are glue over the transcriber
  operations modelled in `Models`. The event loop is assumed present.
- `config.py` (file load and save, `expanduser`). The configuration is an input map, and a
  save's success is a parameter.
- Hotkey registration's stop and restart of an existing listener, and its permission error
  handling. `_setup_hotkey_listener` and the hotkey value read by `current_hotkey` are glue.
- `Hotkeys.HotkeyListener.OnPress`: time is in integer milliseconds where the source uses float
  seconds from `time.time()`. `now` is an epoch-like clock. The last trigger starts at 0, so a
  press before 200 ms would be refused, which the epoch clock never produces.
- `Settings.FormatHotkey` takes no arguments beyond the hotkey. A configured hotkey dictionary
  that lacks `modifiers` or `key` reads as no modifiers or as an empty key, its Python
  defaults. Non-string list items are not modelled. An empty dictionary shows "Not set", like
  a missing hotkey.
- `Hotkeys.FormatHotkeyForLog`: an empty hotkey dictionary logs as "None", which is the `None`
  case here.
- `Settings.PreferencesWindow.CaptureHotkey` takes the presses as a finite sequence. When it
  ends without a non-modifier press, the capture ends with no key. The source's listener would
  keep waiting, or stop on an error in its handler. The release handler is not modelled: it
  only stops a listener that the press handler has already stopped.
- `Settings.PreferencesWindow.CaptureHotkey`: `list(modifiers)` follows Python's set order,
  which depends on string hashing. The model only fixes that every collected modifier occurs
  once.
- The preferences window's widgets and the model manager window. The `on_save` handler in
  `main.py`, which reloads the hotkey, is not modelled.
- The injector's permission check. Its accessibility calls (focused element, value and
  selection setting, process id) are the outcome flags of `InjectEnv`, and Quartz being absent
  is a missing focused element. The typing delays are left out. An exception inside
  `_type_unicode_char` is not modelled: its events count as posted.
- `Injector.CharToKeycodeAsWritten` uses Python's `isalpha`, `isdigit` and `lower` only
  within Latin-1. Characters above U+00FF count as neither letters nor digits there.
- `Injector.SimulateTyping` (with `Injector.CharEvents`, `Injector.TypedEvents` and the
  `posted` events of `Injector.InjectText`) types with the corrected ASCII table
  `Injector.CharToKeycode`, not the table as written. A non-ASCII letter or digit is therefore
  posted as a Unicode key-down and key-up, where the source posts a key code such as 136 for
  'é' or 159 for '²' (see "Findings"). On ASCII text the two agree
  (`Injector.TypedEventsAsWrittenOnAscii`).
- `Injector.TypedEventsAt`: the same gap. Its key codes are the corrected table's, so for a
  non-ASCII letter or digit it states the Unicode pair, not the source's key code.
- `Text.Lower` and `Text.Title` are ASCII-only.
- `Models`: the Hugging Face download, the MLX model loading and the recogniser are
  parameters, and the 0.1 / 1.0 / -1.0 progress values are a sequence. A result that is
  neither a dictionary nor a string (the segment join) is folded into the recogniser's output.
  `snapshot_download`'s cache layout is not modelled.
- Audio normalisation before transcription, which divides by the peak when it exceeds 1, is
  folded into the recogniser parameter.

## Findings

| source | as written | input that shows it | evidently intended | confidence | as-written member | corrected member |
|---|---|---|---|---|---|---|
| engine/injector.py:260-267 | `isalpha()` and `isdigit()` accept any Unicode letter or digit, so `ord(c) - ord('a')` or `ord(c) - ord('0') + 29` yields a code far outside the table | 'é' gives 136, 'É' gives 136, '²' gives 159 (`Injector.AsWrittenNonAsciiCodes`) | only ASCII letters (0..25) and digits (29..38) get codes; other characters are sent as Unicode events | not executed | Injector.CharToKeycodeAsWritten | Injector.CharToKeycode |
| main.py:577-716 | the application imports the single-stream recorder (`engine.audio`) yet calls `get_default_input_device`, `find_blackhole_device` and `start_recording(microphone_device=..., system_audio_device=..., mix_audio=...)`, which only the two-stream recorder has, so every start raises or stops at "no microphone" and the flag ends false | `{"audio": {"auto_detect_devices": false, "microphone_device": 0}}` with device 0 answering (`App.ImportedRecorderCounterexample`) | the start uses the two-stream recorder of the backend engine and records from the configured devices | not executed | App.StartWithImportedRecorder | App.LocalFlowApp.StartRecording |

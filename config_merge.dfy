/** The configuration update endpoint of the backend (`PUT /api/config`): the fields of the
    request that are provided and meaningful are written into the loaded configuration, the
    audio settings are merged key by key, and the result is saved. Loading and saving the file
    are inputs and outcomes. */
module ConfigMerge {
  import opened Wrappers
  import opened Json
  import opened Hotkeys

  /** The fields of a `PUT /api/config` body; each is optional. */
  datatype ConfigUpdate = ConfigUpdate(
    hotkey: Option<HotkeySetting>,
    mode: Option<string>,
    model: Option<string>,
    vadEnabled: Option<bool>,
    audio: Option<Object>)

  datatype UpdateError = SaveFailed | AudioNotDict

  /** The keys an update may write. */
  const UpdatedKeys: set<string> := {"hotkey", "mode", "model", "vad_enabled", "audio"}

  /** Whether the update brings audio settings, which happens only for a non-empty dictionary. */
  predicate MergesAudio(u: ConfigUpdate) {
    u.audio.Some? && u.audio.value != map[]
  }

  /** `d[key] = v`, done only when `apply`. */
  function PutIf(d: Object, apply: bool, key: string, v: Json): Object
  {
    if apply then d[key := v] else d
  }

  predicate SetsMode(u: ConfigUpdate) { u.mode.Some? && u.mode.value != "" }
  predicate SetsModel(u: ConfigUpdate) { u.model.Some? && u.model.value != "" }

  /** The values the hotkey, mode, model and `vad_enabled` steps write. */
  function HotkeyValue(u: ConfigUpdate): Json { HotkeyJson(u.hotkey.GetOr(HotkeySetting([], ""))) }
  function ModeValue(u: ConfigUpdate): Json { JStr(u.mode.GetOr("")) }
  function ModelValue(u: ConfigUpdate): Json { JStr(u.model.GetOr("")) }
  function VadValue(u: ConfigUpdate): Json { JBool(u.vadEnabled.GetOr(false)) }

  /** The hotkey, mode, model and `vad_enabled` steps of an update, in the source's order. */
  function ApplyFields(current: Object, u: ConfigUpdate): (r: Object)
    ensures current.Keys <= r.Keys <= current.Keys + {"hotkey", "mode", "model", "vad_enabled"}
  {
    var c1 := PutIf(current, u.hotkey.Some?, "hotkey", HotkeyValue(u));
    var c2 := PutIf(c1, SetsMode(u), "mode", ModeValue(u));
    var c3 := PutIf(c2, SetsModel(u), "model", ModelValue(u));
    PutIf(c3, u.vadEnabled.Some?, "vad_enabled", VadValue(u))
  }

  /** The configuration already holds every field the update writes. */
  predicate HasFields(c: Object, u: ConfigUpdate) {
    && (u.hotkey.Some? ==> "hotkey" in c && c["hotkey"] == HotkeyValue(u))
    && (SetsMode(u) ==> "mode" in c && c["mode"] == ModeValue(u))
    && (SetsModel(u) ==> "model" in c && c["model"] == ModelValue(u))
    && (u.vadEnabled.Some? ==> "vad_enabled" in c && c["vad_enabled"] == VadValue(u))
  }

  /** What the field steps write and what they keep. */
  lemma ApplyFieldsEffect(current: Object, u: ConfigUpdate, key: string)
    ensures HasFields(ApplyFields(current, u), u)
    ensures key !in {"hotkey", "mode", "model", "vad_enabled"} ==> Preserved(current, ApplyFields(current, u), key)
    ensures u.hotkey.None? ==> Preserved(current, ApplyFields(current, u), "hotkey")
    ensures !SetsMode(u) ==> Preserved(current, ApplyFields(current, u), "mode")
    ensures !SetsModel(u) ==> Preserved(current, ApplyFields(current, u), "model")
    ensures u.vadEnabled.None? ==> Preserved(current, ApplyFields(current, u), "vad_enabled")
  {
    assert "hotkey" != "mode" && "hotkey" != "model" && "hotkey" != "vad_enabled" && "hotkey" != "audio";
    assert "mode" != "model" && "mode" != "vad_enabled" && "mode" != "audio";
    assert "model" != "vad_enabled" && "model" != "audio" && "vad_enabled" != "audio";
  }

  /** The field steps change nothing in a configuration that already holds their values. */
  lemma ApplyFieldsNoop(c: Object, u: ConfigUpdate)
    requires HasFields(c, u)
    ensures ApplyFields(c, u) == c
  {
    var c1 := PutIf(c, u.hotkey.Some?, "hotkey", HotkeyValue(u));
    assert c1 == c;
    var c2 := PutIf(c1, SetsMode(u), "mode", ModeValue(u));
    assert c2 == c;
    var c3 := PutIf(c2, SetsModel(u), "model", ModelValue(u));
    assert c3 == c;
  }

  /** The existing audio section, or a fresh empty one. */
  function AudioBase(c: Object): Object {
    if "audio" in c && c["audio"].JObj? then c["audio"].fields else map[]
  }

  /** `current_config["audio"].update(audio)`, after creating the section when it is missing;
      an existing entry that is not a dictionary has no `update` and fails. */
  function MergeAudio(c: Object, audio: Object): (r: Result<Object, UpdateError>)
    ensures r.Failure? <==> "audio" in c && !c["audio"].JObj?
  {
    if "audio" in c && !c["audio"].JObj? then Failure(AudioNotDict)
    else Success(c["audio" := JObj(AudioBase(c) + audio)])
  }

  /** The audio step writes only the audio section. */
  lemma MergeAudioEffect(c: Object, audio: Object, u: ConfigUpdate, key: string)
    requires MergeAudio(c, audio).Success?
    ensures var r := MergeAudio(c, audio).value;
      && "audio" in r && r["audio"] == JObj(AudioBase(c) + audio)
      && (key != "audio" ==> Preserved(c, r, key))
      && (HasFields(c, u) ==> HasFields(r, u))
  {
    assert "hotkey" != "mode" && "hotkey" != "model" && "hotkey" != "vad_enabled" && "hotkey" != "audio";
    assert "mode" != "model" && "mode" != "vad_enabled" && "mode" != "audio";
    assert "model" != "vad_enabled" && "model" != "audio" && "vad_enabled" != "audio";
  }

  /** The configuration after the update: the hotkey when given, the mode and model when given
      and non-empty, `vad_enabled` whenever given (false included), and the audio settings merged
      key by key into the existing audio section. An existing audio entry that is not a
      dictionary makes the merge fail. */
  function Merge(current: Object, u: ConfigUpdate): (r: Result<Object, UpdateError>)
    ensures r.Failure? <==> MergesAudio(u) && "audio" in current && !current["audio"].JObj?
  {
    ApplyFieldsEffect(current, u, "audio");
    var c := ApplyFields(current, u);
    if MergesAudio(u) then MergeAudio(c, u.audio.value) else Success(c)
  }

  /** An update overwrites only what it provides: every other key keeps its value, and the given
      hotkey, mode, model and `vad_enabled` (false included) are written. */
  lemma MergeWritesProvided(current: Object, u: ConfigUpdate, key: string)
    requires Merge(current, u).Success?
    ensures var c := Merge(current, u).value;
      && (key !in UpdatedKeys ==> Preserved(current, c, key))
      && (u.hotkey.Some? ==> c["hotkey"] == HotkeyJson(u.hotkey.value))
      && (u.hotkey.None? ==> Preserved(current, c, "hotkey"))
      && (SetsMode(u) ==> c["mode"] == JStr(u.mode.value))
      && (!SetsMode(u) ==> Preserved(current, c, "mode"))
      && (SetsModel(u) ==> c["model"] == JStr(u.model.value))
      && (!SetsModel(u) ==> Preserved(current, c, "model"))
      && (u.vadEnabled.Some? ==> c["vad_enabled"] == JBool(u.vadEnabled.value))
      && (u.vadEnabled.None? ==> Preserved(current, c, "vad_enabled"))
      && (!MergesAudio(u) ==> Preserved(current, c, "audio"))
  {
    assert "hotkey" != "mode" && "hotkey" != "model" && "hotkey" != "vad_enabled" && "hotkey" != "audio";
    assert "mode" != "model" && "mode" != "vad_enabled" && "mode" != "audio";
    assert "model" != "vad_enabled" && "model" != "audio" && "vad_enabled" != "audio";
    var c4 := ApplyFields(current, u);
    ApplyFieldsEffect(current, u, key);
    if MergesAudio(u) {
      MergeAudioEffect(c4, u.audio.value, u, key);
      MergeAudioEffect(c4, u.audio.value, u, "hotkey");
      MergeAudioEffect(c4, u.audio.value, u, "mode");
      MergeAudioEffect(c4, u.audio.value, u, "model");
      MergeAudioEffect(c4, u.audio.value, u, "vad_enabled");
    } else {
      ApplyFieldsEffect(current, u, "audio");
    }
  }

  /** The audio section is merged key by key: a key the update gives takes the new value, every
      other key of the existing section is kept. */
  lemma MergeAudioKeyByKey(current: Object, u: ConfigUpdate, key: string)
    requires Merge(current, u).Success? && MergesAudio(u)
    ensures var c := Merge(current, u).value;
      var before := if "audio" in current then current["audio"].fields else map[];
      && c["audio"].JObj?
      && (key in u.audio.value ==> key in c["audio"].fields && c["audio"].fields[key] == u.audio.value[key])
      && (key !in u.audio.value ==> Preserved(before, c["audio"].fields, key))
  {
    var c4 := ApplyFields(current, u);
    ApplyFieldsEffect(current, u, "audio");
    MergeAudioEffect(c4, u.audio.value, u, "audio");
  }

  /** Applying the same update twice is the same as applying it once. */
  lemma MergeIdempotent(current: Object, u: ConfigUpdate)
    requires Merge(current, u).Success?
    ensures Merge(Merge(current, u).value, u) == Merge(current, u)
  {
    var c4 := ApplyFields(current, u);
    ApplyFieldsEffect(current, u, "audio");
    var c := Merge(current, u).value;
    if MergesAudio(u) {
      MergeAudioEffect(c4, u.audio.value, u, "audio");
    }
    assert HasFields(c, u);
    ApplyFieldsNoop(c, u);
    if MergesAudio(u) {
      var m := AudioBase(c4) + u.audio.value;
      assert AudioBase(c) == m;
      assert m + u.audio.value == m;
      assert c["audio" := JObj(m)] == c;
    }
  }

  /** An empty update leaves the configuration as it is. */
  lemma MergeEmptyUpdate(current: Object)
    ensures Merge(current, ConfigUpdate(None, None, None, None, None)) == Success(current)
  {
  }

  /** The hotkey, mode, model and `vad_enabled` steps of the update endpoint, in place. */
  method UpdateFields(current: Object, u: ConfigUpdate) returns (cfg: Object)
    ensures cfg == ApplyFields(current, u)
  {
    cfg := current;
    if u.hotkey.Some? {
      cfg := cfg["hotkey" := HotkeyJson(u.hotkey.value)];
    }
    if SetsMode(u) {
      cfg := cfg["mode" := JStr(u.mode.value)];
    }
    if SetsModel(u) {
      cfg := cfg["model" := JStr(u.model.value)];
    }
    if u.vadEnabled.Some? {
      cfg := cfg["vad_enabled" := JBool(u.vadEnabled.value)];
    }
  }

  /** The update endpoint: the merge of the update into the loaded configuration, step by step
      in place, then the save (`saveOk` is whether it succeeded). */
  method UpdateConfig(current: Object, u: ConfigUpdate, saveOk: bool) returns (r: Result<Object, UpdateError>)
    ensures Merge(current, u).Failure? ==> r == Failure(AudioNotDict)
    ensures Merge(current, u).Success? ==> r == if saveOk then Merge(current, u) else Failure(SaveFailed)
  {
    var cfg := UpdateFields(current, u);
    ghost var fields := cfg;
    if MergesAudio(u) {
      if "audio" !in cfg {
        cfg := cfg["audio" := JObj(map[])];
      }
      if !cfg["audio"].JObj? {
        return Failure(AudioNotDict);
      }
      cfg := cfg["audio" := JObj(cfg["audio"].fields + u.audio.value)];
      assert cfg == MergeAudio(fields, u.audio.value).value;
    }
    if !saveOk {
      return Failure(SaveFailed);
    }
    r := Success(cfg);
  }

}

/** The preferences window: how a hotkey is shown, how a new one is captured from key presses,
    and how saving writes the captured hotkey and the chosen mode into the configuration. The
    configuration file is an input dictionary and saving it is an outcome parameter. */
module Settings {
  import opened Wrappers
  import opened Text
  import opened Json
  import opened Hotkeys

  /** The display name of a modifier: Cmd, Ctrl, Opt and Shift for the four known names, any
      other name title-cased. */
  function ModifierDisplay(m: string): (r: string)
    ensures m == "cmd" ==> r == "Cmd"
    ensures m == "ctrl" ==> r == "Ctrl"
    ensures m == "alt" ==> r == "Opt"
    ensures m == "shift" ==> r == "Shift"
    ensures m !in {"cmd", "ctrl", "alt", "shift"} ==> r == Title(m)
  {
    if m == "cmd" then "Cmd"
    else if m == "ctrl" then "Ctrl"
    else if m == "alt" then "Opt"
    else if m == "shift" then "Shift"
    else Title(m)
  }

  /** The display names of the modifiers, in list order. */
  function ModifierDisplays(modifiers: seq<string>): (r: seq<string>)
    ensures |r| == |modifiers|
    ensures forall i :: 0 <= i < |r| ==> r[i] == ModifierDisplay(modifiers[i])
  {
    if |modifiers| == 0 then [] else [ModifierDisplay(modifiers[0])] + ModifierDisplays(modifiers[1..])
  }

  /** A hotkey as the window shows it. A missing hotkey is "Not set"; a dictionary without one
      of its fields reads as no modifiers or an empty key. */
  function FormatHotkey(hotkey: Option<HotkeySetting>): (r: string)
    ensures hotkey.None? || hotkey.value.key == "" ==> r == "Not set"
    ensures hotkey.Some? && hotkey.value.key != "" ==>
      |r| >= |hotkey.value.key| && r[|r| - |hotkey.value.key|..] == Title(hotkey.value.key)
  {
    if hotkey.None? then "Not set"
    else
      var modStr := Join(ModifierDisplays(hotkey.value.modifiers), "+");
      var keyStr := if hotkey.value.key != "" then Title(hotkey.value.key) else "";
      if modStr != "" && keyStr != "" then modStr + "+" + keyStr
      else if keyStr != "" then keyStr
      else "Not set"
  }

  lemma {:induction false} JoinEmpty(parts: seq<string>, sep: string)
    requires |parts| > 0 && |sep| > 0
    requires |parts| > 1 || parts[0] != ""
    ensures Join(parts, sep) != ""
  {
    if |parts| > 1 {
      assert |Join(parts, sep)| >= |sep|;
    }
  }

  /** With a key, the display is "Key" alone, or the modifier names and the key joined by "+"
      in list order; without a key it is "Not set", whatever the modifiers. */
  lemma FormatHotkeyCases(h: HotkeySetting)
    ensures h.key == "" ==> FormatHotkey(Some(h)) == "Not set"
    ensures h.key != "" && |h.modifiers| == 0 ==> FormatHotkey(Some(h)) == Title(h.key)
    ensures h.key != "" && (|h.modifiers| > 1 || (|h.modifiers| == 1 && ModifierDisplay(h.modifiers[0]) != "")) ==>
      FormatHotkey(Some(h)) == Join(ModifierDisplays(h.modifiers) + [Title(h.key)], "+")
  {
    var ds := ModifierDisplays(h.modifiers);
    if h.key != "" {
      assert Title(h.key) != "" by {
        assert |Title(h.key)| == |h.key|;
      }
      if |ds| > 1 || (|ds| == 1 && ds[0] != "") {
        JoinEmpty(ds, "+");
        JoinSnoc(ds, Title(h.key), "+");
      }
    }
  }

  /** The display is never empty. */
  lemma FormatHotkeyNonEmpty(hotkey: Option<HotkeySetting>)
    ensures FormatHotkey(hotkey) != ""
  {
    if hotkey.Some? && hotkey.value.key != "" {
      assert |Title(hotkey.value.key)| == |hotkey.value.key|;
    }
  }

  /** A key press seen while capturing: a member of the listener's key enumeration, by name
      (its text is "Key." and the name), or a key code with its character, if any, and its
      text. */
  datatype PressedKey = NamedKey(name: string) | KeyCode(ch: Option<string>, shown: string)

  /** The modifier a press adds to the capture, if it is one of the four modifier keys. */
  function CaptureModifier(k: PressedKey): (r: Option<string>)
    ensures r.Some? <==> k.NamedKey? && k.name in {"cmd", "ctrl", "alt", "shift"}
    ensures r.Some? ==> r.value == k.name
  {
    if k.NamedKey? && k.name in {"cmd", "ctrl", "alt", "shift"} then Some(k.name) else None
  }

  /** The text of a key. */
  function KeyText(k: PressedKey): string {
    match k
    case NamedKey(n) => "Key." + n
    case KeyCode(_, shown) => shown
  }

  /** The name stored for the key that ends a capture: its character when it has a non-empty
      one, "space" for the space key, otherwise its text with "Key." removed when the text
      starts with it. */
  function CapturedKeyName(k: PressedKey): string {
    if k.KeyCode? && k.ch.Some? && k.ch.value != "" then k.ch.value
    else if k == NamedKey("space") then "space"
    else
      var s := KeyText(k);
      if StartsWith(s, "Key.") then ReplaceAll(s, "Key.", "") else s
  }

  /** A named key is stored by its name, and a key with a character by the character. */
  lemma CapturedKeyNames(k: PressedKey)
    ensures k.KeyCode? && k.ch.Some? && k.ch.value != "" ==> CapturedKeyName(k) == k.ch.value
    ensures k.NamedKey? && !Contains(k.name, "Key.") ==> CapturedKeyName(k) == k.name
  {
    if k.NamedKey? && !Contains(k.name, "Key.") {
      var s := "Key." + k.name;
      assert StartsWith(s, "Key.");
      assert s[4..] == k.name;
      ReplaceAllAbsent(k.name, "Key.", "");
    }
  }

  /** What a capture collects from a stream of presses, starting from the modifiers already
      held: modifier presses add to the set, and the first other press ends the capture with its
      key name. Without such a press there is no key. */
  function Capture(presses: seq<PressedKey>, mods: set<string>): (r: (set<string>, Option<string>))
    ensures mods <= r.0
  {
    if |presses| == 0 then (mods, None)
    else
      var m := CaptureModifier(presses[0]);
      if m.Some? then Capture(presses[1..], mods + {m.value})
      else (mods, Some(CapturedKeyName(presses[0])))
  }

  /** Only the four modifier names are ever collected. */
  lemma {:induction false} CaptureModifiersKnown(presses: seq<PressedKey>, mods: set<string>)
    requires mods <= {"cmd", "ctrl", "alt", "shift"}
    ensures Capture(presses, mods).0 <= {"cmd", "ctrl", "alt", "shift"}
    decreases |presses|
  {
    if |presses| > 0 && CaptureModifier(presses[0]).Some? {
      CaptureModifiersKnown(presses[1..], mods + {CaptureModifier(presses[0]).value});
    }
  }

  /** Pressing a modifier again changes nothing: the modifiers form a set. */
  lemma CaptureRepeatedModifier(k: PressedKey, rest: seq<PressedKey>, mods: set<string>)
    requires CaptureModifier(k).Some?
    ensures Capture([k, k] + rest, mods) == Capture([k] + rest, mods)
  {
    assert ([k, k] + rest)[1..] == [k] + rest;
    assert ([k] + rest)[1..] == rest;
    assert ([k, k] + rest)[1..][1..] == rest;
  }

  /** The modifier names among the presses. */
  function ModifiersIn(presses: seq<PressedKey>): set<string>
  {
    if |presses| == 0 then {}
    else (if CaptureModifier(presses[0]).Some? then {CaptureModifier(presses[0]).value} else {}) + ModifiersIn(presses[1..])
  }

  /** The first press that is not a modifier ends the capture: the presses after it do not
      matter, and the modifiers are exactly the ones pressed before it. */
  lemma {:induction false} CaptureStopsAtFirstKey(pre: seq<PressedKey>, k: PressedKey, post: seq<PressedKey>, mods: set<string>)
    requires forall i :: 0 <= i < |pre| ==> CaptureModifier(pre[i]).Some?
    requires CaptureModifier(k).None?
    ensures Capture(pre + [k] + post, mods) == (mods + ModifiersIn(pre), Some(CapturedKeyName(k)))
    decreases |pre|
  {
    var s := pre + [k] + post;
    if |pre| == 0 {
      assert s[0] == k;
      assert Capture(s, mods) == (mods, Some(CapturedKeyName(k)));
      assert mods + ModifiersIn(pre) == mods;
    } else {
      var m := CaptureModifier(pre[0]).value;
      assert s[0] == pre[0];
      assert s[1..] == pre[1..] + [k] + post;
      CaptureStopsAtFirstKey(pre[1..], k, post, mods + {m});
      assert mods + {m} + ModifiersIn(pre[1..]) == mods + ModifiersIn(pre);
    }
  }

  /** Whether the list holds each element at most once. */
  predicate Distinct<T(==)>(xs: seq<T>) {
    forall i, j :: 0 <= i < j < |xs| ==> xs[i] != xs[j]
  }

  /** The preferences window, with its capture flag, the hotkey last captured and the mode
      selector (present once the window is shown). */
  class PreferencesWindow {
    var recordingHotkey: bool
    var capturedHotkey: Option<HotkeySetting>
    var modeVar: Option<string>
    /** Whether a save callback was given. */
    const hasOnSave: bool

    constructor (hasOnSave: bool)
      ensures !recordingHotkey && capturedHotkey.None? && modeVar.None? && this.hasOnSave == hasOnSave
    {
      this.hasOnSave := hasOnSave;
      recordingHotkey, capturedHotkey, modeVar := false, None, None;
    }

    /** Starts a capture, unless one is running: sets the flag and forgets the last captured
        hotkey. `started` says whether the capture thread is started. */
    method StartRecordingHotkey() returns (started: bool)
      modifies this
      ensures started <==> !old(recordingHotkey)
      ensures old(recordingHotkey) ==> unchanged(this)
      ensures !old(recordingHotkey) ==> recordingHotkey && capturedHotkey.None? && modeVar == old(modeVar)
    {
      if recordingHotkey {
        return false;
      }
      recordingHotkey, capturedHotkey := true, None;
      started := true;
    }

    /** A capture over the presses the listener sees. The first non-modifier press ends it. A
        hotkey is stored only when at least one modifier and a non-empty key were captured; its
        modifiers are the collected set, each once, in no particular order. The flag is cleared
        and `message` is what the window's label then shows. */
    method CaptureHotkey(presses: seq<PressedKey>) returns (message: string)
      modifies this
      ensures var (mods, key) := Capture(presses, {});
        && (capturedHotkey != old(capturedHotkey) ==> capturedHotkey.Some?)
        && (mods != {} && key.Some? && key.value != "" ==>
              && capturedHotkey.Some?
              && (set m | m in capturedHotkey.value.modifiers) == mods
              && Distinct(capturedHotkey.value.modifiers)
              && capturedHotkey.value.key == key.value
              && message == "Captured: " + FormatHotkey(capturedHotkey))
        && (!(mods != {} && key.Some? && key.value != "") ==>
              capturedHotkey == old(capturedHotkey) && message == "No hotkey captured. Try again.")
      ensures !recordingHotkey && modeVar == old(modeVar)
    {
      var mods: set<string> := {};
      var key: Option<string> := None;
      var i := 0;
      while i < |presses| && key.None?
        invariant 0 <= i <= |presses|
        invariant key.None? ==> Capture(presses, {}) == Capture(presses[i..], mods)
        invariant key.Some? ==> Capture(presses, {}) == (mods, key)
      {
        var m := CaptureModifier(presses[i]);
        assert presses[i..][1..] == presses[i + 1..];
        if m.Some? {
          mods := mods + {m.value};
        } else {
          key := Some(CapturedKeyName(presses[i]));
        }
        i := i + 1;
      }
      if mods != {} && key.Some? && key.value != "" {
        var list := SetToList(mods);
        capturedHotkey := Some(HotkeySetting(list, key.value));
        message := "Captured: " + FormatHotkey(capturedHotkey);
      } else {
        message := "No hotkey captured. Try again.";
      }
      recordingHotkey := false;
    }

    /** Saves the preferences into `current`, the configuration as loaded: the captured hotkey
        replaces the stored one, the selected mode is written whenever the selector exists, and
        every other entry is kept. When the file is written and a callback was given, the
        callback receives the new configuration. */
    method SavePreferences(current: Object, saveOk: bool) returns (cfg: Object, notified: Option<Object>)
      ensures capturedHotkey.Some? ==> "hotkey" in cfg && cfg["hotkey"] == HotkeyJson(capturedHotkey.value)
      ensures capturedHotkey.None? ==> Preserved(current, cfg, "hotkey")
      ensures modeVar.Some? ==> "mode" in cfg && cfg["mode"] == JStr(modeVar.value)
      ensures modeVar.None? ==> Preserved(current, cfg, "mode")
      ensures forall k :: k != "hotkey" && k != "mode" ==> Preserved(current, cfg, k)
      ensures notified == if saveOk && hasOnSave then Some(cfg) else None
    {
      cfg := current;
      if capturedHotkey.Some? {
        cfg := cfg["hotkey" := HotkeyJson(capturedHotkey.value)];
      }
      if modeVar.Some? {
        cfg := cfg["mode" := JStr(modeVar.value)];
      }
      notified := if saveOk && hasOnSave then Some(cfg) else None;
    }
  }

  /** `list(s)`: every element of the set once, in some order. */
  method SetToList(s: set<string>) returns (xs: seq<string>)
    ensures (set x | x in xs) == s
    ensures Distinct(xs)
  {
    xs := [];
    var rest := s;
    while rest != {}
      invariant rest <= s
      invariant (set x | x in xs) == s - rest
      invariant Distinct(xs)
      decreases |rest|
    {
      var x :| x in rest;
      assert (set y | y in xs + [x]) == (set y | y in xs) + {x};
      xs := xs + [x];
      rest := rest - {x};
    }
  }
}

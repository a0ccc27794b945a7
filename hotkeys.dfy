/** The global hotkey of the menu-bar application: the configured combination, the set of keys
    currently held, the combination test, the 200 ms debounce of accepted presses, and the
    hold-mode release. Time is an integer number of milliseconds. */
module Hotkeys {
  import opened Wrappers
  import opened Text
  import opened Json

  /** A stored hotkey: modifier names in list order and the main key's name. */
  datatype HotkeySetting = HotkeySetting(modifiers: seq<string>, key: string)

  /** A list of strings as a JSON array. */
  function StrItems(names: seq<string>): (r: seq<Json>)
    ensures |r| == |names|
    ensures forall i :: 0 <= i < |names| ==> r[i] == JStr(names[i])
  {
    if |names| == 0 then [] else StrItems(names[..|names| - 1]) + [JStr(names[|names| - 1])]
  }

  /** The hotkey as it is written into the configuration dictionary. */
  function HotkeyJson(h: HotkeySetting): (r: Json)
    ensures r.JObj? && r.fields.Keys == {"modifiers", "key"}
    ensures r.fields["key"] == JStr(h.key)
    ensures r.fields["modifiers"].JArr? && |r.fields["modifiers"].items| == |h.modifiers|
    ensures forall i :: 0 <= i < |h.modifiers| ==> r.fields["modifiers"].items[i] == JStr(h.modifiers[i])
  {
    JObj(map["modifiers" := JArr(StrItems(h.modifiers)), "key" := JStr(h.key)])
  }

  /** A key event's key: a member of the listener's named-key enumeration (`Key.cmd`,
      `Key.space`, ...) or a key code, which may carry a character. */
  datatype Key = Named(name: string) | Code(ch: Option<string>)

  /** The main key of a combination: a named key, or a character matched against key codes. */
  datatype MainKey = NamedMain(name: string) | CharMain(ch: string)

  /** The accepted modifier names; any other name is dropped from the combination. */
  function ModifierKey(name: string): (r: Option<Key>)
    ensures r.Some? <==> name in {"cmd", "ctrl", "alt", "shift"}
    ensures r.Some? ==> r.value == Named(name)
  {
    if name == "cmd" then Some(Named("cmd"))
    else if name == "ctrl" then Some(Named("ctrl"))
    else if name == "alt" then Some(Named("alt"))
    else if name == "shift" then Some(Named("shift"))
    else None
  }

  /** The combination's modifier keys: the known names among `modifiers`, in list order. */
  function KnownModifiers(modifiers: seq<string>): (r: seq<Key>)
    ensures |r| <= |modifiers|
    ensures forall j :: 0 <= j < |r| ==> r[j].Named? && r[j].name in {"cmd", "ctrl", "alt", "shift"}
  {
    if |modifiers| == 0 then []
    else
      var m := ModifierKey(modifiers[|modifiers| - 1]);
      KnownModifiers(modifiers[..|modifiers| - 1]) + (if m.Some? then [m.value] else [])
  }

  /** A modifier key is in the combination exactly when its name is configured and known. */
  lemma {:induction false} KnownModifiersMembers(modifiers: seq<string>, k: Key)
    ensures k in KnownModifiers(modifiers) <==>
            k.Named? && k.name in {"cmd", "ctrl", "alt", "shift"} && k.name in modifiers
    decreases |modifiers|
  {
    if |modifiers| > 0 {
      var init := modifiers[..|modifiers| - 1];
      KnownModifiersMembers(init, k);
      assert modifiers == init + [modifiers[|modifiers| - 1]];
    }
  }

  /** An unknown modifier name adds nothing to the combination. */
  lemma UnknownModifierDropped(modifiers: seq<string>, name: string)
    requires name !in {"cmd", "ctrl", "alt", "shift"}
    ensures KnownModifiers(modifiers + [name]) == KnownModifiers(modifiers)
  {
    assert (modifiers + [name])[..|modifiers|] == modifiers;
  }

  /** The main key for a configured key name: "space" and the names of the enumeration
      (`namedKeys`) are named keys, anything else is a character key. */
  function ResolveMainKey(keyName: string, namedKeys: set<string>): (r: MainKey)
    ensures Lower(keyName) == "space" ==> r == NamedMain("space")
    ensures Lower(keyName) != "space" && Lower(keyName) in namedKeys ==> r == NamedMain(Lower(keyName))
    ensures Lower(keyName) != "space" && Lower(keyName) !in namedKeys ==> r == CharMain(Lower(keyName))
  {
    var name := Lower(keyName);
    if name == "space" then NamedMain("space")
    else if name in namedKeys then NamedMain(name)
    else CharMain(name)
  }

  /** Whether a key event's key is the main key. */
  predicate IsMainKey(k: Key, main: MainKey)
    ensures IsMainKey(k, main) ==> (k.Named? <==> main.NamedMain?)
  {
    match main
    case NamedMain(n) => k == Named(n)
    case CharMain(c) => k == Code(Some(c))
  }

  /** The combination is held: the main key and every modifier are among the pressed keys. */
  predicate ComboPressed(pressed: set<Key>, main: MainKey, modifierKeys: seq<Key>)
    ensures ComboPressed(pressed, main, modifierKeys) ==> forall m :: m in modifierKeys ==> m in pressed
  {
    (exists k :: k in pressed && IsMainKey(k, main))
    && forall j :: 0 <= j < |modifierKeys| ==> modifierKeys[j] in pressed
  }

  /** Holding more keys never undoes a match. */
  lemma ComboMonotone(pressed: set<Key>, more: set<Key>, main: MainKey, modifierKeys: seq<Key>)
    requires pressed <= more && ComboPressed(pressed, main, modifierKeys)
    ensures ComboPressed(more, main, modifierKeys)
  {
    var k :| k in pressed && IsMainKey(k, main);
    assert k in more;
  }

  /** The minimum time between two accepted presses. */
  const DebounceMs: int := 200

  /** The modifier keys of the combination, by the registration's loop over the names. */
  method MapModifiers(modifiers: seq<string>) returns (keys: seq<Key>)
    ensures keys == KnownModifiers(modifiers)
  {
    keys := [];
    var i := 0;
    while i < |modifiers|
      invariant 0 <= i <= |modifiers|
      invariant keys == KnownModifiers(modifiers[..i])
    {
      var m := ModifierKey(modifiers[i]);
      assert modifiers[..i + 1][..i] == modifiers[..i];
      if m.Some? {
        keys := keys + [m.value];
      }
      i := i + 1;
    }
    assert modifiers[..i] == modifiers;
  }

  /** The hotkey as logged: the modifiers joined with "+", then "+" and the key, or the key alone;
      "None" when no hotkey is configured. */
  function FormatHotkeyForLog(hotkey: Option<HotkeySetting>): (r: string)
    ensures hotkey.None? ==> r == "None"
    ensures hotkey.Some? ==> |r| >= |hotkey.value.key| && r[|r| - |hotkey.value.key|..] == hotkey.value.key
  {
    if hotkey.None? then "None"
    else if |hotkey.value.modifiers| > 0 then Join(hotkey.value.modifiers, "+") + "+" + hotkey.value.key
    else hotkey.value.key
  }

  /** The logged form is the modifiers and the key joined by "+", with or without modifiers. */
  lemma FormatHotkeyForLogJoins(h: HotkeySetting)
    ensures FormatHotkeyForLog(Some(h)) == Join(h.modifiers + [h.key], "+")
  {
    if |h.modifiers| > 0 {
      JoinSnoc(h.modifiers, h.key, "+");
    } else {
      assert h.modifiers + [h.key] == [h.key];
    }
  }

  /** Each accepted time is at least 200 ms after the previous one (the first, after time 0). */
  predicate Spaced(times: seq<int>) {
    && (|times| > 0 ==> times[0] >= DebounceMs)
    && forall i :: 0 < i < |times| ==> times[i] - times[i - 1] >= DebounceMs
  }

  /** A time at least 200 ms after the last accepted one keeps the accepted times spaced. */
  lemma SpacedSnoc(times: seq<int>, t: int)
    requires Spaced(times)
    requires t - (if |times| == 0 then 0 else times[|times| - 1]) >= DebounceMs
    ensures Spaced(times + [t])
  {
    var s := times + [t];
    forall i | 0 < i < |s|
      ensures s[i] - s[i - 1] >= DebounceMs
    {
      if i < |times| {
        assert s[i] == times[i] && s[i - 1] == times[i - 1];
      }
    }
  }

  /** The listener that the registration installs, with the state its two handlers share. */
  class HotkeyListener {
    const modifierKeys: seq<Key>
    const mainKey: MainKey
    /** The keys currently held. */
    var pressed: set<Key>
    /** The time of the last accepted press (0 before the first). */
    var lastTrigger: int
    /** The times of every accepted press, oldest first. */
    ghost var accepted: seq<int>

    /** Accepted presses are at least 200 ms apart, and the last one is remembered. */
    ghost predicate Valid()
      reads this
    {
      && lastTrigger == (if |accepted| == 0 then 0 else accepted[|accepted| - 1])
      && Spaced(accepted)
    }

    /** Registers `hotkey`; `namedKeys` are the names of the listener's key enumeration. */
    constructor (hotkey: HotkeySetting, namedKeys: set<string>)
      ensures Valid()
      ensures modifierKeys == KnownModifiers(hotkey.modifiers)
      ensures mainKey == ResolveMainKey(hotkey.key, namedKeys)
      ensures pressed == {} && lastTrigger == 0 && accepted == []
    {
      var keys := MapModifiers(hotkey.modifiers);
      modifierKeys := keys;
      mainKey := ResolveMainKey(hotkey.key, namedKeys);
      pressed := {};
      lastTrigger := 0;
      accepted := [];
    }

    /** The combination test: first the main key (for a character key, any pressed key code
        carrying that character), then every modifier. */
    method CheckHotkeyCombination() returns (matched: bool)
      ensures matched == ComboPressed(pressed, mainKey, modifierKeys)
    {
      var mainPressed := false;
      match mainKey {
        case NamedMain(n) =>
          mainPressed := Named(n) in pressed;
        case CharMain(c) =>
          var rest := pressed;
          while rest != {} && !mainPressed
            invariant rest <= pressed
            invariant mainPressed ==> Code(Some(c)) in pressed
            invariant !mainPressed ==> Code(Some(c)) !in pressed - rest
            decreases |rest|
          {
            var k :| k in rest;
            if k.Code? && k.ch == Some(c) {
              mainPressed := true;
            }
            rest := rest - {k};
          }
      }
      if !mainPressed {
        return false;
      }
      var i := 0;
      while i < |modifierKeys|
        invariant 0 <= i <= |modifierKeys|
        invariant forall j :: 0 <= j < i ==> modifierKeys[j] in pressed
      {
        if modifierKeys[i] !in pressed {
          return false;
        }
        i := i + 1;
      }
      return true;
    }

    /** A key press at time `now`: the key is added to the held set, and the press triggers when
        the combination is held and at least 200 ms have passed since the last accepted press.
        Only an accepted press moves the debounce window. */
    method OnPress(key: Key, now: int) returns (triggered: bool)
      requires Valid()
      modifies this
      ensures Valid()
      ensures pressed == old(pressed) + {key}
      ensures triggered == (ComboPressed(pressed, mainKey, modifierKeys) && now - old(lastTrigger) >= DebounceMs)
      ensures lastTrigger == (if triggered then now else old(lastTrigger))
      ensures accepted == old(accepted) + (if triggered then [now] else [])
    {
      pressed := pressed + {key};
      var matched := CheckHotkeyCombination();
      triggered := matched && now - lastTrigger >= DebounceMs;
      if triggered {
        SpacedSnoc(accepted, now);
        lastTrigger, accepted := now, accepted + [now];
      }
    }

    /** A key release: the key leaves the held set, and in hold mode while recording the release
        of the main key (not of a modifier) asks for the recording to stop. */
    method OnRelease(key: Key, holdRecording: bool) returns (stopRequested: bool)
      requires Valid()
      modifies this
      ensures Valid()
      ensures pressed == old(pressed) - {key}
      ensures stopRequested == (holdRecording && IsMainKey(key, mainKey))
      ensures lastTrigger == old(lastTrigger) && accepted == old(accepted)
    {
      pressed := pressed - {key};
      stopRequested := holdRecording && IsMainKey(key, mainKey);
    }
  }

  /** Any two accepted presses are at least 200 ms apart per press between them. */
  lemma {:induction false} AcceptedSpaced(accepted: seq<int>, i: nat, j: nat)
    requires Spaced(accepted)
    requires i <= j < |accepted|
    ensures accepted[j] - accepted[i] >= DebounceMs * (j - i)
    decreases j - i
  {
    if i < j {
      AcceptedSpaced(accepted, i, j - 1);
      assert accepted[j] - accepted[j - 1] >= DebounceMs;
    }
  }
}

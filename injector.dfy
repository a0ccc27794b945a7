/** Text injection into the focused element: the key-code table for simulated typing, the
    typing loop that posts a key-down and a key-up per character, and the order in which the
    injector tries its methods. The accessibility calls are foreign: their outcomes are
    parameters. */
module Injector {
  import opened Wrappers
  import opened Text

  /** The key code for one character: ASCII letters in either case 0..25 in alphabetical order,
      digit d at d + 29, space 49 and newline 36; any other character has none and is typed as a
      Unicode event. */
  function CharToKeycode(c: char): (r: Option<int>)
    ensures IsLetter(c) ==> r == Some(LowerChar(c) as int - 'a' as int)
    ensures '0' <= c <= '9' ==> r == Some(c as int - '0' as int + 29)
    ensures c == ' ' ==> r == Some(49)
    ensures c == '\n' ==> r == Some(36)
    ensures r.Some? <==> IsLetter(c) || '0' <= c <= '9' || c == ' ' || c == '\n'
  {
    var lower := LowerChar(c);
    if IsLower(lower) then Some(lower as int - 'a' as int)
    else if '0' <= lower <= '9' then Some(lower as int - '0' as int + 29)
    else if c == ' ' then Some(49)
    else if c == '\n' then Some(36)
    else None
  }

  /** The upper- and lower-case forms of a letter type the same key. */
  lemma KeycodeCaseInsensitive(c: char)
    requires IsLower(c)
    ensures CharToKeycode(UpperChar(c)) == CharToKeycode(c)
  {
    assert LowerChar(UpperChar(c)) == c;
  }

  /** Every code in the table is a letter code 0..25, a digit code 29..38, or the space code 49. */
  lemma KeycodeRange(c: char)
    ensures CharToKeycode(c).Some? ==>
      var k := CharToKeycode(c).value;
      (0 <= k <= 25) || (29 <= k <= 38) || k == 49
  {
  }

  /** Two different characters share a code only when they are the two cases of one letter, or
      when they are the digit 7 and the newline, which the table both sends as 36. */
  lemma KeycodeCollisions(c: char, d: char)
    requires c != d && CharToKeycode(c).Some? && CharToKeycode(c) == CharToKeycode(d)
    ensures (IsLetter(c) && IsLetter(d) && LowerChar(c) == LowerChar(d)) || {c, d} == {'7', '\n'}
  {
    if IsLetter(c) && IsLetter(d) {
      assert LowerChar(c) as int - 'a' as int == LowerChar(d) as int - 'a' as int;
    }
  }

  lemma SevenTypesReturn()
    ensures CharToKeycode('7') == CharToKeycode('\n') == Some(36)
  {
  }

  /** Python's `str.lower()` on one character, for the Latin-1 range; every other character is
      kept as it is. */
  function PyLowerLatin1(c: char): char
  {
    if 'A' <= c <= 'Z' || ('\U{00C0}' <= c <= '\U{00DE}' && c != '\U{00D7}') then (c as int + 32) as char else c
  }

  /** Python's `str.isalpha()` on one character of the Latin-1 range (the letters, the two
      ordinal indicators and the micro sign); characters beyond it count as non-letters. */
  predicate PyIsAlphaLatin1(c: char) {
    || 'A' <= c <= 'Z' || 'a' <= c <= 'z'
    || c == '\U{00AA}' || c == '\U{00B5}' || c == '\U{00BA}'
    || ('\U{00C0}' <= c <= '\U{00FF}' && c != '\U{00D7}' && c != '\U{00F7}')
  }

  /** Python's `str.isdigit()` on one character of the Latin-1 range: the ASCII digits and the
      superscripts one, two and three. */
  predicate PyIsDigitLatin1(c: char) {
    '0' <= c <= '9' || c == '\U{00B9}' || c == '\U{00B2}' || c == '\U{00B3}'
  }

  /** The table as written: the letter and digit tests are Python's Unicode-aware ones, so a
      non-ASCII letter or digit also gets an offset of its code point. */
  function CharToKeycodeAsWritten(c: char): (r: Option<int>)
    ensures PyIsAlphaLatin1(PyLowerLatin1(c)) ==> r == Some(PyLowerLatin1(c) as int - 'a' as int)
    ensures r.None? ==> !PyIsAlphaLatin1(PyLowerLatin1(c)) && !PyIsDigitLatin1(PyLowerLatin1(c))
  {
    var lower := PyLowerLatin1(c);
    if PyIsAlphaLatin1(lower) then Some(lower as int - 'a' as int)
    else if PyIsDigitLatin1(lower) then Some(lower as int - '0' as int + 29)
    else if c == ' ' then Some(49)
    else if c == '\n' then Some(36)
    else None
  }

  /** On ASCII the table as written is the table above. */
  lemma AsWrittenAgreesOnAscii(c: char)
    requires c as int < 128
    ensures CharToKeycodeAsWritten(c) == CharToKeycode(c)
  {
  }

  /** 'é' and 'É' are posted as key code 136 and '²' as 159, far outside the letter and digit
      ranges, where the ASCII table sends them as Unicode events. */
  lemma AsWrittenNonAsciiCodes()
    ensures CharToKeycodeAsWritten('\U{00E9}') == Some(136) && CharToKeycode('\U{00E9}') == None
    ensures CharToKeycodeAsWritten('\U{00C9}') == Some(136) && CharToKeycode('\U{00C9}') == None
    ensures CharToKeycodeAsWritten('\U{00B2}') == Some(159) && CharToKeycode('\U{00B2}') == None
  {
  }

  /** A keyboard event posted to the session event tap. */
  datatype KeyEvent = KeyDown(code: int) | KeyUp(code: int) | UnicodeDown(ch: char) | UnicodeUp(ch: char)

  /** The events for one character: its key pressed and released, or a Unicode key-down and
      key-up carrying the character. */
  function CharEvents(c: char): (r: seq<KeyEvent>)
    ensures |r| == 2
  {
    match CharToKeycode(c)
    case Some(k) => [KeyDown(k), KeyUp(k)]
    case None => [UnicodeDown(c), UnicodeUp(c)]
  }

  /** The events for a text, character by character. */
  function TypedEvents(text: string): (r: seq<KeyEvent>)
    ensures |r| == 2 * |text|
  {
    if |text| == 0 then [] else TypedEvents(text[..|text| - 1]) + CharEvents(text[|text| - 1])
  }

  /** Character i of the text is typed by events 2i and 2i+1: a press and the release of the
      same key, or the Unicode pair for that character. */
  lemma {:induction false} TypedEventsAt(text: string, i: nat)
    requires i < |text|
    ensures TypedEvents(text)[2 * i..2 * i + 2] == CharEvents(text[i])
    ensures CharToKeycode(text[i]).Some? ==>
      TypedEvents(text)[2 * i] == KeyDown(CharToKeycode(text[i]).value) &&
      TypedEvents(text)[2 * i + 1] == KeyUp(CharToKeycode(text[i]).value)
    ensures CharToKeycode(text[i]).None? ==>
      TypedEvents(text)[2 * i] == UnicodeDown(text[i]) && TypedEvents(text)[2 * i + 1] == UnicodeUp(text[i])
    decreases |text|
  {
    var n := |text| - 1;
    var init := text[..n];
    if i < n {
      TypedEventsAt(init, i);
      assert TypedEvents(text)[2 * i..2 * i + 2] == TypedEvents(init)[2 * i..2 * i + 2];
    } else {
      assert TypedEvents(text)[2 * i..2 * i + 2] == CharEvents(text[n]);
    }
  }

  /** On an ASCII character the typed events are those the table as written gives: a press and
      release of its code, or the Unicode pair when it has none. */
  lemma TypedEventsAsWrittenOnAscii(text: string, i: nat)
    requires i < |text| && text[i] as int < 128
    ensures CharToKeycodeAsWritten(text[i]).Some? ==>
      TypedEvents(text)[2 * i] == KeyDown(CharToKeycodeAsWritten(text[i]).value) &&
      TypedEvents(text)[2 * i + 1] == KeyUp(CharToKeycodeAsWritten(text[i]).value)
    ensures CharToKeycodeAsWritten(text[i]).None? ==>
      TypedEvents(text)[2 * i] == UnicodeDown(text[i]) && TypedEvents(text)[2 * i + 1] == UnicodeUp(text[i])
  {
    TypedEventsAt(text, i);
    AsWrittenAgreesOnAscii(text[i]);
  }

  /** Typing two texts one after the other posts the events of their concatenation. */
  lemma {:induction false} TypedEventsAppend(a: string, b: string)
    ensures TypedEvents(a + b) == TypedEvents(a) + TypedEvents(b)
    decreases |b|
  {
    if |b| > 0 {
      var b' := b[..|b| - 1];
      assert (a + b)[..|a + b| - 1] == a + b';
      TypedEventsAppend(a, b');
    } else {
      assert a + b == a;
    }
  }

  /** Simulated typing: when the target's process id cannot be read nothing is posted and it
      fails; otherwise every character is typed in order and it succeeds. */
  method SimulateTyping(text: string, pidOk: bool) returns (ok: bool, posted: seq<KeyEvent>)
    ensures ok == pidOk
    ensures posted == if pidOk then TypedEvents(text) else []
  {
    if !pidOk {
      return false, [];
    }
    posted := [];
    var i := 0;
    while i < |text|
      invariant 0 <= i <= |text|
      invariant posted == TypedEvents(text[..i])
    {
      var events;
      match CharToKeycode(text[i]) {
        case None =>
          events := [UnicodeDown(text[i]), UnicodeUp(text[i])];
        case Some(k) =>
          events := [KeyDown(k), KeyUp(k)];
      }
      assert text[..i + 1][..i] == text[..i];
      posted := posted + events;
      i := i + 1;
    }
    assert text[..i] == text;
    ok := true;
  }

  /** The outcomes of the accessibility calls for one injection: whether a focused element is
      found, whether setting its value succeeds, whether its selected range can be read and
      replacing the selection succeeds, and whether its process id can be read. */
  datatype InjectEnv = InjectEnv(focused: bool, valueSet: bool, rangeRead: bool, selectionSet: bool, pidOk: bool)

  /** Direct injection succeeds by setting the value, or else by replacing the selection once the
      selected range is read. */
  predicate DirectSucceeds(env: InjectEnv) {
    env.valueSet || (env.rangeRead && env.selectionSet)
  }

  /** An injection method tried on the focused element. */
  datatype Attempt = DirectSet | SimulatedTyping

  /** Injects `text`. Empty text fails before the focused element is looked up; a missing focused
      element fails; otherwise the direct set is tried unless `simulateTyping` is asked for, and
      simulated typing runs when the direct set was skipped or failed. */
  method InjectText(text: string, simulateTyping: bool, env: InjectEnv)
    returns (ok: bool, lookedUp: bool, attempts: seq<Attempt>, posted: seq<KeyEvent>)
    ensures lookedUp <==> |text| > 0
    ensures ok <==> |text| > 0 && env.focused && ((!simulateTyping && DirectSucceeds(env)) || env.pidOk)
    ensures !lookedUp || !env.focused ==> attempts == [] && posted == []
    ensures lookedUp && env.focused ==>
      attempts == (if simulateTyping then [SimulatedTyping]
                   else if DirectSucceeds(env) then [DirectSet]
                   else [DirectSet, SimulatedTyping])
    ensures posted == if SimulatedTyping in attempts && env.pidOk then TypedEvents(text) else []
  {
    attempts, posted := [], [];
    if |text| == 0 {
      return false, false, attempts, posted;
    }
    lookedUp := true;
    if !env.focused {
      return false, lookedUp, attempts, posted;
    }
    if !simulateTyping {
      attempts := attempts + [DirectSet];
      if env.valueSet || (env.rangeRead && env.selectionSet) {
        return true, lookedUp, attempts, posted;
      }
    }
    attempts := attempts + [SimulatedTyping];
    ok, posted := SimulateTyping(text, env.pidOk);
  }
}

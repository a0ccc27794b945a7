/** The bounded amplitude history the recorders keep for the overlay (a `deque` with `maxlen=200`). */
module Waveform {

  /** The history's capacity. */
  const Capacity: nat := 200

  function Abs(x: real): real { if x < 0.0 then -x else x }

  /** The sum of the absolute values of a block. */
  function AbsSum(block: seq<real>): (r: real)
    ensures r >= 0.0
  {
    if |block| == 0 then 0.0 else AbsSum(block[..|block| - 1]) + Abs(block[|block| - 1])
  }

  /** The waveform point of a block: its mean absolute amplitude (0.0 for an empty block). */
  function Amplitude(block: seq<real>): (r: real)
    ensures r >= 0.0
  {
    if |block| == 0 then 0.0 else AbsSum(block) / (|block| as real)
  }

  /** Appends one point; a full history first drops its oldest point. */
  function Push(history: seq<real>, x: real): (r: seq<real>)
    requires |history| <= Capacity
    ensures |r| == if |history| < Capacity then |history| + 1 else Capacity
    ensures r[|r| - 1] == x
  {
    if |history| < Capacity then history + [x] else history[1..] + [x]
  }

  /** A push keeps the newest points of the history followed by the new one. */
  lemma PushKeepsNewest(history: seq<real>, x: real)
    requires |history| <= Capacity
    ensures var r := Push(history, x); r == (history + [x])[|history| + 1 - |r|..]
  {
    if |history| == Capacity {
      assert history[1..] + [x] == (history + [x])[1..];
    }
  }

  /** The newest `Capacity` points of a stream of points. */
  function Window(points: seq<real>): (r: seq<real>)
    ensures |r| <= Capacity
    ensures |r| == if |points| < Capacity then |points| else Capacity
  {
    if |points| <= Capacity then points else points[|points| - Capacity..]
  }

  /** The window is a suffix of the stream. */
  lemma WindowIsSuffix(points: seq<real>)
    ensures var r := Window(points); r == points[|points| - |r|..]
  {
  }

  /** Pushing onto the window of a stream gives the window of the extended stream: the history
      always holds exactly the newest points, oldest evicted first. */
  lemma PushWindow(points: seq<real>, x: real)
    ensures Push(Window(points), x) == Window(points + [x])
  {
    if |points| >= Capacity {
      var k := |points| - Capacity;
      assert Window(points) == points[k..];
      assert Window(points)[1..] == points[k + 1..];
      assert (points + [x])[k + 1..] == points[k + 1..] + [x];
    }
  }

  /** The newest point, or 0.0 when the history is empty. */
  function Latest(history: seq<real>): (r: real)
    ensures |history| > 0 ==> r == history[|history| - 1]
    ensures |history| == 0 ==> r == 0.0
  {
    if |history| > 0 then history[|history| - 1] else 0.0
  }

  /** After a push the newest point is the one pushed. */
  lemma LatestAfterPush(history: seq<real>, x: real)
    requires |history| <= Capacity
    ensures Latest(Push(history, x)) == x
  {
  }
}

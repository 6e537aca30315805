/**
 * The frames-per-second counter: a window of tick timestamps, trimmed from
 * the front, that always keeps its last few entries.
 */
module Fps {
  import opened Clock

  /** Trimming never leaves fewer than this many timestamps behind it. */
  const MinSamples: nat := 3

  /**
   * The history after trimming: the front is dropped while at least
   * `MinSamples` timestamps remain and the front is older than `cutoff`.
   * What is left is a suffix, at least `MinSamples - 1` long unless the
   * history was shorter, and one at which trimming has stopped.
   */
  function Trim(history: seq<int>, cutoff: int): (r: seq<int>)
    ensures |r| <= |history| && r == history[|history| - |r|..]
    ensures |r| >= if |history| < MinSamples - 1 then |history| else MinSamples - 1
    ensures |r| < MinSamples || r[0] >= cutoff
    decreases |history|
  {
    if |history| >= MinSamples && history[0] < cutoff then Trim(history[1..], cutoff) else history
  }

  /** Everything trimming drops was older than the cutoff. */
  lemma {:induction false} TrimDropsOnlyStale(history: seq<int>, cutoff: int)
    ensures forall i :: 0 <= i < |history| - |Trim(history, cutoff)| ==> history[i] < cutoff
    decreases |history|
  {
    if |history| >= MinSamples && history[0] < cutoff {
      TrimDropsOnlyStale(history[1..], cutoff);
      assert forall i :: 1 <= i < |history| - |Trim(history, cutoff)| ==> history[i] == history[1..][i - 1];
    }
  }

  /** Trimming twice against the same cutoff is trimming once. */
  lemma TrimIdempotent(history: seq<int>, cutoff: int)
    ensures Trim(Trim(history, cutoff), cutoff) == Trim(history, cutoff)
  {
  }

  /** A window whose front is recent enough, or which is short, is left as it is. */
  lemma TrimKeepsFresh(history: seq<int>, cutoff: int)
    requires |history| < MinSamples || history[0] >= cutoff
    ensures Trim(history, cutoff) == history
  {
  }

  /**
   * The rate over a window: its length over the seconds from its front to
   * `now`, the seconds bounded below by `f32::EPSILON`; 0 for an empty window.
   */
  function Rate(history: seq<int>, now: int): (fps: real)
    ensures history == [] <==> fps == 0.0
    ensures fps >= 0.0
  {
    if history == [] then 0.0
    else
      var seconds := SecondsBetween(history[0], now);
      var window := if seconds >= F32Epsilon then seconds else F32Epsilon;
      PositiveRate(|history| as real, window);
      |history| as real / window
  }

  lemma PositiveRate(count: real, seconds: real)
    requires count > 0.0 && seconds > 0.0
    ensures count / seconds > 0.0
  {
  }

  class FpsCounter {
    const countWindow: nat
    /** Tick timestamps, oldest first. */
    var tickHistory: seq<int>

    constructor (countWindow: nat)
      ensures this.countWindow == countWindow && tickHistory == []
    {
      this.countWindow := countWindow;
      tickHistory := [];
    }

    /**
     * One tick. `now` is the reading the window is measured against and
     * `stamp` the reading pushed into the history, a second call of the
     * clock.
     */
    method Tick(now: int, stamp: int) returns (fps: real)
      modifies this
      ensures tickHistory == Trim(old(tickHistory) + [stamp], now - countWindow)
      ensures fps == Rate(tickHistory, now) && fps > 0.0
    {
      tickHistory := tickHistory + [stamp];
      ghost var pushed := tickHistory;
      while |tickHistory| >= MinSamples && tickHistory[0] < now - countWindow
        invariant Trim(tickHistory, now - countWindow) == Trim(pushed, now - countWindow)
        decreases |tickHistory|
      {
        tickHistory := tickHistory[1..];
      }
      assert tickHistory == Trim(pushed, now - countWindow);
      if tickHistory != [] {
        var seconds := SecondsBetween(tickHistory[0], now);
        var window := if seconds >= F32Epsilon then seconds else F32Epsilon;
        fps := |tickHistory| as real / window;
        PositiveRate(|tickHistory| as real, window);
      } else {
        fps := 0.0;
      }
    }
  }

  /**
   * A tick appends its timestamp at the back and removes only from the front:
   * the window after it is a suffix of the old window followed by the new
   * stamp, and it is never empty.
   */
  lemma TickKeepsOrder(history: seq<int>, stamp: int, cutoff: int)
    ensures var r := Trim(history + [stamp], cutoff);
      r != [] && r[|r| - 1] == stamp && r[..|r| - 1] == history[|history| + 1 - |r|..]
  {
    var pushed := history + [stamp];
    var r := Trim(pushed, cutoff);
    assert |pushed| == |history| + 1 && |r| >= 1;
    SuffixOfPush(history, stamp, r);
  }

  /** A non-empty suffix of `history + [stamp]` is a suffix of `history` followed by `stamp`. */
  lemma SuffixOfPush(history: seq<int>, stamp: int, r: seq<int>)
    requires 1 <= |r| <= |history| + 1 && r == (history + [stamp])[|history| + 1 - |r|..]
    ensures r[|r| - 1] == stamp && r[..|r| - 1] == history[|history| + 1 - |r|..]
  {
    var k := |history| + 1 - |r|;
    assert r[..|r| - 1] == (history + [stamp])[k..|history|];
    assert (history + [stamp])[..|history|] == history;
  }
}

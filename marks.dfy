/**
 * The per-element flags both sliders of app.js derive from a cursor:
 * element `i` of a list carries the mark (class `active`, opacity 1)
 * exactly when `i === current`.
 */
module Marks {
  /** The flags `[i == current | 0 <= i < count]`. */
  function MarkAt(count: nat, current: int): (r: seq<bool>)
    ensures |r| == count
  {
    seq(count, i => i == current)
  }

  /** Number of set flags. */
  function CountMarked(s: seq<bool>): nat {
    if s == [] then 0 else (if s[0] then 1 else 0) + CountMarked(s[1..])
  }

  /** Exactly one flag is set when the cursor is in range, and none otherwise. */
  lemma {:induction false} ExactlyOneMarked(count: nat, current: int)
    ensures CountMarked(MarkAt(count, current)) == (if 0 <= current < count then 1 else 0)
    ensures 0 <= current < count ==> MarkAt(count, current)[current]
  {
    OneMarkedFrom(MarkAt(count, current), current);
  }

  lemma {:induction false} OneMarkedFrom(s: seq<bool>, k: int)
    requires forall i :: 0 <= i < |s| ==> (s[i] <==> i == k)
    ensures CountMarked(s) == (if 0 <= k < |s| then 1 else 0)
  {
    if s != [] {
      OneMarkedFrom(s[1..], k - 1);
    }
  }
}

/** The chart's bounded history: each tick pushes one point and drops the oldest beyond the limit. */
module HistoryBuffer {
  import opened SimConstants

  /** One chart update of one series: push `x`, then shift one element off if the series is too long. */
  function Push<T>(s: seq<T>, x: T): (r: seq<T>)
    ensures |s| < HISTORY_LIMIT ==> r == s + [x]
    ensures |s| >= HISTORY_LIMIT ==> r == s[1..] + [x]
    ensures |s| <= HISTORY_LIMIT ==> |r| == if |s| < HISTORY_LIMIT then |s| + 1 else HISTORY_LIMIT
  {
    var pushed := s + [x];
    if |pushed| > HISTORY_LIMIT then pushed[1..] else pushed
  }

  /** The series after pushing every element of `xs` in turn. */
  function PushAll<T>(s: seq<T>, xs: seq<T>): seq<T>
    decreases |xs|
  {
    if xs == [] then s else PushAll(Push(s, xs[0]), xs[1..])
  }

  /** The newest HISTORY_LIMIT elements of `w`, in their original order. */
  function Newest<T>(w: seq<T>): (r: seq<T>)
    ensures |r| == if |w| <= HISTORY_LIMIT then |w| else HISTORY_LIMIT
    ensures forall k :: 0 <= k < |r| ==> r[k] == w[|w| - |r| + k]
  {
    if |w| <= HISTORY_LIMIT then w else w[|w| - HISTORY_LIMIT..]
  }

  /** Dropping the head of a series that is already at least full does not change its newest window. */
  lemma NewestDropsHead<T>(a: T, t: seq<T>)
    requires |t| >= HISTORY_LIMIT
    ensures Newest([a] + t) == Newest(t)
  {
  }

  /**
   * Starting from a series within the limit, any sequence of pushes leaves exactly the
   * newest HISTORY_LIMIT of all points, oldest first: a first-in first-out window.
   */
  lemma {:induction false} PushAllKeepsNewest<T>(s: seq<T>, xs: seq<T>)
    requires |s| <= HISTORY_LIMIT
    ensures PushAll(s, xs) == Newest(s + xs)
    decreases |xs|
  {
    if xs == [] {
      assert s + xs == s;
    } else {
      var p := Push(s, xs[0]);
      PushAllKeepsNewest(p, xs[1..]);
      assert s + xs == (s + [xs[0]]) + xs[1..];
      if |s| == HISTORY_LIMIT {
        assert (s + [xs[0]]) + xs[1..] == [s[0]] + (p + xs[1..]);
        NewestDropsHead(s[0], p + xs[1..]);
      }
    }
  }
}

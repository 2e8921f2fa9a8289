/** A replicated body's buffer of snapshot samples, rendered a fixed delay behind the clock.
    The buffer is capped and pruned; the point is that neither can be seen. */
module SampleBuffer {
  import opened Wrappers

  const CAP: nat := 32
  const SHORTEST_SPAN: real := 0.000001

  /** `place` stands for position and rotation, which are carried and blended but never compared. */
  datatype Sample = Sample(t: real, place: nat)

  /** What is drawn: one sample's place, or two mixed by `alpha`. */
  datatype Pose = Hold(at: Sample) | Blend(a: Sample, b: Sample, alpha: real)

  // ----- the buffer -----

  function Push(buf: seq<Sample>, s: Sample): seq<Sample> {
    var all := buf + [s];
    if |all| > CAP then all[|all| - CAP..] else all
  }

  function Prune(buf: seq<Sample>, target: real): (r: seq<Sample>)
    ensures buf != [] ==> r != []
    decreases |buf|
  {
    if |buf| >= 2 && buf[1].t <= target then Prune(buf[1..], target) else buf
  }

  function Clamp(x: real): real { if x < 0.0 then 0.0 else if x > 1.0 then 1.0 else x }

  function Alpha(a: Sample, b: Sample, target: real): real {
    var span := b.t - a.t;
    Clamp(if span > SHORTEST_SPAN then (target - a.t) / span else 1.0)
  }

  function Drawn(buf: seq<Sample>, target: real): Pose
    requires buf != []
  {
    if target <= buf[0].t || |buf| == 1 then Hold(buf[0])
    else Blend(buf[0], buf[1], Alpha(buf[0], buf[1], target))
  }

  class Track {
    var buf: seq<Sample>

    constructor ()
      ensures buf == []
    {
      buf := [];
    }

    method Receive(s: Sample)
      modifies this
      ensures buf == Push(old(buf), s)
    {
      buf := buf + [s];
      ghost var all := buf;
      var dropped := 0;
      while |buf| > CAP
        invariant dropped <= |all| && buf == all[dropped..]
        invariant dropped > 0 ==> |buf| >= CAP
      {
        buf := buf[1..];
        dropped := dropped + 1;
      }
    }

    /** None while nothing has arrived. */
    method Render(target: real) returns (pose: Option<Pose>)
      modifies this
      ensures buf == Prune(old(buf), target)
      ensures pose == if old(buf) == [] then None else Some(Drawn(buf, target))
    {
      if buf == [] { return None; }
      while |buf| >= 2 && buf[1].t <= target
        invariant buf != [] && Prune(buf, target) == Prune(old(buf), target)
      {
        buf := buf[1..];
      }
      if target <= buf[0].t || |buf| == 1 {
        pose := Some(Hold(buf[0]));
      } else {
        var a, b := buf[0], buf[1];
        var span := b.t - a.t;
        var alpha := if span > SHORTEST_SPAN then (target - a.t) / span else 1.0;
        pose := Some(Blend(a, b, Clamp(alpha)));
      }
    }
  }

  // ----- the whole history -----

  ghost predicate Sorted(h: seq<Sample>) {
    forall i, j :: 0 <= i < j < |h| ==> h[i].t <= h[j].t
  }

  /** How many samples are newer than the target. */
  function Newer(h: seq<Sample>, target: real): nat {
    if h == [] then 0
    else Newer(h[..|h| - 1], target) + (if h[|h| - 1].t > target then 1 else 0)
  }

  lemma {:induction false} NewerBound(h: seq<Sample>, target: real)
    ensures Newer(h, target) <= |h|
    ensures Sorted(h) ==> forall i :: 0 <= i < |h| ==> (h[i].t <= target <==> i < |h| - Newer(h, target))
  {
    if h != [] {
      var older := h[..|h| - 1];
      NewerBound(older, target);
      assert Sorted(h) ==> Sorted(older);
      assert forall i :: 0 <= i < |older| ==> older[i] == h[i];
      assert forall i :: Sorted(h) && h[|h| - 1].t <= target && 0 <= i < |older| ==> older[i].t <= target;
      assert Newer(older, target) > 0 && Sorted(h) ==> !(older[|older| - Newer(older, target)].t <= target);
    }
  }

  /** The pose the unpruned history calls for: the last sample at or before the target, blended
      with its successor when the target lies strictly between the two. */
  function FullPose(h: seq<Sample>, target: real): Pose
    requires h != []
  {
    NewerBound(h, target);
    var n := |h| - Newer(h, target);
    if n == 0 then Hold(h[0])
    else if n == |h| || h[n - 1].t == target then Hold(h[n - 1])
    else Blend(h[n - 1], h[n], Alpha(h[n - 1], h[n], target))
  }

  /** In a blend the target lies strictly inside the span, and the mix is the part of the span
      that has passed, or all of it where the span is too short to divide by. */
  lemma BlendInside(h: seq<Sample>, target: real)
    requires h != [] && Sorted(h)
    ensures var p := FullPose(h, target);
            p.Blend? ==> && p.a.t < target < p.b.t && 0.0 < p.alpha <= 1.0
                         && p.alpha == if p.b.t - p.a.t > 0.000001 then (target - p.a.t) / (p.b.t - p.a.t) else 1.0
  {
    NewerBound(h, target);
    var n := |h| - Newer(h, target);
    if 0 < n < |h| && h[n - 1].t != target {
      var span, into := h[n].t - h[n - 1].t, target - h[n - 1].t;
      assert h[n - 1].t < target < h[n].t;
      Fraction(into, span);
    }
  }

  /** Which samples the pose comes from: the first before any is reached, the newest once all are,
      the one just reached, and otherwise the two neighbours the target lies between. */
  lemma PoseMeaning(h: seq<Sample>, target: real, i: nat)
    requires Sorted(h) && i < |h|
    ensures target < h[0].t ==> FullPose(h, target) == Hold(h[0])
    ensures h[|h| - 1].t <= target ==> FullPose(h, target) == Hold(h[|h| - 1])
    ensures i + 1 < |h| && h[i].t == target < h[i + 1].t ==> FullPose(h, target) == Hold(h[i])
    ensures i + 1 < |h| && h[i].t < target < h[i + 1].t ==>
              FullPose(h, target).Blend? && FullPose(h, target).a == h[i] && FullPose(h, target).b == h[i + 1]
  {
    NewerBound(h, target);
    hide Newer, Alpha;
  }

  /** A full buffer drops its oldest sample for the new one, and one that is not full drops nothing. */
  lemma PushKeeps(buf: seq<Sample>, s: Sample)
    ensures |buf| < 32 ==> Push(buf, s) == buf + [s]
    ensures |buf| == 32 ==> Push(buf, s) == buf[1..] + [s]
  {
    assert |buf| == 32 ==> (buf + [s])[1..] == buf[1..] + [s];
  }

  /** A frame drops samples as long as the next has been reached, whatever their order, and then
      draws from the front. */
  lemma {:induction false} RenderMeaning(buf: seq<Sample>, target: real) returns (k: nat)
    requires buf != []
    ensures k < |buf| && Prune(buf, target) == buf[k..] && forall i :: 0 < i <= k ==> buf[i].t <= target
    ensures k + 1 < |buf| ==> target < buf[k + 1].t
    ensures Drawn(buf[k..], target) ==
            if target <= buf[k].t || k + 1 == |buf| then Hold(buf[k])
            else Blend(buf[k], buf[k + 1], if buf[k + 1].t - buf[k].t > 0.000001
                                           then (target - buf[k].t) / (buf[k + 1].t - buf[k].t) else 1.0)
    decreases |buf|
  {
    if |buf| >= 2 && buf[1].t <= target {
      hide Drawn;
      var later := RenderMeaning(buf[1..], target);
      k := later + 1;
      assert buf[1..][later..] == buf[k..];
      assert forall i :: 0 <= i < |buf| - 1 ==> buf[1..][i] == buf[i + 1];
    } else {
      k := 0;
      assert buf[0..] == buf;
      if |buf| >= 2 && buf[0].t < target { Fraction(target - buf[0].t, buf[1].t - buf[0].t); }
    }
  }

  lemma SignOfProduct(q: real, y: real)
    requires y > 0.0
    ensures q * y > 0.0 <==> q > 0.0
  {
  }

  lemma Fraction(x: real, y: real)
    requires 0.0 < x < y
    ensures 0.0 < x / y < 1.0
  {
    var q := x / y;
    assert q * y == x;
    SignOfProduct(q, y);
    assert (1.0 - q) * y == y - x;
    SignOfProduct(1.0 - q, y);
  }

  /** Pruning a tail of the history from `j` on stops at the last sample at or before the target. */
  lemma {:induction false} PruneStops(h: seq<Sample>, j: nat, target: real)
    requires Sorted(h) && j < |h|
    ensures var n := |h| - Newer(h, target);
            n <= |h| && Prune(h[j..], target) == h[if n <= j + 1 then j else n - 1..]
    decreases |h| - j
  {
    NewerBound(h, target);
    hide Newer;
    assert j + 1 < |h| ==> h[j..][1] == h[j + 1];
    if j + 1 < |h| && h[j + 1].t <= target {
      assert h[j..][1..] == h[j + 1..];
      PruneStops(h, j + 1, target);
    }
  }

  /** What is drawn from position `k` of the history on. */
  lemma DrawnFrom(h: seq<Sample>, k: nat, target: real)
    requires k < |h|
    ensures h[k..] != []
    ensures Drawn(h[k..], target) == if target <= h[k].t || k + 1 == |h| then Hold(h[k])
                                     else Blend(h[k], h[k + 1], Alpha(h[k], h[k + 1], target))
  {
  }

  /** A tail that still holds a sample at or before the target draws what the whole history would. */
  lemma TailDraws(h: seq<Sample>, j: nat, target: real)
    requires Sorted(h) && j < |h| && (j == 0 || h[j].t <= target)
    ensures Prune(h[j..], target) != [] && Drawn(Prune(h[j..], target), target) == FullPose(h, target)
  {
    PruneStops(h, j, target);
    NewerBound(h, target);
    var n := |h| - Newer(h, target);
    hide Alpha, Newer, Drawn, Prune;
    DrawnFrom(h, if n <= j + 1 then j else n - 1, target);
  }

  /** A tail that has lost them all draws its front, which is right only if the history begins with the same sample. */
  lemma TailLost(h: seq<Sample>, j: nat, target: real)
    requires Sorted(h) && j < |h| && target < h[j].t
    ensures Prune(h[j..], target) != []
            && (Drawn(Prune(h[j..], target), target) == FullPose(h, target) <==> h[0] == h[j])
  {
    PruneStops(h, j, target);
    NewerBound(h, target);
    hide Alpha, Newer, Drawn, Prune;
    DrawnFrom(h, j, target);
  }

  // ----- runs -----

  /** Samples arrive stamped with the client's clock; frames are drawn at it. */
  datatype Event = Arrive(clock: real, place: nat) | Draw(clock: real)

  datatype State = State(buf: seq<Sample>, history: seq<Sample>, rendered: Option<real>)

  function Step(st: State, ev: Event, delay: real): State {
    match ev
    case Arrive(clock, place) =>
      st.(buf := Push(st.buf, Sample(clock, place)), history := st.history + [Sample(clock, place)])
    case Draw(clock) =>
      if st.buf == [] then st else st.(buf := Prune(st.buf, clock - delay), rendered := Some(clock - delay))
  }

  function Run(events: seq<Event>, delay: real): State {
    if events == [] then State([], [], None)
    else Step(Run(events[..|events| - 1], delay), events[|events| - 1], delay)
  }

  ghost predicate ClockRises(events: seq<Event>) {
    forall i, j :: 0 <= i < j < |events| ==> events[i].clock <= events[j].clock
  }

  /** At most 31 samples are newer than the last drawn target; before the first frame, 32 in all. */
  predicate Fits(st: State) {
    |st.history| <= CAP || (st.rendered.Some? && Newer(st.history, st.rendered.value) < CAP)
  }

  ghost predicate AlwaysFits(events: seq<Event>, delay: real) {
    forall k :: 0 <= k <= |events| ==> Fits(Run(events[..k], delay))
  }

  /** The buffer is a tail of the history; whatever it lost was older than a sample already reached. */
  ghost predicate Tail(st: State) {
    && |st.buf| <= |st.history|
    && var j := |st.history| - |st.buf|;
    && st.buf == st.history[j..]
    && (st.history != [] ==> st.buf != [])
    && (j > 0 ==> st.rendered.Some? && st.history[j].t <= st.rendered.value)
  }

  /** Everything seen so far is no later than `clock`. */
  ghost predicate UpTo(st: State, clock: real, delay: real) {
    && (forall i :: 0 <= i < |st.history| ==> st.history[i].t <= clock)
    && (st.rendered.Some? ==> st.rendered.value <= clock - delay)
  }

  lemma StepKeepsTail(st: State, ev: Event, delay: real)
    requires Sorted(st.history) && Tail(st) && UpTo(st, ev.clock, delay) && Fits(Step(st, ev, delay))
    ensures var st' := Step(st, ev, delay);
            Sorted(st'.history) && Tail(st') && UpTo(st', ev.clock, delay)
  {
    hide Step, Tail, UpTo, Fits;
    match ev
    case Arrive(clock, place) => ArriveKeepsTail(st, clock, place, delay);
    case Draw(clock) => DrawKeepsTail(st, clock, delay);
  }

  lemma DrawKeepsTail(st: State, clock: real, delay: real)
    requires Sorted(st.history) && Tail(st) && UpTo(st, clock, delay)
    ensures var st' := Step(st, Draw(clock), delay);
            Sorted(st'.history) && Tail(st') && UpTo(st', clock, delay)
  {
    hide Prune, Sorted;
    assert UpTo(Step(st, Draw(clock), delay), clock, delay);
    assert st.rendered.Some? ==> st.rendered.value <= clock - delay;
    hide UpTo;
    if st.buf != [] {
      var h, j, target := st.history, |st.history| - |st.buf|, clock - delay;
      var k := PrunedTail(h, j, target);
      var b := Prune(st.buf, target);
      assert |b| == |h| - k && b == h[k..];
    }
  }

  lemma PrunedTail(h: seq<Sample>, j: nat, target: real) returns (k: nat)
    requires Sorted(h) && j < |h|
    ensures j <= k < |h| && Prune(h[j..], target) == h[k..] && (k > j ==> h[k].t <= target)
  {
    PruneStops(h, j, target);
    NewerBound(h, target);
    hide Prune, Newer;
    var n := |h| - Newer(h, target);
    k := if n <= j + 1 then j else n - 1;
  }

  lemma ArriveKeepsTail(st: State, clock: real, place: nat, delay: real)
    requires Sorted(st.history) && Tail(st) && UpTo(st, clock, delay) && Fits(Step(st, Arrive(clock, place), delay))
    ensures var st' := Step(st, Arrive(clock, place), delay);
            Sorted(st'.history) && Tail(st') && UpTo(st', clock, delay)
  {
    hide Newer;
    var st' := Step(st, Arrive(clock, place), delay);
    var j := |st.history| - |st.buf|;
    assert st.buf + [Sample(clock, place)] == st'.history[j..];
    if |st.buf| + 1 > CAP {
      var k := |st'.history| - CAP;
      assert st'.buf == st'.history[k..];
      if st'.rendered.Some? { NewerBound(st'.history, st'.rendered.value); }
    }
  }

  lemma {:induction false} RunKeepsTail(events: seq<Event>, delay: real)
    requires ClockRises(events) && AlwaysFits(events, delay)
    ensures var st := Run(events, delay);
            Sorted(st.history) && Tail(st) && (events != [] ==> UpTo(st, events[|events| - 1].clock, delay))
  {
    if events != [] {
      var before, last := events[..|events| - 1], events[|events| - 1];
      forall k | 0 <= k <= |before| ensures Fits(Run(before[..k], delay)) {
        assert before[..k] == events[..k];
      }
      RunKeepsTail(before, delay);
      assert events[..|events|] == events;
      var st := Run(before, delay);
      assert UpTo(st, last.clock, delay);
      StepKeepsTail(st, last, delay);
    }
  }

  /** In every run with a rising clock in which the buffer always fits, every frame draws what
      the whole history of samples calls for, as if nothing had ever been dropped. */
  lemma PruningIsInvisible(events: seq<Event>, delay: real, clock: real)
    requires ClockRises(events + [Draw(clock)]) && AlwaysFits(events, delay) && Run(events, delay).history != []
    ensures var st := Run(events, delay);
            && Prune(st.buf, clock - delay) != []
            && Drawn(Prune(st.buf, clock - delay), clock - delay) == FullPose(st.history, clock - delay)
  {
    hide Step, Drawn, Prune, FullPose, Fits;
    var all := events + [Draw(clock)];
    forall i, j | 0 <= i < j < |events| ensures events[i].clock <= events[j].clock {
      assert all[i].clock <= all[j].clock;
    }
    RunKeepsTail(events, delay);
    var st := Run(events, delay);
    var j := |st.history| - |st.buf|;
    if events != [] { assert all[|events| - 1].clock <= all[|events|].clock; }
    assert j > 0 ==> st.history[j].t <= clock - delay;
    TailDraws(st.history, j, clock - delay);
  }

  /** The buffer is a tail of a history in order, none of it later than `clock`. */
  ghost predicate Orderly(st: State, clock: real) {
    && Sorted(st.history) && |st.buf| <= |st.history|
    && st.buf == st.history[|st.history| - |st.buf|..] && (st.history != [] ==> st.buf != [])
    && forall i :: 0 <= i < |st.history| ==> st.history[i].t <= clock
  }

  lemma StepKeepsOrder(st: State, ev: Event, clock: real, delay: real)
    requires Orderly(st, clock) && clock <= ev.clock
    ensures Orderly(Step(st, ev, delay), ev.clock)
  {
    match ev
    case Arrive(now, place) => ArriveKeepsOrder(st, now, place);
    case Draw(now) =>
      if st.buf != [] {
        var k := PrunedTail(st.history, |st.history| - |st.buf|, now - delay);
        hide Prune, Sorted;
        assert |st.history[k..]| == |st.history| - k;
        assert Step(st, ev, delay).buf == st.history[k..];
      }
  }

  /** In any run at all the buffer is a tail of the history. */
  lemma {:induction false} BufferIsATail(events: seq<Event>, delay: real)
    requires ClockRises(events) && events != []
    ensures Orderly(Run(events, delay), events[|events| - 1].clock)
  {
    hide Step, Prune;
    var before, last := events[..|events| - 1], events[|events| - 1];
    if before != [] {
      hide Orderly;
      BufferIsATail(before, delay);
      StepKeepsOrder(Run(before, delay), last, before[|before| - 1].clock, delay);
    } else {
      StepKeepsOrder(Run(before, delay), last, last.clock, delay);
    }
  }

  lemma ArriveKeepsOrder(st: State, clock: real, place: nat)
    requires Sorted(st.history) && forall i :: 0 <= i < |st.history| ==> st.history[i].t <= clock
    requires |st.buf| <= |st.history| && st.buf == st.history[|st.history| - |st.buf|..]
    ensures var h, buf := st.history + [Sample(clock, place)], Push(st.buf, Sample(clock, place));
            Sorted(h) && buf != [] && |buf| <= |h| && buf == h[|h| - |buf|..]
  {
    var h := st.history + [Sample(clock, place)];
    assert st.buf + [Sample(clock, place)] == h[|st.history| - |st.buf|..];
  }

  /** In any run a frame draws what the whole history calls for if and only if the buffer's front
      has been reached, or is the sample the history begins with: nothing has been dropped, or
      nothing but its equals, stamped in the same frame. */
  lemma DrawnExactlyWhenReached(events: seq<Event>, delay: real, target: real)
    requires ClockRises(events) && Run(events, delay).history != []
    ensures var st := Run(events, delay);
            && st.buf != [] && Prune(st.buf, target) != []
            && (Drawn(Prune(st.buf, target), target) == FullPose(st.history, target)
                <==> st.buf[0].t <= target || st.buf[0] == st.history[0])
  {
    BufferIsATail(events, delay);
    var st := Run(events, delay);
    var j := |st.history| - |st.buf|;
    hide Run, Prune, Drawn, FullPose;
    assert st.history[j..][0] == st.history[j];
    if st.history[j].t <= target {
      TailDraws(st.history, j, target);
    } else {
      TailLost(st.history, j, target);
    }
  }

  /** One sample too many: 32 samples newer than the last drawn target push out the one it lies
      behind, and the frame drawn again at that target differs. */
  lemma ThirtyTwoNewerIsTooMany(old32: seq<Sample>, first: Sample, target: real)
    requires |old32| == CAP && Sorted([first] + old32) && first.t < target < old32[0].t
    ensures Newer([first] + old32, target) == CAP
    ensures var buf := Push([first] + old32[..CAP - 1], old32[CAP - 1]);
            Prune(buf, target) != [] && Drawn(Prune(buf, target), target) != FullPose([first] + old32, target)
  {
    var h := [first] + old32;
    var buf := Push([first] + old32[..CAP - 1], old32[CAP - 1]);
    assert [first] + old32[..CAP - 1] + [old32[CAP - 1]] == h;
    assert buf == h[1..];
    NewerBound(h, target);
    assert h[0].t <= target && h[1].t > target;
    TailLost(h, 1, target);
  }
}

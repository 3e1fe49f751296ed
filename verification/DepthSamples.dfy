/**
 What the samples of whole runs mean: an operation's depth reaches from where its inputs are all available to the
 last time anything it used is, whatever was released, returned or left available within it.
 */
module DepthSamples {
  import opened ComplexTimes
  import opened GateSchedule
  import opened DepthCounting
  import opened DepthRuns
  import opened DepthChains

  /** How many operations have started and not ended. */
  function Open(events: seq<Event>): int {
    if events == [] then 0
    else
      Open(events[..|events| - 1])
      + match events[|events| - 1] { case Starting(_) => 1 case Ending(_) => -1 case _ => 0 }
  }

  /** The operation that starts with event `s` is still running before event `k`. */
  ghost predicate RunsUntil(events: seq<Event>, s: nat, k: nat) {
    && s < k <= |events| && events[s].Starting?
    && forall j :: s < j <= k ==> Open(events[..j]) > Open(events[..s])
  }

  /** The operation starts with event `s` and ends with event `e`. */
  ghost predicate Operation(events: seq<Event>, s: nat, e: nat) {
    && e < |events| && events[e].Ending? && RunsUntil(events, s, e) && Open(events[..e]) == Open(events[..s]) + 1
  }

  /** Before event `k` a qubit is available at `time`. */
  ghost predicate AvailableAt(optimize: bool, events: seq<Event>, k: nat, q: nat, time: real) {
    k <= |events| && q < |Run(optimize, events[..k]).ids| && time == TimeIn(optimize, Run(optimize, events[..k]), q)
  }

  predicate Frees(e: Event) { e.Releasing? || e.Returning? }

  /** Event `k` releases or returns a qubit that is available at `time` then. */
  ghost predicate FreedBy(optimize: bool, events: seq<Event>, k: nat, time: real) {
    && k < |events| && Frees(events[k])
    && exists i :: 0 <= i < |events[k].qs| && AvailableAt(optimize, events, k, events[k].qs[i], time)
  }

  /**
   `time` is when something of the operation is available: a qubit released or returned in it or in one within it, at
   that event; or at its end one of its inputs, or of what it gives back.
   */
  ghost predicate TimeOfOperation(optimize: bool, events: seq<Event>, s: nat, e: nat, time: real)
    requires Operation(events, s, e)
  {
    || (exists k :: s < k < e && FreedBy(optimize, events, k, time))
    || (exists i :: 0 <= i < |events[s].qs| && AvailableAt(optimize, events, e, events[s].qs[i], time))
    || (exists i :: 0 <= i < |events[e].qs| && AvailableAt(optimize, events, e, events[e].qs[i], time))
  }

  /** The last of these times, or zero. */
  ghost predicate LastTime(optimize: bool, events: seq<Event>, s: nat, e: nat, end: real)
    requires Operation(events, s, e)
  {
    && (forall time :: TimeOfOperation(optimize, events, s, e, time) ==> time <= end)
    && end >= 0.0 && (end == 0.0 || TimeOfOperation(optimize, events, s, e, end))
  }

  // ---------------------------------------------------------------- what frames gather

  function Gathered(f: Frame, releasing: bool): real { if releasing then f.released else f.returned }

  /** What the frames from `p` on have gathered. */
  function Joined(frames: seq<Frame>, p: nat, releasing: bool): (r: real)
    ensures r >= 0.0
  {
    if |frames| <= p then 0.0
    else Larger(Joined(frames[..|frames| - 1], p, releasing), Gathered(frames[|frames| - 1], releasing))
  }

  predicate Gathers(e: Event, releasing: bool) { if releasing then e.Releasing? else e.Returning? }

  lemma JoinedMore(frames: seq<Frame>, f: Frame, p: nat, releasing: bool)
    requires p <= |frames|
    ensures Joined(frames + [f], p, releasing) == Larger(Joined(frames, p, releasing), Gathered(f, releasing))
  {
    assert (frames + [f])[..|frames|] == frames;
  }

  lemma JoinedTop(frames: seq<Frame>, f: Frame, p: nat, releasing: bool)
    requires p < |frames|
    ensures var n := |frames| - 1;
      && Joined(frames, p, releasing) == Larger(Joined(frames[..n], p, releasing), Gathered(frames[n], releasing))
      && Joined(frames[n := f], p, releasing) == Larger(Joined(frames[..n], p, releasing), Gathered(f, releasing))
  {
    assert frames[|frames| - 1 := f][..|frames| - 1] == frames[..|frames| - 1];
  }

  /** The frame of an operation keeps what was noted at its start. */
  predicate SameStart(f: Frame, g: Frame) { f == g.(released := f.released, returned := f.returned) }

  /** An event gathers the times of what it frees for every operation that is running. */
  lemma JoinedStep(optimize: bool, m: Trace, e: Event, p: nat, releasing: bool)
    requires Shaped(m) && LegalEvent(m, e) && p < |m.frames| && (e.Ending? ==> p < |m.frames| - 1)
    ensures var t := Step(optimize, m, e);
      && p < |t.frames| && SameStart(t.frames[p], m.frames[p])
      && Joined(t.frames, p, releasing)
        == if Gathers(e, releasing) then Larger(Joined(m.frames, p, releasing), LargestOf(TimesIn(optimize, m, e.qs)))
           else Joined(m.frames, p, releasing)
  {
    hide InTime, LargestOf, TimesIn, SmallestOf, Joined, Apply;
    var n := |m.frames| - 1;
    match e
    case Tracing(_) =>
    case Allocating(_) =>
    case Starting(qs) => JoinedMore(m.frames, Start(optimize, m, qs).frames[n + 1], p, releasing);
    case Applying(qs, d) => AppliedFrames(optimize, m, qs, d);
    case Returning(qs) => JoinedTop(m.frames, Return(optimize, m, qs).frames[n], p, releasing);
    case Releasing(qs) => JoinedTop(m.frames, Release(optimize, m, qs).frames[n], p, releasing);
    case Ending(qs) => JoinedEnd(optimize, m, qs, p, releasing);
  }

  /** The caller of an operation that ends takes over what it has gathered. */
  lemma JoinedEnd(optimize: bool, m: Trace, qs: seq<nat>, p: nat, releasing: bool)
    requires Shaped(m) && Known(m, qs) && p < |m.frames| - 1
    ensures var t := End(optimize, m, qs);
      && |t.frames| == |m.frames| - 1 && SameStart(t.frames[p], m.frames[p])
      && Joined(t.frames, p, releasing) == Joined(m.frames, p, releasing)
  {
    hide InTime, LargestOf, TimesIn, Joined;
    var n := |m.frames| - 1;
    var t := End(optimize, m, qs);
    JoinedTop(m.frames, m.frames[n], p, releasing);
    JoinedTop(m.frames[..n], t.frames[n - 1], p, releasing);
    assert m.frames[..n][n - 1 := t.frames[n - 1]] == t.frames;
    assert m.frames[..n][..n - 1] == m.frames[..n - 1];
  }

  lemma AppliedFrames(optimize: bool, m: Trace, qs: seq<nat>, d: real)
    requires Shaped(m) && Known(m, qs) && d >= 0.0
    ensures Apply(optimize, m, qs, d).frames == m.frames
  {
  }

  lemma OpenFrames(optimize: bool, events: seq<Event>)
    requires LegalRun(optimize, events)
    ensures |Run(optimize, events).frames| == 1 + Open(events)
  {
    hide LegalEvent, LegalRun, Shaped, Run, Step;
    if events == [] {
      RunNothing(optimize);
    } else {
      LegalBefore(optimize, events);
      OpenFrames(optimize, events[..|events| - 1]);
      StepFrames(optimize, Run(optimize, events[..|events| - 1]), events[|events| - 1]);
    }
  }

  lemma StepFrames(optimize: bool, m: Trace, e: Event)
    requires Shaped(m) && LegalEvent(m, e)
    ensures |Step(optimize, m, e).frames|
      == |m.frames| + match e { case Starting(_) => 1 case Ending(_) => -1 case _ => 0 }
  {
    hide InTime, LargestOf, TimesIn, SmallestOf;
  }

  // ---------------------------------------------------------------- what an operation gathers

  /** The times of what the events from `i` to before `k` release, or return; the largest, and zero. */
  ghost function Freed(optimize: bool, events: seq<Event>, i: nat, k: nat, releasing: bool): (r: real)
    requires LegalRun(optimize, events) && i <= k <= |events|
    ensures r >= 0.0
    decreases k - i
  {
    hide Shaped, TimesIn, LargestOf;
    if k == i then 0.0
    else
      var before := Freed(optimize, events, i, k - 1, releasing);
      if Gathers(events[k - 1], releasing) then
        KnownAt(optimize, events, k - 1);
        Larger(before, LargestOf(TimesIn(optimize, Run(optimize, events[..k - 1]), events[k - 1].qs)))
      else before
  }

  lemma KnownAt(optimize: bool, events: seq<Event>, k: nat)
    requires LegalRun(optimize, events) && k < |events|
    ensures var (m, e) := (Run(optimize, events[..k]), events[k]);
      Shaped(m) && LegalEvent(m, e) && (!e.Tracing? ==> Known(m, e.qs))
  {
    hide Shaped, Run;
  }

  /** The frame of an operation that runs, and what has been gathered for it. */
  ghost predicate Gathering(optimize: bool, events: seq<Event>, s: nat, k: nat, releasing: bool)
    requires LegalRun(optimize, events) && s < k <= |events|
  {
    var p, frames := |Run(optimize, events[..s]).frames|, Run(optimize, events[..k]).frames;
    && p < |frames| && p < |Run(optimize, events[..s + 1]).frames|
    && SameStart(frames[p], Run(optimize, events[..s + 1]).frames[p])
    && Joined(frames, p, releasing) == Freed(optimize, events, s + 1, k, releasing)
  }

  lemma OperationSoFar(optimize: bool, events: seq<Event>, s: nat, k: nat, releasing: bool)
    requires LegalRun(optimize, events) && RunsUntil(events, s, k)
    ensures Gathering(optimize, events, s, k, releasing)
    decreases k
  {
    hide Shaped, LegalEvent, Run, Step, Freed, Joined, TimesIn, LargestOf, Open, LegalRun, Gathering;
    if k == s + 1 {
      StartsGathering(optimize, events, s, releasing);
    } else {
      OperationSoFar(optimize, events, s, k - 1, releasing);
      StaysAbove(optimize, events, s, k - 1);
      GathersNext(optimize, events, s, k - 1, releasing);
    }
  }

  lemma StartsGathering(optimize: bool, events: seq<Event>, s: nat, releasing: bool)
    requires LegalRun(optimize, events) && s < |events| && events[s].Starting?
    ensures Gathering(optimize, events, s, s + 1, releasing)
  {
    hide Shaped, Run, TimesIn, LargestOf, LegalRun, SmallestOf;
    RunNext(optimize, events, s);
    KnownAt(optimize, events, s);
    var m, t := Run(optimize, events[..s]), Run(optimize, events[..s + 1]);
    JoinedMore(m.frames, t.frames[|m.frames|], |m.frames|, releasing);
  }

  /** While the operation runs its frame is there, and no event ends it. */
  lemma StaysAbove(optimize: bool, events: seq<Event>, s: nat, k: nat)
    requires LegalRun(optimize, events) && k < |events| && RunsUntil(events, s, k + 1) && s < k
    ensures var (m, t) := (Run(optimize, events[..s]), Run(optimize, events[..k]));
      && |m.frames| < |t.frames| && (events[k].Ending? ==> |m.frames| < |t.frames| - 1)
  {
    hide Shaped, LegalEvent, Run, Step, Open, LegalRun;
    LegalPart(optimize, events, s);
    LegalPart(optimize, events, k);
    OpenFrames(optimize, events[..s]);
    OpenFrames(optimize, events[..k]);
    OpenNext(events, k);
    assert Open(events[..k]) > Open(events[..s]) && Open(events[..k + 1]) > Open(events[..s]);
  }

  lemma OpenNext(events: seq<Event>, k: nat)
    requires k < |events|
    ensures Open(events[..k + 1])
      == Open(events[..k]) + match events[k] { case Starting(_) => 1 case Ending(_) => -1 case _ => 0 }
  {
    assert events[..k + 1][..k] == events[..k];
  }

  lemma GathersNext(optimize: bool, events: seq<Event>, s: nat, k: nat, releasing: bool)
    requires LegalRun(optimize, events) && s < k < |events| && Gathering(optimize, events, s, k, releasing)
    requires var (m, t) := (Run(optimize, events[..s]), Run(optimize, events[..k]));
      |m.frames| < |t.frames| && (events[k].Ending? ==> |m.frames| < |t.frames| - 1)
    ensures Gathering(optimize, events, s, k + 1, releasing)
  {
    hide Shaped, LegalEvent, Run, Step, Joined, TimesIn, LargestOf, LegalRun;
    KnownAt(optimize, events, k);
    RunNext(optimize, events, k);
    JoinedStep(optimize, Run(optimize, events[..k]), events[k], |Run(optimize, events[..s]).frames|, releasing);
  }

  lemma LegalPart(optimize: bool, events: seq<Event>, n: nat)
    requires LegalRun(optimize, events) && n <= |events|
    ensures LegalRun(optimize, events[..n])
  {
    hide LegalEvent, Run;
    forall i | 0 <= i < n ensures LegalEvent(Run(optimize, events[..n][..i]), events[..n][i]) {
      assert events[..n][..i] == events[..i];
    }
  }

  lemma {:induction false} LargestIs(times: seq<real>)
    ensures LargestOf(times) == 0.0 || LargestOf(times) in times
  {
    if times != [] {
      var n := |times| - 1;
      LargestIs(times[..n]);
      assert times == times[..n] + [times[n]];
    }
  }

  /** The largest of the times of some qubits, qubit by qubit. */
  lemma LargestAt(optimize: bool, events: seq<Event>, k: nat, qs: seq<nat>)
    requires k <= |events| && Known(Run(optimize, events[..k]), qs)
    ensures var end := LargestOf(TimesIn(optimize, Run(optimize, events[..k]), qs));
      && end >= 0.0
      && (forall i, time :: 0 <= i < |qs| && AvailableAt(optimize, events, k, qs[i], time) ==> time <= end)
      && (end == 0.0 || exists i :: 0 <= i < |qs| && AvailableAt(optimize, events, k, qs[i], end))
  {
    hide Run, Shaped, LargestOf, TimeIn;
    var times := TimesIn(optimize, Run(optimize, events[..k]), qs);
    LargestIs(times);
    assert forall i :: 0 <= i < |qs| ==> times[i] in times;
    if LargestOf(times) != 0.0 {
      var i :| 0 <= i < |times| && times[i] == LargestOf(times);
      assert AvailableAt(optimize, events, k, qs[i], LargestOf(times));
    }
  }

  ghost predicate FreedAt(optimize: bool, events: seq<Event>, k: nat, releasing: bool, time: real) {
    k < |events| && Gathers(events[k], releasing) && FreedBy(optimize, events, k, time)
  }

  lemma {:induction false} FreedIs(optimize: bool, events: seq<Event>, i: nat, k: nat, releasing: bool)
    requires LegalRun(optimize, events) && i <= k <= |events|
    ensures var end := Freed(optimize, events, i, k, releasing);
      && (forall j, time :: i <= j < k && FreedAt(optimize, events, j, releasing, time) ==> time <= end)
      && (end == 0.0 || exists j :: i <= j < k && FreedAt(optimize, events, j, releasing, end))
    decreases k - i
  {
    hide Run, LegalRun, LargestOf, AvailableAt;
    if k > i {
      FreedIs(optimize, events, i, k - 1, releasing);
      if Gathers(events[k - 1], releasing) {
        KnownAt(optimize, events, k - 1);
        LargestAt(optimize, events, k - 1, events[k - 1].qs);
        var last := LargestOf(TimesIn(optimize, Run(optimize, events[..k - 1]), events[k - 1].qs));
        assert last == 0.0 || FreedAt(optimize, events, k - 1, releasing, last);
      }
    }
  }

  // ---------------------------------------------------------------- the samples of a run

  /** How many operations have ended. */
  function Ended(events: seq<Event>): nat {
    if events == [] then 0 else Ended(events[..|events| - 1]) + if events[|events| - 1].Ending? then 1 else 0
  }

  lemma StepSamples(optimize: bool, m: Trace, e: Event)
    requires Shaped(m) && LegalEvent(m, e)
    ensures var t := Step(optimize, m, e);
      m.samples <= t.samples && |t.samples| == |m.samples| + if e.Ending? then 1 else 0
  {
    hide InTime, LargestOf, TimesIn, SmallestOf;
  }

  lemma {:induction false} SamplesKept(optimize: bool, events: seq<Event>, k: nat)
    requires LegalRun(optimize, events) && k <= |events|
    ensures Run(optimize, events[..k]).samples <= Run(optimize, events).samples
    ensures |Run(optimize, events).samples| == Ended(events)
  {
    hide LegalEvent, LegalRun, Shaped, Run, Step;
    assert events[..|events|] == events;
    if events == [] {
      RunNothing(optimize);
    } else {
      var n := |events| - 1;
      LegalBefore(optimize, events);
      StepSamples(optimize, Run(optimize, events[..n]), events[n]);
      SamplesKept(optimize, events[..n], if k < n then k else n);
      assert k <= n ==> events[..n][..k] == events[..k];
      assert events[..n][..n] == events[..n];
    }
  }

  /** When all inputs of the operation that starts with event `s` are available, and when the first is. */
  ghost function Ready(optimize: bool, events: seq<Event>, s: nat): (r: (real, real))
    requires LegalRun(optimize, events) && s < |events| && events[s].Starting?
  {
    hide Shaped, Run;
    KnownAt(optimize, events, s);
    var times := TimesIn(optimize, Run(optimize, events[..s]), events[s].qs);
    (LargestOf(times), SmallestOf(times))
  }

  /** What the frame of an operation says at its end. */
  lemma FrameAtEnd(optimize: bool, events: seq<Event>, s: nat, e: nat)
    requires LegalRun(optimize, events) && Operation(events, s, e)
    ensures var m := Run(optimize, events[..e]);
      var f := m.frames[|m.frames| - 1];
      && |m.frames| > 1 && f.inputs == events[s].qs && (f.latest, f.earliest) == Ready(optimize, events, s)
      && Larger(f.released, 0.0) == Freed(optimize, events, s + 1, e, true)
      && Larger(f.returned, 0.0) == Freed(optimize, events, s + 1, e, false)
  {
    hide LegalEvent, Run, Freed, TimesIn, LargestOf, SmallestOf, Open, LegalRun, Shaped, Joined;
    OperationSoFar(optimize, events, s, e, true);
    OperationSoFar(optimize, events, s, e, false);
    LegalPart(optimize, events, s);
    LegalPart(optimize, events, e);
    OpenFrames(optimize, events[..s]);
    OpenFrames(optimize, events[..e]);
    RunNext(optimize, events, s);
    KnownAt(optimize, events, s);
    var m := Run(optimize, events[..e]);
    HasFrame(Run(optimize, events[..s]));
    assert |m.frames| == |Run(optimize, events[..s]).frames| + 1;
    JoinedLast(m.frames, true);
    JoinedLast(m.frames, false);
  }

  lemma HasFrame(m: Trace)
    requires Shaped(m)
    ensures |m.frames| >= 1
  {
    hide InTime;
  }

  lemma JoinedLast(frames: seq<Frame>, releasing: bool)
    requires frames != []
    ensures Joined(frames, |frames| - 1, releasing) == Larger(Gathered(frames[|frames| - 1], releasing), 0.0)
  {
    assert |frames[..|frames| - 1]| <= |frames| - 1;
  }

  /** The end of an operation, from the four times it is the last of. */
  lemma EndSample(optimize: bool, m: Trace, qs: seq<nat>, returned: real, released: real)
    requires Shaped(m) && Known(m, qs) && |m.frames| > 1
    requires var f := m.frames[|m.frames| - 1];
      Larger(f.returned, 0.0) == returned && Larger(f.released, 0.0) == released
    ensures var f, t := m.frames[|m.frames| - 1], End(optimize, m, qs);
      && f in m.frames && |t.samples| == |m.samples| + 1
      && t.samples[|m.samples|].depth + f.latest
        == Larger(Larger(LargestOf(TimesIn(optimize, m, qs)), returned),
                  Larger(released, LargestOf(TimesIn(optimize, m, f.inputs))))
      && t.samples[|m.samples|].startTimeDifference == f.latest - f.earliest
  {
    hide InTime, TimesIn;
  }

  /** The largest of what is released, returned, an input or given back is the last time of the operation. */
  lemma LastOfFour(optimize: bool, events: seq<Event>, s: nat, e: nat, back: real, returned: real, released: real,
                   inputs: real)
    requires LegalRun(optimize, events) && Operation(events, s, e)
    requires Known(Run(optimize, events[..e]), events[e].qs) && Known(Run(optimize, events[..e]), events[s].qs)
    requires back == LargestOf(TimesIn(optimize, Run(optimize, events[..e]), events[e].qs))
    requires inputs == LargestOf(TimesIn(optimize, Run(optimize, events[..e]), events[s].qs))
    requires released == Freed(optimize, events, s + 1, e, true)
    requires returned == Freed(optimize, events, s + 1, e, false)
    ensures LastTime(optimize, events, s, e, Larger(Larger(back, returned), Larger(released, inputs)))
  {
    hide LegalEvent, Run, Freed, TimesIn, LargestOf, LegalRun, Shaped, AvailableAt;
    FreedIs(optimize, events, s + 1, e, true);
    FreedIs(optimize, events, s + 1, e, false);
    LargestAt(optimize, events, e, events[e].qs);
    LargestAt(optimize, events, e, events[s].qs);
    var end := Larger(Larger(back, returned), Larger(released, inputs));
    forall k, time | s < k < e && FreedBy(optimize, events, k, time) ensures time <= end {
      assert FreedAt(optimize, events, k, events[k].Releasing?, time);
    }
    if end != 0.0 {
      Attained(optimize, events, s, e, end, back, returned, released, inputs);
    }
  }

  /** The last of the four times is a time of the operation. */
  lemma Attained(optimize: bool, events: seq<Event>, s: nat, e: nat, end: real, back: real, returned: real,
                 released: real, inputs: real)
    requires Operation(events, s, e) && end != 0.0
    requires end == back || end == returned || end == released || end == inputs
    requires back == 0.0
      || exists i :: 0 <= i < |events[e].qs| && AvailableAt(optimize, events, e, events[e].qs[i], back)
    requires inputs == 0.0
      || exists i :: 0 <= i < |events[s].qs| && AvailableAt(optimize, events, e, events[s].qs[i], inputs)
    requires released == 0.0 || exists j :: s + 1 <= j < e && FreedAt(optimize, events, j, true, released)
    requires returned == 0.0 || exists j :: s + 1 <= j < e && FreedAt(optimize, events, j, false, returned)
    ensures TimeOfOperation(optimize, events, s, e, end)
  {
    hide AvailableAt;
  }

  /** The sample of the operation has this depth, and the difference between its last input and its first. */
  ghost predicate Reaches(optimize: bool, events: seq<Event>, samples: seq<Sample>, s: nat, e: nat)
    requires LegalRun(optimize, events) && Operation(events, s, e)
  {
    var n := Ended(events[..e]);
    && n < |samples|
    && LastTime(optimize, events, s, e, samples[n].depth + Ready(optimize, events, s).0)
    && samples[n].startTimeDifference == Ready(optimize, events, s).0 - Ready(optimize, events, s).1
  }

  /**
   In every run, in either mode: an operation's sample has the depth from where all its inputs were available to the
   last time anything it used was available, and the difference between its last input and its first.
   */
  lemma SampleReaches(optimize: bool, events: seq<Event>, s: nat, e: nat)
    requires LegalRun(optimize, events) && Operation(events, s, e)
    ensures Reaches(optimize, events, Run(optimize, events).samples, s, e)
  {
    hide Run, Shaped, LegalRun, Freed, Ready, Ended, LastTime, TimesIn, LargestOf, Open, LegalEvent;
    var m := Run(optimize, events[..e]);
    FrameAtEnd(optimize, events, s, e);
    KnownAt(optimize, events, e);
    var returned, released := Freed(optimize, events, s + 1, e, false), Freed(optimize, events, s + 1, e, true);
    EndSample(optimize, m, events[e].qs, returned, released);
    KnownInputs(m, events[s].qs);
    LastOfFour(optimize, events, s, e, LargestOf(TimesIn(optimize, m, events[e].qs)), returned, released,
               LargestOf(TimesIn(optimize, m, events[s].qs)));
    RunNext(optimize, events, e);
    LegalPart(optimize, events, e);
    SamplesKept(optimize, events[..e], e);
    SamplesKept(optimize, events, e + 1);
    assert events[..e][..e] == events[..e];
  }

  lemma KnownInputs(m: Trace, qs: seq<nat>)
    requires Shaped(m) && m.frames[|m.frames| - 1].inputs == qs
    ensures Known(m, qs)
  {
    hide InTime;
    assert m.frames[|m.frames| - 1] in m.frames;
  }

  /**
   A new counter run over the events of a program. Each operation has a sample, whose depth reaches to the last time
   anything it used was available; with depth optimisation, each qubit ends with the heaviest chain of gates on it,
   and its start is explained.
   */
  method CountDepths(optimizeDepth: bool, events: seq<Event>) returns (c: DepthCounter, data: seq<QubitTimeMetrics>)
    requires LegalRun(optimizeDepth, events)
    ensures fresh(c) && c.Valid() && c.optimizeDepth == optimizeDepth
    ensures forall s: nat, e: nat :: Operation(events, s, e) ==> Reaches(optimizeDepth, events, c.stats, s, e)
    ensures optimizeDepth ==> forall q :: 0 <= q < |data| ==> Heaviest(GatesOf(events), q, data[q].endTime)
    ensures optimizeDepth ==> forall q :: 0 <= q < |data| ==>
      Accounted(events, q, Span(data[q].startTime, data[q].endTime))
  {
    hide Run, LegalRun, LegalEvent, Shaped, Heaviest, LastTime, Operation, Accounted, GatesOf, Ended, Ready,
         DepthCounter.Valid, Used, PlacedSpans, Apart;
    c, data := RunEvents(optimizeDepth, events);
    forall s: nat, e: nat | Operation(events, s, e) ensures Reaches(optimizeDepth, events, c.stats, s, e) {
      SampleReaches(optimizeDepth, events, s, e);
    }
    if optimizeDepth {
      EndIsHeaviest(events);
      forall q | 0 <= q < |data| ensures Accounted(events, q, Span(data[q].startTime, data[q].endTime)) {
        StartsExplained(events, q);
      }
    }
  }
}

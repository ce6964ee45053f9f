/** The fixed-window request limiter, one call at a time and over whole traces. */
module RateLimiter {
  const WINDOW_SECONDS := 60.0

  datatype Window = Window(start: real, count: int)

  datatype Answer = Answer(allowed: bool, remaining: int)

  function Clamp(x: int): int { if x >= 0 then x else 0 }

  /** The window a request at `now` is counted in, before it is counted. */
  function Current(windows: map<string, Window>, caller: string, now: real): Window {
    var kept := if caller in windows then windows[caller] else Window(now, 0);
    if now - kept.start >= WINDOW_SECONDS then Window(now, 0) else kept
  }

  function Check(limit: int, windows: map<string, Window>, caller: string, now: real): (map<string, Window>, Answer) {
    if limit <= 0 then (windows, Answer(true, 0))
    else
      var w := Current(windows, caller, now);
      var count := w.count + 1;
      (windows[caller := Window(w.start, count)], Answer(count <= limit, Clamp(limit - count)))
  }

  class Limiter {
    const limit: int
    var windows: map<string, Window>

    constructor (limit: int)
      ensures this.limit == limit && windows == map[]
    {
      this.limit := limit;
      windows := map[];
    }

    method CheckRequest(caller: string, now: real) returns (answer: Answer)
      modifies this
      ensures (windows, answer) == Check(limit, old(windows), caller, now)
    {
      if limit <= 0 {
        return Answer(true, 0);
      }
      var start, count := now, 0;
      if caller in windows {
        start, count := windows[caller].start, windows[caller].count;
      }
      if now - start >= WINDOW_SECONDS {
        start, count := now, 0;
      }
      count := count + 1;
      windows := windows[caller := Window(start, count)];
      return Answer(count <= limit, if limit - count >= 0 then limit - count else 0);
    }
  }

  // Traces: requests in order, answered from an empty table.

  datatype Request = Request(caller: string, time: real)

  function TableAfter(limit: int, trace: seq<Request>): map<string, Window> {
    if trace == [] then map[]
    else Check(limit, TableAfter(limit, trace[..|trace| - 1]), trace[|trace| - 1].caller, trace[|trace| - 1].time).0
  }

  function AnswerTo(limit: int, trace: seq<Request>): Answer
    requires trace != []
  {
    Check(limit, TableAfter(limit, trace[..|trace| - 1]), trace[|trace| - 1].caller, trace[|trace| - 1].time).1
  }

  predicate Chronological(trace: seq<Request>) {
    forall i, j | 0 <= i < j < |trace| :: trace[i].time <= trace[j].time
  }

  // Callers do not see each other.

  function Own(trace: seq<Request>, caller: string): seq<Request> {
    if trace == [] then []
    else
      Own(trace[..|trace| - 1], caller) + if trace[|trace| - 1].caller == caller then [trace[|trace| - 1]] else []
  }

  predicate SameEntry(t: map<string, Window>, u: map<string, Window>, caller: string) {
    (caller in t <==> caller in u) && (caller in t ==> t[caller] == u[caller])
  }

  lemma {:induction false} OwnEntry(limit: int, trace: seq<Request>, caller: string)
    ensures SameEntry(TableAfter(limit, trace), TableAfter(limit, Own(trace, caller)), caller)
  {
    if trace != [] {
      var front, last := trace[..|trace| - 1], trace[|trace| - 1];
      OwnEntry(limit, front, caller);
      if last.caller == caller {
        assert Own(trace, caller)[..|Own(trace, caller)| - 1] == Own(front, caller);
      } else {
        assert Own(trace, caller) == Own(front, caller);
      }
    }
  }

  /** Main result: a caller gets the answers it would get if it were alone. */
  lemma CallersIndependent(limit: int, trace: seq<Request>)
    requires trace != []
    ensures var mine := Own(trace, trace[|trace| - 1].caller);
            mine != [] && AnswerTo(limit, trace) == AnswerTo(limit, mine)
  {
    var front, last := trace[..|trace| - 1], trace[|trace| - 1];
    OwnEntry(limit, front, last.caller);
    var mine := Own(trace, last.caller);
    assert mine[..|mine| - 1] == Own(front, last.caller);
  }

  // How many requests of one caller are allowed, in a half-open interval of times.

  predicate Inside(time: real, from: real, to: real) { from <= time < to }

  function AllowedIn(limit: int, trace: seq<Request>, caller: string, from: real, to: real): (n: int)
    ensures n >= 0
  {
    if trace == [] then 0
    else
      var last := trace[|trace| - 1];
      AllowedIn(limit, trace[..|trace| - 1], caller, from, to)
      + if last.caller == caller && Inside(last.time, from, to) && AnswerTo(limit, trace).allowed then 1 else 0
  }

  function Least(x: int, y: int): int { if x <= y then x else y }

  // What the latest window of a caller says about everything allowed so far. `granted` counts the window's own.

  predicate StartsCounting(limit: int, trace: seq<Request>, caller: string, w: Window, from: real, to: real) {
    && (from >= w.start ==> AllowedIn(limit, trace, caller, from, to) <= Least(w.count, limit))
    && (from > w.start ==> AllowedIn(limit, trace, caller, from, to) <= Least(w.count, limit) - 1)
    && (from >= w.start + WINDOW_SECONDS ==> AllowedIn(limit, trace, caller, from, to) == 0)
  }

  predicate Slides(limit: int, trace: seq<Request>, caller: string, w: Window, from: real, to: real) {
    to - from <= WINDOW_SECONDS ==>
      && (from > w.start - WINDOW_SECONDS ==>
        AllowedIn(limit, trace, caller, from, to) <= limit - 1 + Least(w.count, limit))
      && AllowedIn(limit, trace, caller, from, to) <= 2 * limit - 1
  }

  ghost predicate Accounted(limit: int, trace: seq<Request>, caller: string) {
    var table := TableAfter(limit, trace);
    if caller !in table then forall from: real, to: real :: AllowedIn(limit, trace, caller, from, to) == 0
    else
      var w := table[caller];
      && w.count >= 1
      && trace != [] && w.start <= trace[|trace| - 1].time
      && (forall from: real, to: real :: StartsCounting(limit, trace, caller, w, from, to))
      && (forall from: real, to: real :: Slides(limit, trace, caller, w, from, to))
  }

  lemma OtherCallerStep(limit: int, trace: seq<Request>, caller: string)
    requires limit > 0 && trace != [] && Chronological(trace) && trace[|trace| - 1].caller != caller
    requires Accounted(limit, trace[..|trace| - 1], caller)
    ensures Accounted(limit, trace, caller)
  {
    var front := trace[..|trace| - 1];
    assert SameEntry(TableAfter(limit, front), TableAfter(limit, trace), caller);
    forall from: real, to: real
      ensures AllowedIn(limit, trace, caller, from, to) == AllowedIn(limit, front, caller, from, to)
    {
    }
    if caller in TableAfter(limit, trace) {
      var w := TableAfter(limit, trace)[caller];
      forall from: real, to: real
        ensures StartsCounting(limit, trace, caller, w, from, to) && Slides(limit, trace, caller, w, from, to)
      {
        assert StartsCounting(limit, front, caller, w, from, to) && Slides(limit, front, caller, w, from, to);
      }
    }
  }

  lemma FirstStep(limit: int, trace: seq<Request>)
    requires limit > 0 && trace != [] && Chronological(trace)
    requires trace[|trace| - 1].caller !in TableAfter(limit, trace[..|trace| - 1])
    requires Accounted(limit, trace[..|trace| - 1], trace[|trace| - 1].caller)
    ensures Accounted(limit, trace, trace[|trace| - 1].caller)
  {
    var caller := trace[|trace| - 1].caller;
    var w := TableAfter(limit, trace)[caller];
    forall from: real, to: real
      ensures StartsCounting(limit, trace, caller, w, from, to) && Slides(limit, trace, caller, w, from, to)
    {
      assert AllowedIn(limit, trace[..|trace| - 1], caller, from, to) == 0;
    }
  }

  lemma SameWindowStep(limit: int, trace: seq<Request>)
    requires limit > 0 && trace != [] && Chronological(trace)
    requires Accounted(limit, trace[..|trace| - 1], trace[|trace| - 1].caller)
    requires var last := trace[|trace| - 1];
             var table := TableAfter(limit, trace[..|trace| - 1]);
             last.caller in table && last.time - table[last.caller].start < WINDOW_SECONDS
    ensures Accounted(limit, trace, trace[|trace| - 1].caller)
  {
    var front, caller := trace[..|trace| - 1], trace[|trace| - 1].caller;
    var v, w := TableAfter(limit, front)[caller], TableAfter(limit, trace)[caller];
    forall from: real, to: real
      ensures StartsCounting(limit, trace, caller, w, from, to) && Slides(limit, trace, caller, w, from, to)
    {
      assert StartsCounting(limit, front, caller, v, from, to) && Slides(limit, front, caller, v, from, to);
    }
  }

  lemma NewWindowStep(limit: int, trace: seq<Request>)
    requires limit > 0 && trace != [] && Chronological(trace)
    requires Accounted(limit, trace[..|trace| - 1], trace[|trace| - 1].caller)
    requires var last := trace[|trace| - 1];
             var table := TableAfter(limit, trace[..|trace| - 1]);
             last.caller in table && last.time - table[last.caller].start >= WINDOW_SECONDS
    ensures Accounted(limit, trace, trace[|trace| - 1].caller)
  {
    var front, caller := trace[..|trace| - 1], trace[|trace| - 1].caller;
    var v, w := TableAfter(limit, front)[caller], TableAfter(limit, trace)[caller];
    forall from: real, to: real
      ensures StartsCounting(limit, trace, caller, w, from, to) && Slides(limit, trace, caller, w, from, to)
    {
      assert StartsCounting(limit, front, caller, v, from, to) && Slides(limit, front, caller, v, from, to);
    }
  }

  lemma {:induction false} AlwaysAccounted(limit: int, trace: seq<Request>, caller: string)
    requires limit > 0 && Chronological(trace)
    ensures Accounted(limit, trace, caller)
  {
    if trace != [] {
      var front, last := trace[..|trace| - 1], trace[|trace| - 1];
      AlwaysAccounted(limit, front, caller);
      if last.caller != caller {
        OtherCallerStep(limit, trace, caller);
      } else if caller !in TableAfter(limit, front) {
        FirstStep(limit, trace);
      } else if last.time - TableAfter(limit, front)[caller].start < WINDOW_SECONDS {
        SameWindowStep(limit, trace);
      } else {
        NewWindowStep(limit, trace);
      }
    }
  }

  /**
   * Main result: a window of one minute, wherever it is placed, holds at most 2 * limit - 1 allowed
   * requests of a caller, and the fixed window in force holds at most limit.
   */
  lemma AnyMinuteIsBounded(limit: int, trace: seq<Request>, caller: string, from: real, to: real)
    requires limit > 0 && Chronological(trace) && to - from <= WINDOW_SECONDS
    ensures AllowedIn(limit, trace, caller, from, to) <= 2 * limit - 1
    ensures var table := TableAfter(limit, trace);
            caller in table ==>
              AllowedIn(limit, trace, caller, table[caller].start, table[caller].start + WINDOW_SECONDS) <= limit
  {
    AlwaysAccounted(limit, trace, caller);
    var table := TableAfter(limit, trace);
    if caller in table {
      var w := table[caller];
      assert Slides(limit, trace, caller, w, from, to);
      assert StartsCounting(limit, trace, caller, w, w.start, w.start + WINDOW_SECONDS);
    }
  }

  /** The caller's requests from place `first` of the trace on. */
  function CallsFrom(trace: seq<Request>, caller: string, first: nat): nat {
    if |trace| <= first then 0
    else
      CallsFrom(trace[..|trace| - 1], caller, first) + if trace[|trace| - 1].caller == caller then 1 else 0
  }

  /** The window opened with the request at `first`, counts every one of the caller's since, and is under a minute
   * old.
   */
  predicate OpenedAt(trace: seq<Request>, caller: string, w: Window, first: nat) {
    && first < |trace| && trace[first] == Request(caller, w.start)
    && w.count == CallsFrom(trace, caller, first)
    && forall i | first <= i < |trace| && trace[i].caller == caller :: w.start <= trace[i].time < w.start + 60.0
  }

  /** Every window in the table opened with one of its caller's requests and counts all since. */
  lemma {:induction false} WindowsCount(limit: int, trace: seq<Request>, caller: string) returns (first: nat)
    requires limit > 0 && Chronological(trace)
    ensures caller in TableAfter(limit, trace) ==> OpenedAt(trace, caller, TableAfter(limit, trace)[caller], first)
    ensures caller !in TableAfter(limit, trace) ==> CallsFrom(trace, caller, 0) == 0
  {
    first := 0;
    if trace != [] {
      var front, last := trace[..|trace| - 1], trace[|trace| - 1];
      first := WindowsCount(limit, front, caller);
      var table := TableAfter(limit, front);
      if last.caller == caller && (caller !in table || last.time - table[caller].start >= WINDOW_SECONDS) {
        first := |front|;
        assert CallsFrom(front, caller, first) == 0;
      }
    }
  }

  /**
   * Main result: a request is allowed exactly when it is among the first `limit` of its caller's window, and is
   * told how
   * many more that window will take.
   */
  lemma AnswersCountWindow(limit: int, trace: seq<Request>) returns (first: nat)
    requires limit > 0 && Chronological(trace) && trace != []
    ensures var caller, answer := trace[|trace| - 1].caller, AnswerTo(limit, trace);
            && caller in TableAfter(limit, trace)
            && OpenedAt(trace, caller, TableAfter(limit, trace)[caller], first)
            && (answer.allowed <==> CallsFrom(trace, caller, first) <= limit)
            && answer.remaining ==
              (if CallsFrom(trace, caller, first) < limit then limit - CallsFrom(trace, caller, first) else 0)
  {
    first := WindowsCount(limit, trace, trace[|trace| - 1].caller);
  }

  /** Without a limit everything is allowed and nothing is counted. */
  lemma NoLimitAllowsAll(limit: int, trace: seq<Request>)
    requires limit <= 0 && trace != []
    ensures AnswerTo(limit, trace).allowed && TableAfter(limit, trace) == map[]
  {
  }

  // The bound is reached, at every limit.

  /** One request opens a window; all but one of the rest arrive just before it ends, and a full window's worth
   * right after.
   */
  function Late(n: nat): seq<Request> {
    [Request("a", 0.0)] + seq(n, i requires 0 <= i < n => Request("a", 59.0))
  }

  function Burst(limit: nat, n: nat): seq<Request>
    requires limit > 0
  {
    Late(limit - 1) + seq(n, i requires 0 <= i < n => Request("a", 60.0))
  }

  lemma Snoc(limit: int, trace: seq<Request>, last: Request, from: real, to: real)
    ensures var all := trace + [last];
            && TableAfter(limit, all) == Check(limit, TableAfter(limit, trace), last.caller, last.time).0
            && AllowedIn(limit, all, last.caller, from, to) ==
               AllowedIn(limit, trace, last.caller, from, to)
               + if Inside(last.time, from, to)
                 && Check(limit, TableAfter(limit, trace), last.caller, last.time).1.allowed then 1 else 0
  {
    assert (trace + [last])[..|trace|] == trace;
  }

  lemma NothingAllowed(limit: int)
    ensures AllowedIn(limit, [], "a", 59.0, 119.0) == 0
  {
  }

  lemma {:induction false} LateCounts(limit: nat, n: nat)
    requires n < limit
    ensures TableAfter(limit, Late(n)) == map["a" := Window(0.0, n + 1)]
    ensures AllowedIn(limit, Late(n), "a", 59.0, 119.0) == n
  {
    hide AllowedIn;
    if n == 0 {
      NothingAllowed(limit);
      assert Late(0) == [] + [Request("a", 0.0)];
      Snoc(limit, [], Request("a", 0.0), 59.0, 119.0);
    } else {
      LateCounts(limit, n - 1);
      assert Late(n) == Late(n - 1) + [Request("a", 59.0)];
      Snoc(limit, Late(n - 1), Request("a", 59.0), 59.0, 119.0);
    }
  }

  lemma {:induction false} BurstCounts(limit: nat, n: nat)
    requires 0 < n <= limit
    ensures TableAfter(limit, Burst(limit, n)) == map["a" := Window(60.0, n)]
    ensures AllowedIn(limit, Burst(limit, n), "a", 59.0, 119.0) == limit - 1 + n
  {
    hide AllowedIn;
    assert Burst(limit, n) == Burst(limit, n - 1) + [Request("a", 60.0)];
    Snoc(limit, Burst(limit, n - 1), Request("a", 60.0), 59.0, 119.0);
    if n == 1 {
      assert Burst(limit, 0) == Late(limit - 1);
      LateCounts(limit, limit - 1);
    } else {
      BurstCounts(limit, n - 1);
    }
  }

  lemma BurstChronological(limit: nat, n: nat)
    requires limit > 0
    ensures Chronological(Burst(limit, n))
  {
  }

  /** Whatever the limit, some caller gets 2 * limit - 1 requests through within one minute across a boundary. */
  lemma BurstReachesBound(limit: nat)
    requires limit > 0
    ensures Chronological(Burst(limit, limit))
            && AllowedIn(limit, Burst(limit, limit), "a", 59.0, 119.0) == 2 * limit - 1
  {
    BurstChronological(limit, limit);
    BurstCounts(limit, limit);
  }

  /** At most `limit` allowed requests in any minute of any trace. */
  ghost predicate HoldsInAnyMinute(limit: int) {
    forall trace, caller, from, to | Chronological(trace) && to - from <= WINDOW_SECONDS ::
      AllowedIn(limit, trace, caller, from, to) <= limit
  }

  /** So the limit holds in every sliding minute only when it is one request. */
  lemma HoldsInAnyMinuteExactlyAtOne(limit: nat)
    requires limit > 0
    ensures HoldsInAnyMinute(limit) <==> limit == 1
  {
    if limit == 1 {
      forall trace, caller, from, to | Chronological(trace) && to - from <= WINDOW_SECONDS
        ensures AllowedIn(limit, trace, caller, from, to) <= limit
      {
        AnyMinuteIsBounded(limit, trace, caller, from, to);
      }
    } else {
      BurstReachesBound(limit);
      assert AllowedIn(limit, Burst(limit, limit), "a", 59.0, 119.0) > limit;
    }
  }
}

/** The status checks: one check per enabled job, then the retry loop that
    sleeps and re-checks every enabled job that is not yet retrieved. */
module Polling {
  import opened Wrappers
  import opened Remote
  import opened Retry

  /** One job as the polling phase sees it: whether it runs (`get_hist`,
      `get_data`), the response id its checks carry, and the oracle's
      answers, `codes[r]` being the answer to its check in round `r`. */
  datatype Tracked = Tracked(get: bool, responseId: string, codes: seq<int32>)

  /** The oracle eventually answers something other than `na`. */
  ghost predicate EventuallyReady(codes: seq<int32>, na: int32) {
    exists i :: 0 <= i < |codes| && codes[i] != na
  }

  /** The premise under which the loop ends: every enabled job is
      eventually answered with a code other than DATA_NOT_AVAILABLE. */
  ghost predicate Feasible(t: Tracked, na: int32) {
    t.get ==> EventuallyReady(t.codes, na)
  }

  /** The first round whose answer is not `na`. */
  ghost function FirstReady(codes: seq<int32>, na: int32): (k: nat)
    requires EventuallyReady(codes, na)
    ensures k < |codes| && codes[k] != na
    ensures forall j :: 0 <= j < k ==> codes[j] == na
  {
    if codes[0] != na then 0
    else
      assert EventuallyReady(codes[1..], na) by {
        var i :| 0 <= i < |codes| && codes[i] != na;
        assert codes[1..][i - 1] != na;
      }
      1 + FirstReady(codes[1..], na)
  }

  /** What the loop needs to know of a job: whether it runs, its response
      id, and the round whose check retrieves it (0 for a disabled job). */
  datatype Schedule = Schedule(get: bool, responseId: string, ready: nat)

  ghost function ScheduleOf(t: Tracked, na: int32): (s: Schedule)
    requires Feasible(t, na)
    ensures s.get == t.get && s.responseId == t.responseId
    ensures t.get ==> s.ready < |t.codes| && t.codes[s.ready] != na
    ensures t.get ==> forall j :: 0 <= j < s.ready ==> t.codes[j] == na
    ensures !t.get ==> s.ready == 0
  {
    Schedule(t.get, t.responseId, if t.get then FirstReady(t.codes, na) else 0)
  }

  /** Up to its ready round, an enabled job's answer is DATA_NOT_AVAILABLE
      exactly before that round. */
  lemma AnsweredIn(t: Tracked, na: int32, r: nat)
    requires Feasible(t, na) && t.get && r <= ScheduleOf(t, na).ready
    ensures t.codes[r] != na <==> r == ScheduleOf(t, na).ready
  {
  }

  /** The number of retry rounds: the later of the two ready rounds. */
  function Rounds(hs: Schedule, ds: Schedule): nat {
    if hs.ready < ds.ready then ds.ready else hs.ready
  }

  /** A job is checked in round `r` when it runs and was not retrieved before. */
  predicate CheckedIn(s: Schedule, r: nat) {
    s.get && r <= s.ready
  }

  /** The calls of round `r`: one wait unless it is the first check, then a
      check of each job still pending, history before data. */
  function RoundCalls(hs: Schedule, ds: Schedule, millis: int, r: nat): seq<Call> {
    (if r == 0 then [] else [Wait(millis)])
    + (if CheckedIn(hs, r) then [CheckHistory(hs.responseId)] else [])
    + (if CheckedIn(ds, r) then [CheckData(ds.responseId)] else [])
  }

  /** The calls of the first check and of `n` retry rounds. */
  function PollTrace(hs: Schedule, ds: Schedule, millis: int, n: nat): seq<Call> {
    if n == 0 then RoundCalls(hs, ds, millis, 0)
    else PollTrace(hs, ds, millis, n - 1) + RoundCalls(hs, ds, millis, n)
  }

  function Min(a: nat, b: nat): nat { if a < b then a else b }

  /** How often `c` occurs in `t`. */
  function Count(t: seq<Call>, c: Call): nat {
    if t == [] then 0 else (if t[0] == c then 1 else 0) + Count(t[1..], c)
  }

  lemma {:induction false} CountAppend(a: seq<Call>, b: seq<Call>, c: Call)
    ensures Count(a + b, c) == Count(a, c) + Count(b, c)
  {
    if a == [] {
      assert a + b == b;
    } else {
      CountAppend(a[1..], b, c);
      assert (a + b)[0] == a[0];
      assert (a + b)[1..] == a[1..] + b;
    }
  }

  lemma {:induction false} CountAbsent(t: seq<Call>, c: Call)
    requires c !in t
    ensures Count(t, c) == 0
  {
    if t != [] {
      assert t[0] != c && c !in t[1..];
      CountAbsent(t[1..], c);
    }
  }

  lemma CountAtMostOne(t: seq<Call>, c: Call)
    requires |t| <= 1
    ensures Count(t, c) == if t == [c] then 1 else 0
  {
    if t != [] {
      assert t[1..] == [];
    }
  }

  /** How often `c` occurs among the calls of round `r`. */
  lemma RoundCallsCount(hs: Schedule, ds: Schedule, millis: int, r: nat, c: Call)
    ensures Count(RoundCalls(hs, ds, millis, r), c) ==
      (if r != 0 && c == Wait(millis) then 1 else 0)
      + (if CheckedIn(hs, r) && c == CheckHistory(hs.responseId) then 1 else 0)
      + (if CheckedIn(ds, r) && c == CheckData(ds.responseId) then 1 else 0)
  {
    var w := if r == 0 then [] else [Wait(millis)];
    var hc := if CheckedIn(hs, r) then [CheckHistory(hs.responseId)] else [];
    var dc := if CheckedIn(ds, r) then [CheckData(ds.responseId)] else [];
    assert RoundCalls(hs, ds, millis, r) == w + hc + dc;
    CountAppend(w + hc, dc, c);
    CountAppend(w, hc, c);
    CountAtMostOne(w, c);
    CountAtMostOne(hc, c);
    CountAtMostOne(dc, c);
  }

  /** The calls of one round: a check of each job still pending, with its
      own id, and one wait unless it is the first check. */
  lemma RoundCallsCounts(hs: Schedule, ds: Schedule, millis: int, r: nat)
    ensures Count(RoundCalls(hs, ds, millis, r), CheckHistory(hs.responseId)) ==
      if CheckedIn(hs, r) then 1 else 0
    ensures Count(RoundCalls(hs, ds, millis, r), CheckData(ds.responseId)) ==
      if CheckedIn(ds, r) then 1 else 0
    ensures Count(RoundCalls(hs, ds, millis, r), Wait(millis)) == if r == 0 then 0 else 1
  {
    RoundCallsCount(hs, ds, millis, r, CheckHistory(hs.responseId));
    RoundCallsCount(hs, ds, millis, r, CheckData(ds.responseId));
    RoundCallsCount(hs, ds, millis, r, Wait(millis));
  }

  /** How many checks of each job and how many waits `n` rounds make. */
  ghost predicate CountsAfter(t: seq<Call>, hs: Schedule, ds: Schedule, millis: int, n: nat) {
    && Count(t, CheckHistory(hs.responseId)) == (if hs.get then Min(n, hs.ready) + 1 else 0)
    && Count(t, CheckData(ds.responseId)) == (if ds.get then Min(n, ds.ready) + 1 else 0)
    && Count(t, Wait(millis)) == n
  }

  /** One retry round keeps the counts in step with the round number. */
  lemma CountsStep(prev: seq<Call>, hs: Schedule, ds: Schedule, millis: int, n: nat)
    requires n > 0 && CountsAfter(prev, hs, ds, millis, n - 1)
    ensures CountsAfter(prev + RoundCalls(hs, ds, millis, n), hs, ds, millis, n)
  {
    var round := RoundCalls(hs, ds, millis, n);
    RoundCallsCounts(hs, ds, millis, n);
    CountAppend(prev, round, CheckHistory(hs.responseId));
    CountAppend(prev, round, CheckData(ds.responseId));
    CountAppend(prev, round, Wait(millis));
  }

  /** After `n` rounds an enabled job has been checked once per round up to
      the round that retrieved it and never again, a disabled job never, and
      there have been exactly `n` waits. */
  lemma {:induction false} PollTraceCounts(hs: Schedule, ds: Schedule, millis: int, n: nat)
    ensures CountsAfter(PollTrace(hs, ds, millis, n), hs, ds, millis, n)
  {
    if n == 0 {
      RoundCallsCounts(hs, ds, millis, 0);
    } else {
      PollTraceCounts(hs, ds, millis, n - 1);
      CountsStep(PollTrace(hs, ds, millis, n - 1), hs, ds, millis, n);
    }
  }

  /** The polling calls are nothing but waits and checks carrying each job's
      own response id. */
  lemma {:induction false} PollTraceCalls(hs: Schedule, ds: Schedule, millis: int, n: nat)
    ensures forall c :: c in PollTrace(hs, ds, millis, n) ==>
      (hs.get && c == CheckHistory(hs.responseId)) ||
      (ds.get && c == CheckData(ds.responseId)) ||
      c == Wait(millis)
  {
    if n > 0 {
      PollTraceCalls(hs, ds, millis, n - 1);
      var prev, round := PollTrace(hs, ds, millis, n - 1), RoundCalls(hs, ds, millis, n);
      forall c | c in PollTrace(hs, ds, millis, n)
        ensures (hs.get && c == CheckHistory(hs.responseId)) ||
          (ds.get && c == CheckData(ds.responseId)) ||
          c == Wait(millis)
      {
        assert c in prev || c in round;
      }
    }
  }

  /** When the first check already retrieves every enabled job, no retry
      round runs. */
  lemma NoRoundsWhenFirstCheckRetrieves(h: Tracked, d: Tracked, na: int32)
    requires Feasible(h, na) && Feasible(d, na)
    requires h.get ==> h.codes[0] != na
    requires d.get ==> d.codes[0] != na
    ensures Rounds(ScheduleOf(h, na), ScheduleOf(d, na)) == 0
  {
    if h.get { assert FirstReady(h.codes, na) == 0; }
    if d.get { assert FirstReady(d.codes, na) == 0; }
  }

  /** The polling calls of `n` rounds, followed by the sleep of round `n + 1`
      when that sleep is interrupted. */
  function PolledCalls(hs: Schedule, ds: Schedule, millis: int, n: nat, interrupted: bool): seq<Call> {
    if interrupted then PollTrace(hs, ds, millis, n) + [Wait(millis)] else PollTrace(hs, ds, millis, n)
  }

  /** The first attempt among `1..bound` whose sleep is interrupted. */
  ghost function FirstInterrupt(interrupts: set<nat>, bound: nat): (k: nat)
    requires exists k :: 1 <= k <= bound && k in interrupts
    ensures 1 <= k <= bound && k in interrupts
    ensures forall j :: 1 <= j < k ==> j !in interrupts
  {
    if exists k :: 1 <= k < bound && k in interrupts then FirstInterrupt(interrupts, bound - 1)
    else bound
  }

  datatype PollResult =
    | Completed(historyLast: Option<int32>, dataLast: Option<int32>, attempts: nat, calls: seq<Call>)
    | Interrupted(attempt: nat, calls: seq<Call>)

  /** The first status check of every enabled job, then the loop: while an
      enabled job is not retrieved, count an attempt, wait, and re-check the
      enabled jobs not yet retrieved. */
  method Poll(h: Tracked, d: Tracked, na: int32, retryWait: int32, interrupts: set<nat>)
    returns (p: PollResult)
    requires Feasible(h, na) && Feasible(d, na)
    ensures var rounds := Rounds(ScheduleOf(h, na), ScheduleOf(d, na));
      p.Completed? <==> forall k :: 1 <= k <= rounds ==> k !in interrupts
    ensures p.Completed? ==> p.attempts == Rounds(ScheduleOf(h, na), ScheduleOf(d, na))
    ensures p.Completed? ==>
      p.calls == PollTrace(ScheduleOf(h, na), ScheduleOf(d, na), SleepMillis(retryWait), p.attempts)
    ensures p.Completed? ==>
      p.historyLast == if h.get then Some(h.codes[ScheduleOf(h, na).ready]) else None
    ensures p.Completed? ==>
      p.dataLast == if d.get then Some(d.codes[ScheduleOf(d, na).ready]) else None
    ensures p.Completed? && h.get ==> p.historyLast.value != na
    ensures p.Completed? && d.get ==> p.dataLast.value != na
    ensures p.Interrupted? ==>
      p.attempt == FirstInterrupt(interrupts, Rounds(ScheduleOf(h, na), ScheduleOf(d, na))) &&
      p.calls == PollTrace(ScheduleOf(h, na), ScheduleOf(d, na), SleepMillis(retryWait), p.attempt - 1)
                 + [Wait(SleepMillis(retryWait))]
  {
    ghost var hs, ds := ScheduleOf(h, na), ScheduleOf(d, na);
    var millis := SleepMillis(retryWait);
    var calls: seq<Call> := [];
    var historyLast: Option<int32> := None;
    var dataLast: Option<int32> := None;
    var historyRetrieved, dataRetrieved := false, false;
    if h.get {
      AnsweredIn(h, na, 0);
      calls := calls + [CheckHistory(h.responseId)];
      historyLast := Some(h.codes[0]);
      historyRetrieved := h.codes[0] != na;
    }
    if d.get {
      AnsweredIn(d, na, 0);
      calls := calls + [CheckData(d.responseId)];
      dataLast := Some(d.codes[0]);
      dataRetrieved := d.codes[0] != na;
    }
    assert calls == RoundCalls(hs, ds, millis, 0);

    var retryAttempt: nat := 0;
    while (h.get && !historyRetrieved) || (d.get && !dataRetrieved)
      invariant retryAttempt <= Rounds(hs, ds)
      invariant historyRetrieved <==> h.get && hs.ready <= retryAttempt
      invariant dataRetrieved <==> d.get && ds.ready <= retryAttempt
      invariant historyLast == if h.get then Some(h.codes[Min(retryAttempt, hs.ready)]) else None
      invariant dataLast == if d.get then Some(d.codes[Min(retryAttempt, ds.ready)]) else None
      invariant calls == PollTrace(hs, ds, millis, retryAttempt)
      invariant forall k :: 1 <= k <= retryAttempt ==> k !in interrupts
      decreases Rounds(hs, ds) - retryAttempt
    {
      retryAttempt := retryAttempt + 1;
      var round := [Wait(millis)];
      if retryAttempt in interrupts {
        return Interrupted(retryAttempt, calls + round);
      }
      if h.get && !historyRetrieved {
        AnsweredIn(h, na, retryAttempt);
        round := round + [CheckHistory(h.responseId)];
        historyLast := Some(h.codes[retryAttempt]);
        historyRetrieved := h.codes[retryAttempt] != na;
      }
      if d.get && !dataRetrieved {
        AnsweredIn(d, na, retryAttempt);
        round := round + [CheckData(d.responseId)];
        dataLast := Some(d.codes[retryAttempt]);
        dataRetrieved := d.codes[retryAttempt] != na;
      }
      assert round == RoundCalls(hs, ds, millis, retryAttempt);
      calls := calls + round;
    }
    p := Completed(historyLast, dataLast, retryAttempt, calls);
  }
}

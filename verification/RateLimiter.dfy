/** The sliding-window limiter, against the full history of its answers. */
module RateLimiter {

  /** One answered call. */
  datatype Answer = Answer(key: string, time: real, allowed: bool)

  /** Stored hits, and the history they are a pruning of. */
  datatype State = State(hits: map<string, seq<real>>, log: seq<Answer>)

  datatype Call = Call(key: string, time: real)

  function HitsOf(hits: map<string, seq<real>>, key: string): seq<real> {
    if key in hits then hits[key] else []
  }

  function Since(times: seq<real>, start: real): seq<real> {
    if times == [] then []
    else (if times[0] >= start then [times[0]] else []) + Since(times[1..], start)
  }

  function Step(s: State, limit: int, call: Call): State {
    var kept := Since(HitsOf(s.hits, call.key), call.time - 60.0);
    var allowed := |kept| < limit;
    State(s.hits[call.key := if allowed then kept + [call.time] else kept], s.log + [Answer(call.key, call.time, allowed)])
  }

  function Run(limit: int, calls: seq<Call>): State {
    if calls == [] then State(map[], []) else Step(Run(limit, calls[..|calls| - 1]), limit, calls[|calls| - 1])
  }

  /** Allowed times of one key within a closed window, from the whole history. */
  function Allowed(log: seq<Answer>, key: string, start: real, end: real): seq<real> {
    if log == [] then []
    else
      var last := log[|log| - 1];
      Allowed(log[..|log| - 1], key, start, end)
      + (if last.key == key && last.allowed && start <= last.time <= end then [last.time] else [])
  }

  predicate Nondecreasing(calls: seq<Call>) {
    forall i, j :: 0 <= i < j < |calls| ==> calls[i].time <= calls[j].time
  }

  predicate NotAfter(log: seq<Answer>, now: real) {
    forall i :: 0 <= i < |log| ==> log[i].time <= now
  }

  /** The stored list is the key's allowed times from `start` on. */
  predicate HoldsSince(s: State, key: string, start: real, now: real) {
    HitsOf(s.hits, key) == Allowed(s.log, key, start, now)
  }

  ghost predicate PrunesKey(s: State, key: string, now: real) {
    exists start :: start <= now - 60.0 && HoldsSince(s, key, start, now)
  }

  /** Each stored list keeps at least the last window of the history. */
  ghost predicate Prunes(s: State, now: real) {
    NotAfter(s.log, now) && forall key :: PrunesKey(s, key, now)
  }

  lemma NothingToPrune(limit: int, now: real)
    ensures Prunes(Run(limit, []), now)
  {
    forall key
      ensures PrunesKey(Run(limit, []), key, now)
    {
      assert HoldsSince(Run(limit, []), key, now - 60.0, now);
    }
  }

  lemma {:induction false} SinceConcat(left: seq<real>, right: seq<real>, start: real)
    ensures Since(left + right, start) == Since(left, start) + Since(right, start)
  {
    if left == [] {
      assert left + right == right;
    } else {
      var all, rest := left + right, left[1..];
      assert all[0] == left[0] && all[1..] == rest + right;
      SinceConcat(rest, right, start);
      var head := if left[0] >= start then [left[0]] else [];
      assert Since(all, start) == head + Since(rest + right, start);
      assert Since(left, start) == head + Since(rest, start);
    }
  }

  lemma {:induction false} NarrowWindow(log: seq<Answer>, key: string, start: real, later: real, end: real)
    requires start <= later
    ensures Since(Allowed(log, key, start, end), later) == Allowed(log, key, later, end)
  {
    if log != [] {
      var head, last := log[..|log| - 1], log[|log| - 1];
      NarrowWindow(head, key, start, later, end);
      var one := if last.key == key && last.allowed && start <= last.time <= end then [last.time] else [];
      SinceConcat(Allowed(head, key, start, end), one, later);
    }
  }

  lemma {:induction false} EndIsIrrelevant(log: seq<Answer>, key: string, start: real, end: real, end': real)
    requires NotAfter(log, end) && NotAfter(log, end')
    ensures Allowed(log, key, start, end) == Allowed(log, key, start, end')
  {
    if log != [] {
      EndIsIrrelevant(log[..|log| - 1], key, start, end, end');
    }
  }

  lemma {:induction false} SmallerWindow(log: seq<Answer>, key: string, start: real, end: real, start': real, end': real)
    requires start' <= start && end <= end'
    ensures |Allowed(log, key, start, end)| <= |Allowed(log, key, start', end')|
  {
    if log != [] {
      SmallerWindow(log[..|log| - 1], key, start, end, start', end');
    }
  }

  lemma LogPrefix(s: State, limit: int, call: Call)
    ensures var log := Step(s, limit, call).log;
      |log| == |s.log| + 1 && log[..|log| - 1] == s.log && log[|s.log|].key == call.key && log[|s.log|].time == call.time
  {
  }

  lemma KeptHits(s: State, key: string, before: real, now: real)
    requires Prunes(s, before) && before <= now
    ensures Since(HitsOf(s.hits, key), now - 60.0) == Allowed(s.log, key, now - 60.0, now)
  {
    assert PrunesKey(s, key, before);
    var start :| start <= before - 60.0 && HoldsSince(s, key, start, before);
    EndIsIrrelevant(s.log, key, start, before, now);
    NarrowWindow(s.log, key, start, now - 60.0, now);
  }

  lemma AllowedAppend(log: seq<Answer>, a: Answer, key: string, start: real, end: real)
    ensures Allowed(log + [a], key, start, end) == Allowed(log, key, start, end)
      + (if a.key == key && a.allowed && start <= a.time <= end then [a.time] else [])
  {
    assert (log + [a])[..|log + [a]| - 1] == log;
  }

  function AnswerOf(s: State, limit: int, call: Call): Answer {
    Answer(call.key, call.time, |Since(HitsOf(s.hits, call.key), call.time - 60.0)| < limit)
  }

  lemma StepPrunesOwnKey(s: State, limit: int, call: Call, before: real)
    requires Prunes(s, before) && before <= call.time
    ensures PrunesKey(Step(s, limit, call), call.key, call.time)
  {
    var next, a, start := Step(s, limit, call), AnswerOf(s, limit, call), call.time - 60.0;
    KeptHits(s, call.key, before, call.time);
    AllowedAppend(s.log, a, call.key, start, call.time);
    assert next.log == s.log + [a];
    assert HitsOf(next.hits, call.key) == Allowed(s.log, call.key, start, call.time) + (if a.allowed then [call.time] else []);
    assert HoldsSince(next, call.key, start, call.time);
  }

  lemma NotAfterLater(log: seq<Answer>, now: real, later: real)
    requires NotAfter(log, now) && now <= later
    ensures NotAfter(log, later)
  {
  }

  lemma StepPrunesOtherKey(s: State, limit: int, call: Call, before: real, key: string)
    requires Prunes(s, before) && before <= call.time && key != call.key
    ensures PrunesKey(Step(s, limit, call), key, call.time)
  {
    var next, a := Step(s, limit, call), AnswerOf(s, limit, call);
    assert PrunesKey(s, key, before);
    var start :| start <= before - 60.0 && HoldsSince(s, key, start, before);
    NotAfterLater(s.log, before, call.time);
    EndIsIrrelevant(s.log, key, start, before, call.time);
    AllowedAppend(s.log, a, key, start, call.time);
    assert next.log == s.log + [a];
    assert HitsOf(next.hits, key) == HitsOf(s.hits, key);
    assert HoldsSince(next, key, start, call.time);
  }

  lemma StepPrunes(s: State, limit: int, call: Call, before: real)
    requires Prunes(s, before) && before <= call.time
    ensures Prunes(Step(s, limit, call), call.time)
    ensures AnswerOf(s, limit, call).allowed <==> |Allowed(s.log, call.key, call.time - 60.0, call.time)| < limit
  {
    KeptHits(s, call.key, before, call.time);
    LogPrefix(s, limit, call);
    forall key
      ensures PrunesKey(Step(s, limit, call), key, call.time)
    {
      if key == call.key {
        StepPrunesOwnKey(s, limit, call, before);
      } else {
        StepPrunesOtherKey(s, limit, call, before, key);
      }
    }
  }

  lemma {:induction false} RunLog(limit: int, calls: seq<Call>)
    ensures |Run(limit, calls).log| == |calls|
    ensures forall i :: 0 <= i < |calls| ==> Run(limit, calls).log[i].key == calls[i].key && Run(limit, calls).log[i].time == calls[i].time
  {
    if calls != [] {
      var head := calls[..|calls| - 1];
      RunLog(limit, head);
      LogPrefix(Run(limit, head), limit, calls[|calls| - 1]);
    }
  }

  lemma HeadRunsBefore(limit: int, calls: seq<Call>, now: real)
    requires Nondecreasing(calls) && calls != [] && calls[|calls| - 1].time <= now
    ensures NotAfter(Run(limit, calls).log, now)
  {
    RunLog(limit, calls);
  }

  /** Stored lists never lose a hit of the last window. */
  lemma {:induction false} RunPrunes(limit: int, calls: seq<Call>, now: real)
    requires Nondecreasing(calls) && (calls != [] ==> calls[|calls| - 1].time <= now)
    ensures exists before :: before <= now && Prunes(Run(limit, calls), before)
    decreases |calls|
  {
    if calls == [] {
      NothingToPrune(limit, now);
    } else {
      var head, last := calls[..|calls| - 1], calls[|calls| - 1];
      RunPrunes(limit, head, last.time);
      var before :| before <= last.time && Prunes(Run(limit, head), before);
      StepPrunes(Run(limit, head), limit, last, before);
      assert Prunes(Run(limit, calls), last.time);
    }
  }

  lemma StepAnswers(s: State, limit: int, call: Call, before: real)
    requires Prunes(s, before) && before <= call.time
    ensures Step(s, limit, call).log == s.log + [Answer(call.key, call.time, |Allowed(s.log, call.key, call.time - 60.0, call.time)| < limit)]
  {
    KeptHits(s, call.key, before, call.time);
  }

  lemma NextAnswer(limit: int, head: seq<Call>, call: Call)
    requires Nondecreasing(head) && (head != [] ==> head[|head| - 1].time <= call.time)
    ensures var past := Run(limit, head).log;
      Step(Run(limit, head), limit, call).log == past + [Answer(call.key, call.time, |Allowed(past, call.key, call.time - 60.0, call.time)| < limit)]
  {
    RunPrunes(limit, head, call.time);
    var before :| before <= call.time && Prunes(Run(limit, head), before);
    StepAnswers(Run(limit, head), limit, call, before);
  }

  lemma RunUnfolds(limit: int, calls: seq<Call>)
    requires calls != []
    ensures Run(limit, calls) == Step(Run(limit, calls[..|calls| - 1]), limit, calls[|calls| - 1])
  {
  }

  lemma HeadIsOrdered(calls: seq<Call>)
    requires Nondecreasing(calls) && calls != []
    ensures var head, last := calls[..|calls| - 1], calls[|calls| - 1];
      Nondecreasing(head) && (head != [] ==> head[|head| - 1].time <= last.time)
  {
  }

  /** A call is refused exactly when its window already holds `limit` allowed hits of its key, in the whole history. */
  lemma RefusedOnlyWhenFull(limit: int, calls: seq<Call>, head: seq<Call>, call: Call)
    requires Nondecreasing(calls) && calls != [] && head == calls[..|calls| - 1] && call == calls[|calls| - 1]
    ensures var past := Run(limit, head).log;
      Run(limit, calls).log == past + [Answer(call.key, call.time, |Allowed(past, call.key, call.time - 60.0, call.time)| < limit)]
  {
    HeadIsOrdered(calls);
    RunUnfolds(limit, calls);
    NextAnswer(limit, head, call);
  }

  lemma WindowAfterAllowed(past: seq<Answer>, a: Answer, key: string, start: real)
    requires NotAfter(past, a.time)
    ensures a.key == key && start <= a.time <= start + 60.0 ==>
      |Allowed(past, key, start, start + 60.0)| <= |Allowed(past, a.key, a.time - 60.0, a.time)|
  {
    if a.key == key && start <= a.time <= start + 60.0 {
      NotAfterLater(past, a.time, start + 60.0);
      EndIsIrrelevant(past, key, start, a.time, start + 60.0);
      SmallerWindow(past, key, start, a.time, a.time - 60.0, a.time);
    }
  }

  lemma PastIsNotAfter(limit: int, calls: seq<Call>)
    requires Nondecreasing(calls) && calls != []
    ensures Nondecreasing(calls[..|calls| - 1]) && NotAfter(Run(limit, calls[..|calls| - 1]).log, calls[|calls| - 1].time)
  {
    var head, last := calls[..|calls| - 1], calls[|calls| - 1];
    HeadIsOrdered(calls);
    if head != [] {
      HeadRunsBefore(limit, head, last.time);
    }
  }

  lemma OneMoreAnswer(past: seq<Answer>, a: Answer, key: string, start: real, limit: nat)
    requires NotAfter(past, a.time) && |Allowed(past, key, start, start + 60.0)| <= limit
    requires a.allowed ==> |Allowed(past, a.key, a.time - 60.0, a.time)| < limit
    ensures |Allowed(past + [a], key, start, start + 60.0)| <= limit
  {
    AllowedAppend(past, a, key, start, start + 60.0);
    WindowAfterAllowed(past, a, key, start);
  }

  /** No closed window of 60 seconds ever holds more than `limit` allowed hits of a key. */
  lemma {:induction false} NoWindowExceedsLimit(limit: nat, calls: seq<Call>, key: string, start: real)
    requires Nondecreasing(calls)
    ensures |Allowed(Run(limit, calls).log, key, start, start + 60.0)| <= limit
    decreases |calls|
  {
    if calls != [] {
      var head, last := calls[..|calls| - 1], calls[|calls| - 1];
      var past := Run(limit, head).log;
      PastIsNotAfter(limit, calls);
      NoWindowExceedsLimit(limit, head, key, start);
      RefusedOnlyWhenFull(limit, calls, head, last);
      var a := Answer(last.key, last.time, |Allowed(past, last.key, last.time - 60.0, last.time)| < limit);
      OneMoreAnswer(past, a, key, start, limit);
    }
  }

  function CallsOf(calls: seq<Call>, key: string): seq<Call> {
    if calls == [] then []
    else
      var last := calls[|calls| - 1];
      CallsOf(calls[..|calls| - 1], key) + (if last.key == key then [last] else [])
  }

  function AnswersTo(log: seq<Answer>, key: string): seq<Answer> {
    if log == [] then []
    else
      var last := log[|log| - 1];
      AnswersTo(log[..|log| - 1], key) + (if last.key == key then [last] else [])
  }

  lemma StepSeesOwnKeyOnly(s: State, s': State, limit: int, call: Call, key: string)
    requires AnswersTo(s.log, key) == s'.log && HitsOf(s.hits, key) == HitsOf(s'.hits, key)
    ensures var next := Step(s, limit, call);
      var next' := if call.key == key then Step(s', limit, call) else s';
      AnswersTo(next.log, key) == next'.log && HitsOf(next.hits, key) == HitsOf(next'.hits, key)
  {
    LogPrefix(s, limit, call);
  }

  /** A key gets the answers it would get alone, whatever the clock does. */
  lemma {:induction false} OtherKeysDoNotMatter(limit: int, calls: seq<Call>, key: string)
    ensures AnswersTo(Run(limit, calls).log, key) == Run(limit, CallsOf(calls, key)).log
    ensures HitsOf(Run(limit, calls).hits, key) == HitsOf(Run(limit, CallsOf(calls, key)).hits, key)
  {
    if calls != [] {
      var head, last := calls[..|calls| - 1], calls[|calls| - 1];
      OtherKeysDoNotMatter(limit, head, key);
      var own := CallsOf(head, key);
      StepSeesOwnKeyOnly(Run(limit, head), Run(limit, own), limit, last, key);
      assert Run(limit, calls) == Step(Run(limit, head), limit, last);
      if last.key == key {
        assert CallsOf(calls, key) == own + [last];
        assert (own + [last])[..|own + [last]| - 1] == own;
        assert Run(limit, own + [last]) == Step(Run(limit, own), limit, last);
      } else {
        assert CallsOf(calls, key) == own;
      }
    }
  }

  /** One call on a state whose lists are the pruned history. */
  lemma NextCallIsDecided(s: State, limit: int, call: Call)
    requires if s.log == [] then s.hits == map[] else Prunes(s, s.log[|s.log| - 1].time)
    requires NotAfter(s.log, call.time)
    ensures Prunes(Step(s, limit, call), call.time)
    ensures AnswerOf(s, limit, call).allowed <==> |Allowed(s.log, call.key, call.time - 60.0, call.time)| < limit
  {
    if s.log == [] {
      NothingToPrune(limit, call.time);
      StepPrunes(s, limit, call, call.time);
    } else {
      StepPrunes(s, limit, call, s.log[|s.log| - 1].time);
    }
  }

  class Limiter {
    const limitPerMinute: int
    var hits: map<string, seq<real>>
    ghost var log: seq<Answer>

    /** The stored lists are the history, pruned no further than its last call allows. */
    ghost predicate Valid()
      reads this
    {
      if log == [] then hits == map[] else Prunes(Contents(), log[|log| - 1].time)
    }

    constructor (limitPerMinute: int)
      ensures this.limitPerMinute == limitPerMinute
      ensures Contents() == Run(limitPerMinute, []) && Valid()
    {
      this.limitPerMinute := limitPerMinute;
      hits, log := map[], [];
    }

    ghost function Contents(): State
      reads this
    {
      State(hits, log)
    }

    /** While the clock does not go back, a call is allowed exactly when its window, in the whole history, has room. */
    method Allow(key: string, now: real) returns (allowed: bool)
      modifies this
      ensures Contents() == Step(old(Contents()), limitPerMinute, Call(key, now))
      ensures log == old(log) + [Answer(key, now, allowed)]
      ensures old(Valid()) && NotAfter(old(log), now) ==>
        Valid() && (allowed <==> |Allowed(old(log), key, now - 60.0, now)| < limitPerMinute)
    {
      if Valid() && NotAfter(log, now) {
        NextCallIsDecided(Contents(), limitPerMinute, Call(key, now));
      }
      var windowStart := now - 60.0;
      var kept := Since(if key in hits then hits[key] else [], windowStart);
      if |kept| >= limitPerMinute {
        hits := hits[key := kept];
        log := log + [Answer(key, now, false)];
        return false;
      }
      kept := kept + [now];
      hits := hits[key := kept];
      log := log + [Answer(key, now, true)];
      return true;
    }
  }
}

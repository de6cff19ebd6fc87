/** The memory pressure level: it moves only after enough observations in a row agree. */
module MemoryPressure {
  import opened JobTable
  import opened Wrappers

  datatype Level = NORMAL | WARNING | HIGH

  datatype Thresholds = Thresholds(warningBytes: int, highBytes: int, requiredSamples: int)

  datatype State = State(level: Level, candidate: Option<Level>, count: nat)

  function Target(t: Thresholds, rss: int): Level {
    if rss >= t.highBytes then HIGH else if rss >= t.warningBytes then WARNING else NORMAL
  }

  const START: State := State(NORMAL, None, 0)

  function Step(t: Thresholds, s: State, rss: int): State {
    var next := Target(t, rss);
    if next == s.level then s.(candidate := None, count := 0)
    else if s.candidate != Some(next) then s.(candidate := Some(next), count := 1)
    else if s.count + 1 >= t.requiredSamples then State(next, None, 0)
    else s.(count := s.count + 1)
  }

  function Admitted(level: Level): set<Priority> {
    if level == HIGH then {Critical, Priority.High} else {Critical, Priority.High, Normal, Low}
  }

  class MemoryPressureService {
    var levelValue: Level
    var candidate: Option<Level>
    var candidateCount: nat
    const thresholds: Thresholds

    function Current(): State
      reads this
    {
      State(levelValue, candidate, candidateCount)
    }

    constructor (t: Thresholds)
      ensures Current() == START && thresholds == t
    {
      levelValue, candidate, candidateCount := NORMAL, None, 0;
      thresholds := t;
    }

    method Observe(rssBytes: int) returns (level: Level)
      modifies this
      ensures Current() == Step(thresholds, old(Current()), rssBytes)
      ensures level == levelValue
    {
      var next := Target(thresholds, rssBytes);
      if next == levelValue {
        ResetCandidate();
        return levelValue;
      }
      if candidate != Some(next) {
        candidate := Some(next);
        candidateCount := 1;
        return levelValue;
      }
      candidateCount := candidateCount + 1;
      if candidateCount >= thresholds.requiredSamples {
        levelValue := next;
        ResetCandidate();
      }
      level := levelValue;
    }

    /** Under high pressure only critical and high-priority work is admitted, otherwise all. */
    method CanAdmit(priority: Priority) returns (admitted: bool)
      ensures admitted <==> priority in Admitted(levelValue)
    {
      admitted := levelValue != HIGH || priority == Critical || priority == Priority.High;
    }

    method ResetCandidate()
      modifies this`candidate, this`candidateCount
      ensures candidate == None && candidateCount == 0
    {
      candidate, candidateCount := None, 0;
    }
  }

  // ---------- whole histories ----------

  /** The state after the first `n` observations. */
  function After(t: Thresholds, history: seq<int>, n: nat): State
    requires n <= |history|
  {
    if n == 0 then START else Step(t, After(t, history, n - 1), history[n - 1])
  }

  /** How many observations a change takes: two even where fewer are configured. */
  function Needed(t: Thresholds): nat { if t.requiredSamples > 2 then t.requiredSamples else 2 }

  /** The observations up to position `p` end in enough that all target the same level. */
  ghost predicate Steady(t: Thresholds, history: seq<int>, p: nat) {
    Needed(t) <= p <= |history| && forall i :: p - Needed(t) <= i < p ==>
        Target(t, history[i]) == Target(t, history[p - 1])
  }

  /** How many observations before position `n` agree with the last of them. */
  function RunLength(t: Thresholds, history: seq<int>, n: nat): (k: nat)
    requires n <= |history|
    ensures k <= n && (n > 0 ==> k > 0)
    ensures forall i :: n - k <= i < n ==> Target(t, history[i]) == Target(t, history[n - 1])
    ensures 0 < k < n ==> Target(t, history[n - k - 1]) != Target(t, history[n - 1])
  {
    if n == 0 then 0
    else if n > 1 && Target(t, history[n - 2]) == Target(t, history[n - 1]) then 1 + RunLength(t, history, n - 1)
    else 1
  }

  lemma {:induction false} SteadyIsLongRun(t: Thresholds, history: seq<int>, n: nat)
    requires n <= |history|
    ensures Steady(t, history, n) <==> RunLength(t, history, n) >= Needed(t)
  {
    var k := RunLength(t, history, n);
    if 0 < k < Needed(t) <= n { assert Target(t, history[n - k - 1]) != Target(t, history[n - 1]); }
  }

  /** A candidate is being counted exactly while the last observations differ from the level. */
  lemma {:induction false} CandidateCountsRun(t: Thresholds, history: seq<int>, n: nat)
    requires 0 < n <= |history|
    ensures var s, last, k := After(t, history, n), Target(t, history[n - 1]), RunLength(t, history, n);
            if s.level == last then s.candidate == None && s.count == 0
            else s.candidate == Some(last) && s.count == k < Needed(t)
    ensures RunLength(t, history, n) >= Needed(t) ==> After(t, history, n).level == Target(t, history[n - 1])
    ensures RunLength(t, history, n) < Needed(t) ==> After(t, history, n).level == After(t, history, n - 1).level
  {
    if n == 1 {
      assert After(t, history, 0) == START;
    } else {
      CandidateCountsRun(t, history, n - 1);
    }
  }

  /** Hysteresis: the level is the one targeted at the latest position `p` that ends enough equal
      targets in a row; with no such position (p = 0) it is NORMAL. */
  lemma {:induction false} LevelIsLastSteady(t: Thresholds, history: seq<int>, p: nat, n: nat)
    requires p <= n <= |history| && (p == 0 || Steady(t, history, p))
    requires forall q :: p < q <= n ==> !Steady(t, history, q)
    ensures After(t, history, n).level == if p == 0 then NORMAL else Target(t, history[p - 1])
    decreases n
  {
    hide Steady, RunLength, Step;
    if n > 0 {
      SteadyIsLongRun(t, history, n);
      CandidateCountsRun(t, history, n);
      if p < n { LevelIsLastSteady(t, history, p, n - 1); }
    }
  }

  // ---------- in bytes ----------

  /** The observation lies in the zone of the level. */
  predicate InZone(t: Thresholds, rss: int, level: Level) {
    match level
    case HIGH => t.highBytes <= rss
    case WARNING => t.warningBytes <= rss < t.highBytes
    case NORMAL => rss < t.warningBytes && rss < t.highBytes
  }

  /** Enough observations in a row in one zone set the level, whatever came before them; and the level
      then decides what is admitted. */
  lemma {:induction false} ZoneSetsLevel(t: Thresholds, history: seq<int>, level: Level)
    requires Needed(t) <= |history|
    requires forall i :: |history| - Needed(t) <= i < |history| ==> InZone(t, history[i], level)
    ensures After(t, history, |history|).level == level
    ensures level == HIGH ==> Admitted(After(t, history, |history|).level) == {Critical, Priority.High}
    ensures level != HIGH ==> forall p: Priority :: p in Admitted(After(t, history, |history|).level)
  {
    var n := |history|;
    forall i | n - Needed(t) <= i < n ensures Target(t, history[i]) == level { assert InZone(t, history[i], level); }
    assert Steady(t, history, n);
    hide Steady, After;
    LevelIsLastSteady(t, history, n, n);
    forall p: Priority ensures level != HIGH ==> p in Admitted(level) {
      assert p == Critical || p == Priority.High || p == Normal || p == Low;
    }
  }

  /** No level is reached without so many observations in its zone: a level other than the first one
      was set by some position that ends enough of them in a row. */
  lemma {:induction false} LevelWasObserved(t: Thresholds, history: seq<int>, n: nat) returns (p: nat)
    requires n <= |history|
    ensures p <= n && (p == 0 ==> After(t, history, n).level == NORMAL)
    ensures p > 0 ==> p >= Needed(t)
    ensures p > 0 ==> forall i :: p - Needed(t) <= i < p ==> InZone(t, history[i], After(t, history, n).level)
  {
    p := 0;
    if n > 0 {
      CandidateCountsRun(t, history, n);
      if RunLength(t, history, n) >= Needed(t) {
        p := n;
        forall i | n - Needed(t) <= i < n ensures InZone(t, history[i], After(t, history, n).level) {
          assert Target(t, history[i]) == Target(t, history[n - 1]);
        }
      } else {
        hide After;
        p := LevelWasObserved(t, history, n - 1);
      }
    } else {
      assert After(t, history, 0) == START;
    }
  }
}

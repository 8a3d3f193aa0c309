// The escalation automaton with hysteresis: three fields stepped once for each measured window.
// Source: ml-service/monitoring/production_telemetry.py

module Escalation {
  import opened Common

  datatype Raw = RawNormal | RawWarning | RawCritical

  datatype Effective = Normal | Warning | Critical | ChangeRequestRequired

  // the window measurements that the thresholds look at
  datatype Window = Window(integrityOk: bool, rate5xx: real, rate4xx: real, p95: real, psiProb: real, psiAmount: real)

  function Classify(w: Window): Raw {
    if !w.integrityOk then RawCritical
    else if w.rate5xx > 0.001 || w.p95 > 25.0 || w.psiProb >= 0.25 then RawCritical
    else if w.rate4xx > 0.05 || w.p95 > 15.0 || w.psiProb >= 0.10 || w.psiAmount >= 0.10 then RawWarning
    else RawNormal
  }

  // The thresholds: which single measurement makes a window critical, and when all of them together
  // leave it normal. The amounts' index never makes a window critical, nor does the rate of 4xx.
  lemma {:induction false} ClassifyIff(w: Window)
    ensures Classify(w) == RawCritical <==>
            w.integrityOk ==> w.rate5xx * 1000.0 > 1.0 || w.p95 > 25.0 || w.psiProb * 4.0 >= 1.0
    ensures Classify(w) == RawNormal <==>
            && w.integrityOk
            && w.rate5xx * 1000.0 <= 1.0 && w.rate4xx * 20.0 <= 1.0 && w.p95 <= 15.0
            && w.psiProb * 10.0 < 1.0 && w.psiAmount * 10.0 < 1.0
  {
  }

  function Rank(raw: Raw): nat {
    match raw
    case RawNormal => 0
    case RawWarning => 1
    case RawCritical => 2
  }

  // a window that is nowhere better is never put in a better class
  lemma {:induction false} ClassifyMonotone(w: Window, w': Window)
    requires w'.integrityOk ==> w.integrityOk
    requires w.rate5xx <= w'.rate5xx && w.rate4xx <= w'.rate4xx && w.p95 <= w'.p95
    requires w.psiProb <= w'.psiProb && w.psiAmount <= w'.psiAmount
    ensures Rank(Classify(w)) <= Rank(Classify(w'))
  {
  }

  datatype Tracker = Tracker(critical: nat, normal: nat, state: Effective)

  const INITIAL := Tracker(0, 0, Normal)

  function Step(k: Tracker, raw: Raw): Tracker {
    var normal := if raw == RawNormal then k.normal + 1 else 0;
    var critical := if raw == RawCritical then k.critical + 1
                    else if raw == RawNormal && normal >= 2 then 0 else k.critical;
    var state := if critical >= 5 then ChangeRequestRequired
                 else if raw == RawCritical then Critical
                 else if raw == RawWarning then Warning
                 else if normal == 1 && (k.state == Warning || k.state == Critical) then Warning
                 else Normal;
    Tracker(critical, normal, state)
  }

  function Run(h: seq<Raw>): Tracker {
    if h == [] then INITIAL else Step(Run(h[..|h| - 1]), h[|h| - 1])
  }

  class ProductionTelemetryCollector {
    var consecutiveCriticalWindows: nat
    var consecutiveNormalWindows: nat
    var currentState: Effective

    ghost function Fields(): Tracker
      reads this
    {
      Tracker(consecutiveCriticalWindows, consecutiveNormalWindows, currentState)
    }

    constructor ()
      ensures Fields() == INITIAL
    {
      consecutiveCriticalWindows, consecutiveNormalWindows, currentState := 0, 0, Normal;
    }

    // None stands for a window without events, which is reported and not stepped
    method ComputeWindowTelemetry(window: Option<Window>) returns (effective: Option<Effective>)
      modifies this
      ensures window.None? ==> Fields() == old(Fields()) && effective == None
      ensures window.Some? ==>
                Fields() == Step(old(Fields()), Classify(window.value)) && effective == Some(currentState)
    {
      if window.None? {
        return None;
      }
      var raw := Classify(window.value);
      if raw == RawCritical {
        consecutiveCriticalWindows := consecutiveCriticalWindows + 1;
        consecutiveNormalWindows := 0;
      } else if raw == RawNormal {
        consecutiveNormalWindows := consecutiveNormalWindows + 1;
        if consecutiveNormalWindows >= 2 {
          consecutiveCriticalWindows := 0;
        }
      } else {
        consecutiveNormalWindows := 0;
      }
      if consecutiveCriticalWindows >= 5 {
        currentState := ChangeRequestRequired;
      } else if raw == RawCritical {
        currentState := Critical;
      } else if raw == RawWarning {
        currentState := Warning;
      } else if consecutiveNormalWindows == 1 && (currentState == Warning || currentState == Critical) {
        currentState := Warning;
      } else {
        currentState := Normal;
      }
      effective := Some(currentState);
    }
  }

  // ---------------------------------------------------------------------------
  // The closed form over the history of raw states
  // ---------------------------------------------------------------------------

  // two adjacent normal windows end at position q
  predicate QuietAt(h: seq<Raw>, q: nat) {
    2 <= q <= |h| && h[q - 2] == RawNormal && h[q - 1] == RawNormal
  }

  // the position just after the last pair of adjacent normal windows, 0 if there is none
  ghost predicate IsLastQuiet(h: seq<Raw>, q: nat) {
    && (q == 0 || QuietAt(h, q))
    && forall r :: q < r <= |h| ==> !QuietAt(h, r)
  }

  function Criticals(h: seq<Raw>): nat {
    if h == [] then 0 else Criticals(h[..|h| - 1]) + (if h[|h| - 1] == RawCritical then 1 else 0)
  }

  // k normal windows, and no more, end the history
  ghost predicate TrailingNormals(h: seq<Raw>, k: nat) {
    && k <= |h|
    && (forall i :: |h| - k <= i < |h| ==> h[i] == RawNormal)
    && (k < |h| ==> h[|h| - k - 1] != RawNormal)
  }

  function Prescribed(h: seq<Raw>, criticals: nat): Effective
    requires h != []
  {
    var n := |h| - 1;
    if criticals >= 5 then ChangeRequestRequired
    else if h[n] == RawCritical then Critical
    else if h[n] == RawWarning then Warning
    else if n == 0 || h[n - 1] == RawNormal then Normal
    else Warning
  }

  lemma {:induction false} NormalsExact(h: seq<Raw>)
    ensures TrailingNormals(h, Run(h).normal)
  {
    if h != [] {
      var n := |h| - 1;
      assert h == h[..n] + [h[n]];
      NormalsExact(h[..n]);
      var k := Run(h[..n]).normal;
      assert forall i :: n - k <= i < n ==> h[i] == h[..n][i];
      assert k < n ==> h[n - k - 1] == h[..n][n - k - 1];
    }
  }

  lemma {:induction false} SecondNormal(h: seq<Raw>)
    ensures h != [] ==> (Run(h).normal >= 2 <==> QuietAt(h, |h|))
  {
    NormalsExact(h);
  }

  lemma {:induction false} QuietBefore(h: seq<Raw>, x: Raw, r: nat)
    requires r <= |h|
    ensures QuietAt(h + [x], r) <==> QuietAt(h, r)
  {
  }

  // a window that does not complete a quiet pair leaves the last one where it was
  lemma {:induction false} LastQuietStays(h: seq<Raw>, x: Raw, q: nat)
    requires IsLastQuiet(h, q) && q <= |h| && !QuietAt(h + [x], |h| + 1)
    ensures IsLastQuiet(h + [x], q)
  {
    QuietBefore(h, x, q);
    forall r: nat | q < r <= |h| ensures !QuietAt(h + [x], r) {
      QuietBefore(h, x, r);
    }
  }

  lemma {:induction false} CriticalsSnoc(h: seq<Raw>, x: Raw, q: nat)
    requires q <= |h|
    ensures Criticals((h + [x])[q..]) == Criticals(h[q..]) + (if x == RawCritical then 1 else 0)
  {
    assert (h + [x])[q..] == h[q..] + [x];
    assert (h[q..] + [x])[..|h| - q] == h[q..];
  }

  lemma {:induction false} CountersExact(h: seq<Raw>) returns (q: nat)
    ensures IsLastQuiet(h, q) && q <= |h|
    ensures Run(h).critical == Criticals(h[q..])
  {
    if h == [] {
      q := 0;
    } else {
      var n := |h| - 1;
      assert h == h[..n] + [h[n]];
      q := CountersExact(h[..n]);
      SecondNormal(h);
      if QuietAt(h, n + 1) {
        q := n + 1;
        assert h[q..] == [];
      } else {
        LastQuietStays(h[..n], h[n], q);
        CriticalsSnoc(h[..n], h[n], q);
      }
    }
  }

  lemma {:induction false} LastQuietUnique(h: seq<Raw>, q: nat, q': nat)
    requires IsLastQuiet(h, q) && IsLastQuiet(h, q') && q <= |h| && q' <= |h|
    ensures q == q'
  {
    assert q > 0 ==> QuietAt(h, q);
    assert q' > 0 ==> QuietAt(h, q');
  }

  // After any history, with q just after its last two adjacent normal windows: the critical counter is
  // the number of critical windows from q on, and the state is the prescribed function of that
  // number and the last two windows.
  lemma {:induction false} AutomatonClosedForm(h: seq<Raw>, q: nat)
    requires h != [] && q <= |h| && IsLastQuiet(h, q)
    ensures Run(h).critical == Criticals(h[q..])
    ensures Run(h).state == Prescribed(h, Criticals(h[q..]))
    decreases |h|
  {
    var p := CountersExact(h);
    LastQuietUnique(h, p, q);
    var n := |h| - 1;
    if n > 0 {
      var init := h[..n];
      var r := CountersExact(init);
      AutomatonClosedForm(init, r);
      NormalsExact(h);
      if h[n] == RawNormal {
        assert init[n - 1] == h[n - 1];
      }
    }
  }

  // the positions of the critical windows
  function CriticalAt(h: seq<Raw>): set<nat> {
    set i: nat | i < |h| && h[i] == RawCritical
  }

  lemma {:induction false} CriticalsCount(h: seq<Raw>)
    ensures Criticals(h) == |CriticalAt(h)|
  {
    if h != [] {
      var n := |h| - 1;
      CriticalsCount(h[..n]);
      assert CriticalAt(h) == CriticalAt(h[..n]) + (if h[n] == RawCritical then {n} else {});
    }
  }

  // The readings of the closed form: a change request is required exactly when at least five
  // critical windows followed the last two adjacent normal ones, the state is critical exactly when
  // fewer did and the last window is one of them, and it is normal exactly when the last two windows
  // are normal, or the only one is.
  lemma {:induction false} ChangeRequestIffFiveCriticals(h: seq<Raw>, q: nat)
    requires h != [] && q <= |h| && IsLastQuiet(h, q)
    ensures Run(h).state == ChangeRequestRequired <==> |CriticalAt(h[q..])| >= 5
    ensures Run(h).state == Critical <==> h[|h| - 1] == RawCritical && |CriticalAt(h[q..])| < 5
    ensures Run(h).state == Normal <==> QuietAt(h, |h|) || h == [RawNormal]
  {
    AutomatonClosedForm(h, q);
    CriticalsCount(h[q..]);
    if QuietAt(h, |h|) {
      LastQuietUnique(h, q, |h|);
      assert h[q..] == [];
    }
    if h == [RawNormal] {
      assert q == 0 && h[0..] == h && h[..0] == [];
    }
  }

  // A required change request is left on a second consecutive normal window and on nothing else.
  lemma {:induction false} ChangeRequestLeftOnlyWhenQuiet(h: seq<Raw>, raw: Raw)
    requires Run(h).state == ChangeRequestRequired
    ensures Run(h + [raw]).state != ChangeRequestRequired <==> raw == RawNormal && h[|h| - 1] == RawNormal
    ensures Run(h + [raw]).state != ChangeRequestRequired ==> Run(h + [raw]) == Tracker(0, Run(h).normal + 1, Normal)
  {
    assert (h + [raw])[..|h|] == h;
    var q := CountersExact(h);
    AutomatonClosedForm(h, q);
    NormalsExact(h);
  }

  // The five windows need not be consecutive, although the counter is called so: any other windows
  // may lie between them as long as no two adjacent ones are normal.
  lemma {:induction false} CriticalsNeedNotBeConsecutive()
    ensures var c, n := RawCritical, RawNormal; Run([c, n, c, n, c, n, c, n, c]).state == ChangeRequestRequired
  {
    var c, n := RawCritical, RawNormal;
    var h := [c, n, c, n, c, n, c, n, c];
    assert Run(h[..1]) == Step(INITIAL, c) by { assert h[..1][..0] == []; }
    assert Run(h[..2]) == Step(Run(h[..1]), n) by { assert h[..2][..1] == h[..1]; }
    assert Run(h[..3]) == Step(Run(h[..2]), c) by { assert h[..3][..2] == h[..2]; }
    assert Run(h[..4]) == Step(Run(h[..3]), n) by { assert h[..4][..3] == h[..3]; }
    assert Run(h[..5]) == Step(Run(h[..4]), c) by { assert h[..5][..4] == h[..4]; }
    assert Run(h[..6]) == Step(Run(h[..5]), n) by { assert h[..6][..5] == h[..5]; }
    assert Run(h[..7]) == Step(Run(h[..6]), c) by { assert h[..7][..6] == h[..6]; }
    assert Run(h[..8]) == Step(Run(h[..7]), n) by { assert h[..8][..7] == h[..7]; }
  }
}

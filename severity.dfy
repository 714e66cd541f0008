/** The fixed five-band mapping from a label's confidence to a damage severity. */
module Severity {

  /** The lowest confidence of severity 1, 2, 3 and 4, in that order. */
  const Breakpoints: seq<real> := [45.0, 60.0, 75.0, 90.0]

  /** `map_confidence_to_severity`: an if/elif chain over the breakpoints. */
  function MapConfidenceToSeverity(confidence: real): (severity: int)
    ensures 0 <= severity <= 4
  {
    if confidence >= 90.0 then 4
    else if confidence >= 75.0 then 3
    else if confidence >= 60.0 then 2
    else if confidence >= 45.0 then 1
    else 0
  }

  /** Reference definition: how many of the breakpoints `confidence` reaches. */
  function BreakpointsReached(confidence: real, breakpoints: seq<real>): (n: nat)
    ensures n <= |breakpoints|
  {
    if breakpoints == [] then 0
    else (if confidence >= breakpoints[0] then 1 else 0) + BreakpointsReached(confidence, breakpoints[1..])
  }

  /** The severity is the number of breakpoints the confidence reaches. */
  lemma SeverityCountsBreakpoints(confidence: real)
    ensures MapConfidenceToSeverity(confidence) == BreakpointsReached(confidence, Breakpoints)
  {
    var c := confidence;
    assert BreakpointsReached(c, [90.0]) == if c >= 90.0 then 1 else 0 by {
      assert [90.0][1..] == [];
    }
    assert BreakpointsReached(c, [75.0, 90.0])
        == (if c >= 75.0 then 1 else 0) + BreakpointsReached(c, [90.0]) by {
      assert [75.0, 90.0][1..] == [90.0];
    }
    assert BreakpointsReached(c, [60.0, 75.0, 90.0])
        == (if c >= 60.0 then 1 else 0) + BreakpointsReached(c, [75.0, 90.0]) by {
      assert [60.0, 75.0, 90.0][1..] == [75.0, 90.0];
    }
    assert BreakpointsReached(c, Breakpoints)
        == (if c >= 45.0 then 1 else 0) + BreakpointsReached(c, [60.0, 75.0, 90.0]) by {
      assert Breakpoints[1..] == [60.0, 75.0, 90.0];
    }
  }

  /** The five bands: >= 90, [75, 90), [60, 75), [45, 60) and < 45. */
  lemma SeverityBands(confidence: real)
    ensures MapConfidenceToSeverity(confidence) == 4 <==> 90.0 <= confidence
    ensures MapConfidenceToSeverity(confidence) == 3 <==> 75.0 <= confidence < 90.0
    ensures MapConfidenceToSeverity(confidence) == 2 <==> 60.0 <= confidence < 75.0
    ensures MapConfidenceToSeverity(confidence) == 1 <==> 45.0 <= confidence < 60.0
    ensures MapConfidenceToSeverity(confidence) == 0 <==> confidence < 45.0
  {
  }

  /** Severity k or more is reached exactly from the k-th breakpoint on. */
  lemma SeverityAtLeast(confidence: real, k: int)
    requires 1 <= k <= 4
    ensures MapConfidenceToSeverity(confidence) >= k <==> confidence >= Breakpoints[k - 1]
  {
  }

  /** Reaching breakpoints never decreases as the confidence grows. */
  lemma {:induction false} BreakpointsReachedMonotone(c1: real, c2: real, breakpoints: seq<real>)
    requires c1 <= c2
    ensures BreakpointsReached(c1, breakpoints) <= BreakpointsReached(c2, breakpoints)
  {
    if breakpoints != [] {
      BreakpointsReachedMonotone(c1, c2, breakpoints[1..]);
    }
  }

  /** A higher confidence never gives a lower severity. */
  lemma SeverityMonotone(c1: real, c2: real)
    requires c1 <= c2
    ensures MapConfidenceToSeverity(c1) <= MapConfidenceToSeverity(c2)
  {
    SeverityCountsBreakpoints(c1);
    SeverityCountsBreakpoints(c2);
    BreakpointsReachedMonotone(c1, c2, Breakpoints);
  }
}

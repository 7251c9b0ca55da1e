/** The command line's port handling (gomapcli/ports.go): parsing a port
    specification, either one number or a range "before-after", and sorting
    ports into open, closed and filtered lists by the outcome of a TCP dial.
    The dial itself is I/O; its outcome for each port is an input. */
module CliPorts {
  import opened Common
  import opened GoText

  // ----- ParsePorts -----

  /** Which strconv.Atoi call failed. */
  datatype ParseError = BadBefore | BadAfter | BadSinglePort

  /** before, before + 1, ..., after; empty when before > after. */
  function Range(before: int, after: int): (r: seq<int>)
    ensures |r| == if before <= after then after - before + 1 else 0
    ensures forall k :: 0 <= k < |r| ==> r[k] == before + k
  {
    if before > after then [] else seq(after - before + 1, k => before + k)
  }

  /** What ParsePorts returns: with a '-', the text is cut at the first one,
      both halves must be ints and the result is the inclusive range between
      them; without one, the whole text must be an int and is the only port.
      No check is made that the numbers are valid ports. */
  function ParsedPorts(spec: string): Result<seq<int>, ParseError>
  {
    var c := Cut(spec, '-');
    if c.found then
      match Atoi(c.before)
      case None => Err(BadBefore)
      case Some(before) =>
        match Atoi(c.after)
        case None => Err(BadAfter)
        case Some(after) => Ok(Range(before, after))
    else
      match Atoi(spec)
      case None => Err(BadSinglePort)
      case Some(port) => Ok([port])
  }

  /** The counting loop of ParsePorts: append before, before + 1, ... while
      the counter has not passed after (on unbounded integers). */
  method AppendRange(lo: int, hi: int) returns (portRange: seq<int>)
    ensures portRange == Range(lo, hi)
  {
    portRange := [];
    var i := lo;
    while i <= hi
      invariant lo <= i && (i <= hi + 1 || i == lo)
      invariant portRange == Range(lo, i - 1)
      decreases hi - i
    {
      portRange := portRange + [i];
      assert portRange == Range(lo, i) by {
        assert forall k :: 0 <= k < |portRange| ==> portRange[k] == lo + k;
      }
      i := i + 1;
    }
  }

  /** ParsePorts: cut at the first '-', convert each half, build the range. */
  method ParsePorts(spec: string) returns (r: Result<seq<int>, ParseError>)
    ensures r == ParsedPorts(spec)
  {
    var c := Cut(spec, '-');
    if c.found {
      var before := Atoi(c.before);
      if before.None? {
        return Err(BadBefore);
      }
      var after := Atoi(c.after);
      if after.None? {
        return Err(BadAfter);
      }
      var portRange := AppendRange(before.value, after.value);
      return Ok(portRange);
    } else {
      var single := Atoi(spec);
      if single.None? {
        return Err(BadSinglePort);
      }
      return Ok([single.value]);
    }
  }

  /** Without a '-', the text is one port: accepted exactly when Atoi accepts
      it, and then the list holds that number alone. */
  lemma SinglePortSpec(spec: string)
    requires '-' !in spec
    ensures ParsedPorts(spec).Ok? <==> Atoi(spec).Some?
    ensures ParsedPorts(spec).Ok? ==> ParsedPorts(spec).value == [Atoi(spec).value]
  {
  }

  /** Two ints around a '-' give exactly the numbers from the first to the
      second, in increasing order; nothing when the first is larger. */
  lemma RangeSpec(before: string, after: string)
    requires '-' !in before
    requires Atoi(before).Some? && Atoi(after).Some?
    ensures var lo, hi := Atoi(before).value, Atoi(after).value;
      var r := ParsedPorts(before + "-" + after);
      && r.Ok?
      && |r.value| == (if lo <= hi then hi - lo + 1 else 0)
      && (forall k :: 0 <= k < |r.value| ==> r.value[k] == lo + k)
      && (lo > hi ==> r.value == [])
  {
    var c := Cut(before + "-" + after, '-');
    IndexOfAfterPrefix(before, '-', after);
    assert (before + "-" + after)[..|before|] == before;
    assert (before + "-" + after)[|before| + 1..] == after;
  }

  /** A leading '-' leaves nothing before the cut, which Atoi rejects; so a
      negative single port such as "-5" is an error. */
  lemma LeadingDashIsError(rest: string)
    ensures ParsedPorts("-" + rest) == Err(BadBefore)
  {
    var s := "-" + rest;
    assert s[0] == '-';
    IndexOfAfterPrefix([], '-', rest);
    assert [] + "-" + rest == s;
  }

  /** Only the first '-' cuts; a later one (not directly after it) stays in the
      second half, which Atoi then rejects, as in "1-2-3". */
  lemma LaterDashIsError(before: string, after: string, i: nat)
    requires '-' !in before
    requires 0 < i < |after| && after[i] == '-'
    ensures ParsedPorts(before + "-" + after).Err?
  {
    IndexOfAfterPrefix(before, '-', after);
    assert (before + "-" + after)[..|before|] == before;
    assert (before + "-" + after)[|before| + 1..] == after;
    if Atoi(after).Some? {
      AtoiShape(after);
    }
  }

  /** A range whose two ends are the same number gives that number alone,
      whatever its size. */
  lemma OnePortRange(n: int)
    requires 0 <= n <= MaxInt64
    ensures ParsedPorts(Itoa(n) + "-" + Itoa(n)) == Ok([n])
  {
    var d := Itoa(n);
    assert '-' !in d by { assert AllDigits(d); }
    AtoiItoa(n);
    RangeSpec(d, d);
    var r := ParsedPorts(d + "-" + d);
    assert |r.value| == 1 && r.value[0] == n;
    assert r.value == [n];
  }

  // ----- the range loop as written, with a 64-bit counter -----

  /** A Go int increment: two's-complement wrap-around at the int64 bounds. */
  function GoIncrement(i: int): int
    requires MinInt64 <= i <= MaxInt64
  {
    if i == MaxInt64 then MinInt64 else i + 1
  }

  /** The values the loop `for i := before; i <= after; i++` appends in its
      first n iterations when i is a 64-bit int. */
  function AppendedByGoLoop(i: int, after: int, n: nat): seq<int>
    requires MinInt64 <= i <= MaxInt64
    decreases n
  {
    if n == 0 || i > after then [] else [i] + AppendedByGoLoop(GoIncrement(i), after, n - 1)
  }

  /** With after = MaxInt64 the guard i <= after holds for every 64-bit i, so
      the loop never leaves: after any number n of iterations it has appended
      n values, even when the range should have one element. */
  lemma {:induction false} GoLoopNeverEndsAtMaxInt(i: int, n: nat)
    requires MinInt64 <= i <= MaxInt64
    ensures |AppendedByGoLoop(i, MaxInt64, n)| == n
    decreases n
  {
    if n > 0 {
      GoLoopNeverEndsAtMaxInt(GoIncrement(i), n - 1);
    }
  }

  /** So "9223372036854775807-9223372036854775807" makes the Go loop append
      MaxInt64 and then MinInt64, where the range holds MaxInt64 alone. */
  lemma GoLoopOverrunsOnePortRange()
    ensures AppendedByGoLoop(MaxInt64, MaxInt64, 2) == [MaxInt64, MinInt64]
    ensures Range(MaxInt64, MaxInt64) == [MaxInt64]
  {
    assert AppendedByGoLoop(MinInt64, MaxInt64, 1) == [MinInt64];
  }

  // ----- ScanPorts -----

  /** The outcome of net.DialTimeout for one port: connected, a net.Error that
      reports a timeout, or any other error. */
  datatype DialOutcome = Connected | DialTimeout | DialFailed

  /** The ports whose dial had the given outcome, in input order. */
  function Select(ports: seq<int>, outcomes: seq<DialOutcome>, want: DialOutcome): seq<int>
    requires |outcomes| == |ports|
    decreases |ports|
  {
    if ports == [] then []
    else
      var n := |ports| - 1;
      Select(ports[..n], outcomes[..n], want) + (if outcomes[n] == want then [ports[n]] else [])
  }

  /** ScanPorts' sorting loop: success goes to the open list, a timeout to the
      filtered list, any other error to the closed list. Printing is left out. */
  method ScanPorts(ports: seq<int>, outcomes: seq<DialOutcome>)
    returns (openPorts: seq<int>, closedPorts: seq<int>, filteredPorts: seq<int>)
    requires |outcomes| == |ports|
    ensures openPorts == Select(ports, outcomes, Connected)
    ensures closedPorts == Select(ports, outcomes, DialFailed)
    ensures filteredPorts == Select(ports, outcomes, DialTimeout)
  {
    openPorts, closedPorts, filteredPorts := [], [], [];
    var i := 0;
    while i < |ports|
      invariant 0 <= i <= |ports|
      invariant openPorts == Select(ports[..i], outcomes[..i], Connected)
      invariant closedPorts == Select(ports[..i], outcomes[..i], DialFailed)
      invariant filteredPorts == Select(ports[..i], outcomes[..i], DialTimeout)
    {
      assert ports[..i + 1][..i] == ports[..i] && outcomes[..i + 1][..i] == outcomes[..i];
      match outcomes[i] {
        case DialTimeout => filteredPorts := filteredPorts + [ports[i]];
        case DialFailed => closedPorts := closedPorts + [ports[i]];
        case Connected => openPorts := openPorts + [ports[i]];
      }
      i := i + 1;
    }
    assert ports[..i] == ports && outcomes[..i] == outcomes;
  }

  /** A port is in a list exactly when some position holding it had that
      outcome. */
  lemma {:induction false} SelectMembership(ports: seq<int>, outcomes: seq<DialOutcome>, want: DialOutcome, p: int)
    requires |outcomes| == |ports|
    ensures p in Select(ports, outcomes, want) <==> exists i :: 0 <= i < |ports| && ports[i] == p && outcomes[i] == want
    decreases |ports|
  {
    if ports != [] {
      var n := |ports| - 1;
      SelectMembership(ports[..n], outcomes[..n], want, p);
      if exists i :: 0 <= i < n && ports[..n][i] == p && outcomes[..n][i] == want {
        var i :| 0 <= i < n && ports[..n][i] == p && outcomes[..n][i] == want;
        assert ports[i] == p && outcomes[i] == want;
      }
      if exists i :: 0 <= i < |ports| && ports[i] == p && outcomes[i] == want {
        var i :| 0 <= i < |ports| && ports[i] == p && outcomes[i] == want;
        if i < n {
          assert ports[..n][i] == p && outcomes[..n][i] == want;
        }
      }
    }
  }

  /** The lists keep input order: selecting from two stretches of input one
      after the other is selecting from each and concatenating. */
  lemma {:induction false} SelectKeepsOrder(ports: seq<int>, outcomes: seq<DialOutcome>,
                                            ports': seq<int>, outcomes': seq<DialOutcome>, want: DialOutcome)
    requires |outcomes| == |ports| && |outcomes'| == |ports'|
    ensures Select(ports + ports', outcomes + outcomes', want)
         == Select(ports, outcomes, want) + Select(ports', outcomes', want)
    decreases |ports'|
  {
    if ports' == [] {
      assert ports + ports' == ports && outcomes + outcomes' == outcomes;
    } else {
      var n := |ports'| - 1;
      var all, allOutcomes := ports + ports', outcomes + outcomes';
      assert all[..|all| - 1] == ports + ports'[..n];
      assert allOutcomes[..|all| - 1] == outcomes + outcomes'[..n];
      SelectKeepsOrder(ports, outcomes, ports'[..n], outcomes'[..n], want);
    }
  }

  /** Every port lands in exactly one list: the three lists together hold the
      input ports with their multiplicities. */
  lemma {:induction false} PartitionIsComplete(ports: seq<int>, outcomes: seq<DialOutcome>)
    requires |outcomes| == |ports|
    ensures multiset(Select(ports, outcomes, Connected)) + multiset(Select(ports, outcomes, DialFailed))
            + multiset(Select(ports, outcomes, DialTimeout)) == multiset(ports)
    decreases |ports|
  {
    if ports != [] {
      var n := |ports| - 1;
      var pre, preOutcomes, p := ports[..n], outcomes[..n], ports[n];
      PartitionIsComplete(pre, preOutcomes);
      var c, f, t := Select(pre, preOutcomes, Connected), Select(pre, preOutcomes, DialFailed),
                     Select(pre, preOutcomes, DialTimeout);
      assert multiset(ports) == multiset(pre) + multiset{p} by { assert ports == pre + [p]; }
      var mc, mf, mt := multiset(Select(ports, outcomes, Connected)), multiset(Select(ports, outcomes, DialFailed)),
                        multiset(Select(ports, outcomes, DialTimeout));
      match outcomes[n] {
        case Connected =>
          assert mc == multiset(c) + multiset{p} by { assert Select(ports, outcomes, Connected) == c + [p]; }
          assert mf == multiset(f) && mt == multiset(t);
        case DialFailed =>
          assert mf == multiset(f) + multiset{p} by { assert Select(ports, outcomes, DialFailed) == f + [p]; }
          assert mc == multiset(c) && mt == multiset(t);
        case DialTimeout =>
          assert mt == multiset(t) + multiset{p} by { assert Select(ports, outcomes, DialTimeout) == t + [p]; }
          assert mc == multiset(c) && mf == multiset(f);
      }
    }
  }

  /** In particular the three lists together are as long as the input. */
  lemma PartitionLengths(ports: seq<int>, outcomes: seq<DialOutcome>)
    requires |outcomes| == |ports|
    ensures |Select(ports, outcomes, Connected)| + |Select(ports, outcomes, DialFailed)|
            + |Select(ports, outcomes, DialTimeout)| == |ports|
  {
    PartitionIsComplete(ports, outcomes);
    var c, f, t := Select(ports, outcomes, Connected), Select(ports, outcomes, DialFailed),
                   Select(ports, outcomes, DialTimeout);
    assert |multiset(c) + multiset(f) + multiset(t)| == |multiset(ports)|;
  }
}

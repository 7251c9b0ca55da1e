/** The ephemeral source-port allocator (factory/utils.go): a table of ports
    already handed out or found busy, a bounded number of random draws from
    the dynamic range, and release. The random generator and the bind test
    (net.Listen) are oracles: draw k and bind result k are the ones try k sees.
    The mutex around the table is not modelled; the methods run one at a time. */
module Allocator {
  import opened Common

  /** Start and end of the dynamic/private port range. */
  const MinPort: Port := 49152
  const MaxPort: Port := 65535

  /** GenerateRandomPort gives up after this many draws. */
  const MaxTries: nat := 100

  /** A value of rng.Intn(maxPort - minPort + 1). */
  type Sample = x: int | 0 <= x < 16384

  /** uint16(draw) + minPort. The largest draw lands exactly on maxPort, so the
      16-bit addition never wraps. */
  function SampledPort(s: Sample): (p: Port)
    ensures MinPort <= p <= MaxPort
  {
    MinPort + s
  }

  /** The outcome of an allocation: the port returned (0 on failure), whether
      it succeeded, the table afterwards and the number of draws consumed. */
  datatype Allocation = Allocation(port: Port, ok: bool, used: set<Port>, tries: nat)

  /** The ports drawn by tries lo up to (not including) hi. */
  function Drawn(samples: seq<Sample>, lo: nat, hi: nat): set<Port>
    requires lo <= hi <= |samples|
  {
    set k | lo <= k < hi :: SampledPort(samples[k])
  }

  /** What GenerateRandomPort does from try number `tries` on, starting with
      the table `used`: a drawn port already in the table is skipped, a drawn
      port whose bind fails is added to the table and skipped, and the first
      drawn port that binds is added and returned. */
  function Allocate(used: set<Port>, samples: seq<Sample>, binds: seq<bool>, tries: nat): (a: Allocation)
    requires tries <= MaxTries <= |samples| && MaxTries <= |binds|
    ensures tries <= a.tries <= MaxTries
    ensures a.used == used + Drawn(samples, tries, a.tries)
    ensures a.ok ==> tries < a.tries && a.port == SampledPort(samples[a.tries - 1])
                     && binds[a.tries - 1] && a.port !in used && a.port in a.used
    ensures !a.ok ==> a.port == 0 && a.tries == MaxTries
    decreases MaxTries - tries
  {
    if tries == MaxTries then
      Allocation(0, false, used, tries)
    else
      var port := SampledPort(samples[tries]);
      if port in used then
        var a := Allocate(used, samples, binds, tries + 1);
        assert Drawn(samples, tries, a.tries) == {port} + Drawn(samples, tries + 1, a.tries);
        a
      else if !binds[tries] then
        var a := Allocate(used + {port}, samples, binds, tries + 1);
        assert Drawn(samples, tries, a.tries) == {port} + Drawn(samples, tries + 1, a.tries);
        a
      else
        assert Drawn(samples, tries, tries + 1) == {port};
        Allocation(port, true, used + {port}, tries + 1)
  }

  /** A port is handed out only from the dynamic range and never while it is in
      the table; the table only grows. */
  lemma AllocateFreshInRange(used: set<Port>, samples: seq<Sample>, binds: seq<bool>)
    requires MaxTries <= |samples| && MaxTries <= |binds|
    ensures var a := Allocate(used, samples, binds, 0);
      && used <= a.used
      && (a.ok ==> MinPort <= a.port <= MaxPort && a.port !in used)
  {
  }

  /** A drawn port whose bind fails ends up in the table and is not returned:
      if the first draw fails to bind, the call behaves like one that starts at
      the second draw with that port already in the table. */
  lemma {:induction false} FailedBindIsMarked(used: set<Port>, samples: seq<Sample>, binds: seq<bool>)
    requires MaxTries <= |samples| && MaxTries <= |binds|
    requires SampledPort(samples[0]) !in used && !binds[0]
    ensures var a := Allocate(used, samples, binds, 0);
      && SampledPort(samples[0]) in a.used
      && a == Allocate(used + {SampledPort(samples[0])}, samples, binds, 1)
      && (a.ok ==> a.port != SampledPort(samples[0]))
  {
    var a := Allocate(used, samples, binds, 0);
    assert 0 < a.tries;
  }

  /** When every draw hits the table or fails to bind, all 100 draws are used
      and the call fails with port 0. */
  lemma {:induction false} ExhaustedAfterMaxTries(used: set<Port>, samples: seq<Sample>, binds: seq<bool>, tries: nat)
    requires tries <= MaxTries <= |samples| && MaxTries <= |binds|
    requires forall k :: tries <= k < MaxTries ==> !binds[k]
    ensures var a := Allocate(used, samples, binds, tries);
      !a.ok && a.port == 0 && a.tries == MaxTries
    decreases MaxTries - tries
  {
    if tries < MaxTries {
      var port := SampledPort(samples[tries]);
      ExhaustedAfterMaxTries(if port in used then used else used + {port}, samples, binds, tries + 1);
    }
  }

  /** A released port can be handed out again: once it is out of the table, a
      draw that lands on it and binds returns it. */
  lemma ReleasedPortIsEligible(used: set<Port>, port: Port, samples: seq<Sample>, binds: seq<bool>)
    requires MaxTries <= |samples| && MaxTries <= |binds|
    requires SampledPort(samples[0]) == port && binds[0]
    ensures var a := Allocate(used - {port}, samples, binds, 0);
      a.ok && a.port == port && a.used == used + {port} && a.tries == 1
  {
  }

  datatype AllocError = Exhausted

  /** The process-wide table of ports in use (usedPorts). */
  class PortTable {
    var used: set<Port>

    constructor ()
      ensures used == {}
    {
      used := {};
    }

    /** GenerateRandomPort: up to 100 draws; the port found, or 0 and an error. */
    method GenerateRandomPort(samples: seq<Sample>, binds: seq<bool>) returns (port: Port, err: Option<AllocError>)
      requires MaxTries <= |samples| && MaxTries <= |binds|
      modifies this
      ensures var a := Allocate(old(used), samples, binds, 0);
        used == a.used && port == a.port && (err.None? <==> a.ok)
    {
      var tries := 0;
      while tries < MaxTries
        invariant 0 <= tries <= MaxTries
        invariant Allocate(old(used), samples, binds, 0) == Allocate(used, samples, binds, tries)
      {
        var candidate := SampledPort(samples[tries]);
        if candidate in used {
          tries := tries + 1;
          continue;
        }
        if !binds[tries] {
          used := used + {candidate};
          tries := tries + 1;
          continue;
        }
        used := used + {candidate};
        return candidate, None;
      }
      return 0, Some(Exhausted);
    }

    /** ReleasePort: the port leaves the table and nothing else changes;
        releasing a port that is not in the table changes nothing. */
    method ReleasePort(port: Port)
      modifies this
      ensures used == old(used) - {port}
      ensures port !in old(used) ==> used == old(used)
    {
      used := used - {port};
    }
  }
}

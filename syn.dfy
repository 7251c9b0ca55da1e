/** The SYN scan engine (scanner/syn.go): classifying the reply to one probe
    from the frames the capture delivers, running one probe, and collecting one
    state per destination port.

    The capture is modelled by what reaches the read loop: a sequence of
    arrivals, each a frame and the time it arrived after the loop started
    waiting for it. The loop arms a fresh timer on every iteration, so a frame
    is received when it arrives before `timeout` has elapsed since the previous
    one; otherwise the timer fires first. When the capture delivers nothing
    more, the timer fires. Opening the capture, installing its BPF filter and
    the raw send are I/O; their success or failure is an input. */
module Syn {
  import opened Common
  import opened Tcp
  import opened Allocator

  // ----- port states -----

  const Open: string := "open"
  const Closed: string := "closed"
  const Filtered: string := "filtered"
  const Error: string := "error"

  predicate IsPortState(s: string) {
    s == Open || s == Closed || s == Filtered || s == Error
  }

  // ----- captured frames -----

  /** The TCP layer of a captured frame: ports and control flags. */
  datatype Segment = Segment(srcPort: Port, dstPort: Port, flags: TcpFlags)

  /** What packetSource.Packets() hands over: nil, a packet without a TCP
      layer, or a packet with one. */
  datatype Frame = NilPacket | NoTcpLayer | TcpFrame(seg: Segment)

  /** A frame and how long after the previous iteration it arrived. */
  datatype Arrival = Arrival(delay: nat, frame: Frame)

  /** The frame arrives before the timer armed for it fires. */
  predicate Received(a: Arrival, timeout: int) {
    a.delay < timeout
  }

  /** A TCP frame from the probed port back to the scan's source port. */
  predicate IsReply(f: Frame, srcPort: Port, dstPort: Port) {
    f.TcpFrame? && f.seg.srcPort == dstPort && f.seg.dstPort == srcPort
  }

  /** The loop goes on past this arrival: it came in time and is not a reply.
      Nil packets, packets without a TCP layer and TCP packets for other ports
      are all passed over. */
  predicate Skipped(a: Arrival, srcPort: Port, dstPort: Port, timeout: int) {
    Received(a, timeout) && !IsReply(a.frame, srcPort, dstPort)
  }

  /** The state a reply's flags give: SYN with ACK means open (checked first,
      so whatever RST says), else RST means closed, else filtered. */
  function ClassifyFlags(f: TcpFlags): (s: string)
    ensures s == Open <==> f.syn && f.ack
    ensures s == Closed <==> f.rst && !(f.syn && f.ack)
    ensures s == Filtered <==> !f.rst && !(f.syn && f.ack)
  {
    if f.syn && f.ack then Open
    else if f.rst then Closed
    else Filtered
  }

  /** The state decided by an arrival that is not skipped: a timer that fired
      gives filtered, a reply is classified by its flags. */
  function Decision(a: Arrival, srcPort: Port, dstPort: Port, timeout: int): string
    requires !Skipped(a, srcPort, dstPort, timeout)
  {
    if !Received(a, timeout) then Filtered else ClassifyFlags(a.frame.seg.flags)
  }

  /** The state the read loop settles on for a sequence of arrivals. */
  function Await(arrivals: seq<Arrival>, srcPort: Port, dstPort: Port, timeout: int): (s: string)
    ensures s == Open || s == Closed || s == Filtered
    decreases |arrivals|
  {
    if arrivals == [] then Filtered
    else if Skipped(arrivals[0], srcPort, dstPort, timeout) then Await(arrivals[1..], srcPort, dstPort, timeout)
    else Decision(arrivals[0], srcPort, dstPort, timeout)
  }

  /** Skipped arrivals never determine the state: Await over them and then
      more arrivals is Await over the rest. */
  lemma {:induction false} AwaitPassesOver(skipped: seq<Arrival>, rest: seq<Arrival>, srcPort: Port, dstPort: Port, timeout: int)
    requires forall k :: 0 <= k < |skipped| ==> Skipped(skipped[k], srcPort, dstPort, timeout)
    ensures Await(skipped + rest, srcPort, dstPort, timeout) == Await(rest, srcPort, dstPort, timeout)
    decreases |skipped|
  {
    if skipped != [] {
      assert (skipped + rest)[0] == skipped[0];
      assert (skipped + rest)[1..] == skipped[1..] + rest;
      AwaitPassesOver(skipped[1..], rest, srcPort, dstPort, timeout);
    } else {
      assert skipped + rest == rest;
    }
  }

  /** Only the first arrival that is not skipped is examined: it decides the
      state, whatever follows it. */
  lemma FirstDecisiveArrivalDecides(skipped: seq<Arrival>, a: Arrival, rest: seq<Arrival>, srcPort: Port, dstPort: Port, timeout: int)
    requires forall k :: 0 <= k < |skipped| ==> Skipped(skipped[k], srcPort, dstPort, timeout)
    requires !Skipped(a, srcPort, dstPort, timeout)
    ensures Await(skipped + [a] + rest, srcPort, dstPort, timeout) == Decision(a, srcPort, dstPort, timeout)
  {
    assert skipped + [a] + rest == skipped + ([a] + rest);
    AwaitPassesOver(skipped, [a] + rest, srcPort, dstPort, timeout);
  }

  /** Arrivals that are all skipped leave the loop waiting until its timer
      fires: filtered. */
  lemma AllSkippedIsFiltered(skipped: seq<Arrival>, srcPort: Port, dstPort: Port, timeout: int)
    requires forall k :: 0 <= k < |skipped| ==> Skipped(skipped[k], srcPort, dstPort, timeout)
    ensures Await(skipped, srcPort, dstPort, timeout) == Filtered
  {
    assert skipped + [] == skipped;
    AwaitPassesOver(skipped, [], srcPort, dstPort, timeout);
  }

  /** When the timer fires before any reply has arrived, the state is
      filtered: the frames passed over before it change nothing. */
  lemma TimeoutBeforeReplyIsFiltered(skipped: seq<Arrival>, late: Arrival, rest: seq<Arrival>, srcPort: Port, dstPort: Port, timeout: int)
    requires forall k :: 0 <= k < |skipped| ==> Skipped(skipped[k], srcPort, dstPort, timeout)
    requires !Received(late, timeout)
    ensures Await(skipped + [late] + rest, srcPort, dstPort, timeout) == Filtered
  {
    FirstDecisiveArrivalDecides(skipped, late, rest, srcPort, dstPort, timeout);
  }

  /** The index of the first arrival that is not skipped, if any. */
  function FirstDecisive(arrivals: seq<Arrival>, srcPort: Port, dstPort: Port, timeout: int): (i: nat)
    ensures i <= |arrivals|
    ensures forall k :: 0 <= k < i ==> Skipped(arrivals[k], srcPort, dstPort, timeout)
    ensures i < |arrivals| ==> !Skipped(arrivals[i], srcPort, dstPort, timeout)
    decreases |arrivals|
  {
    if arrivals == [] || !Skipped(arrivals[0], srcPort, dstPort, timeout) then 0
    else 1 + FirstDecisive(arrivals[1..], srcPort, dstPort, timeout)
  }

  /** The port is reported open exactly when the first arrival that is not
      skipped is a reply, received in time, carrying SYN and ACK. */
  lemma OpenIffFirstReplySynAck(arrivals: seq<Arrival>, srcPort: Port, dstPort: Port, timeout: int)
    ensures Await(arrivals, srcPort, dstPort, timeout) == Open
        <==> exists i :: 0 <= i < |arrivals|
               && (forall k :: 0 <= k < i ==> Skipped(arrivals[k], srcPort, dstPort, timeout))
               && Received(arrivals[i], timeout) && IsReply(arrivals[i].frame, srcPort, dstPort)
               && arrivals[i].frame.seg.flags.syn && arrivals[i].frame.seg.flags.ack
  {
    var i := FirstDecisive(arrivals, srcPort, dstPort, timeout);
    if i < |arrivals| {
      assert arrivals == arrivals[..i] + [arrivals[i]] + arrivals[i + 1..];
      FirstDecisiveArrivalDecides(arrivals[..i], arrivals[i], arrivals[i + 1..], srcPort, dstPort, timeout);
    } else {
      assert arrivals[..i] == arrivals;
      AllSkippedIsFiltered(arrivals, srcPort, dstPort, timeout);
    }
    // Any index with the property is the first decisive one.
    forall j | 0 <= j < |arrivals|
        && (forall k :: 0 <= k < j ==> Skipped(arrivals[k], srcPort, dstPort, timeout))
        && Received(arrivals[j], timeout) && IsReply(arrivals[j].frame, srcPort, dstPort)
      ensures j == i
    {
    }
  }

  /** The timer is re-armed for every frame, so a reply that comes after any
      number of passed-over frames still counts, however long the whole wait
      was: here two waits of timeout - 1 each. */
  lemma TimerRestartsOnEveryFrame(srcPort: Port, dstPort: Port, timeout: nat)
    requires timeout >= 3
    ensures var synAck := TcpFlags(false, true, false, false, true, false, false, false, false);
      var arrivals := [Arrival(timeout - 1, NilPacket), Arrival(timeout - 1, TcpFrame(Segment(dstPort, srcPort, synAck)))];
      arrivals[0].delay + arrivals[1].delay > timeout
      && Await(arrivals, srcPort, dstPort, timeout) == Open
  {
    var synAck := TcpFlags(false, true, false, false, true, false, false, false, false);
    var arrivals := [Arrival(timeout - 1, NilPacket), Arrival(timeout - 1, TcpFrame(Segment(dstPort, srcPort, synAck)))];
    assert arrivals[1..] == [arrivals[1]];
  }

  // ----- reading the reply -----

  /** Why opening the capture failed: no usable interface, pcap.OpenLive
      failed, or the BPF filter could not be installed. */
  datatype CaptureError = NoInterface | OpenFailed | FilterFailed

  /** The outcome of setting up the capture. */
  datatype CaptureSetup = CaptureReady | CaptureFailed(reason: CaptureError)

  /** ReadSYNACKResponse: a setup failure is returned as an error; otherwise
      frames are read one at a time until a reply or the timer decides. */
  method ReadSynAckResponse(setup: CaptureSetup, arrivals: seq<Arrival>, srcPort: Port, dstPort: Port, timeout: int)
    returns (r: Result<string, CaptureError>)
    ensures setup.CaptureFailed? ==> r == Err(setup.reason)
    ensures setup.CaptureReady? ==> r == Ok(Await(arrivals, srcPort, dstPort, timeout))
  {
    if setup.CaptureFailed? {
      return Err(setup.reason);
    }
    var i := 0;
    while i < |arrivals|
      invariant 0 <= i <= |arrivals|
      invariant Await(arrivals[i..], srcPort, dstPort, timeout) == Await(arrivals, srcPort, dstPort, timeout)
    {
      var a := arrivals[i];
      assert arrivals[i..][0] == a && arrivals[i..][1..] == arrivals[i + 1..];
      if a.delay >= timeout {
        return Ok(Filtered);
      }
      match a.frame {
        case NilPacket =>
          i := i + 1;
        case NoTcpLayer =>
          i := i + 1;
        case TcpFrame(seg) =>
          if seg.srcPort != dstPort || seg.dstPort != srcPort {
            i := i + 1;
          } else if seg.flags.syn && seg.flags.ack {
            return Ok(Open);
          } else if seg.flags.rst {
            return Ok(Closed);
          } else {
            return Ok(Filtered);
          }
      }
    }
    assert arrivals[i..] == [];
    return Ok(Filtered);
  }

  // ----- one probe -----

  /** The inputs a probe's I/O would supply: the random initial sequence
      number and the clock for the packet, whether gopacket serialised it,
      whether the raw send succeeded, the capture setup and what it captured. */
  datatype Probe = Probe(isn: U32, unixTime: int, serialized: bool, sent: bool,
                         setup: CaptureSetup, arrivals: seq<Arrival>)

  /** The state one probe reports: "error" when the packet cannot be
      serialised, cannot be sent or the capture cannot be opened; otherwise
      the state the read loop settles on. */
  function ProbeStatus(srcPort: Port, dstPort: Port, timeout: int, probe: Probe): string
  {
    if !probe.serialized || !probe.sent || probe.setup.CaptureFailed? then Error
    else Await(probe.arrivals, srcPort, dstPort, timeout)
  }

  /** A probe reports "error" exactly on a build, send or capture failure, and
      otherwise one of open, closed and filtered. */
  lemma ProbeStatusError(srcPort: Port, dstPort: Port, timeout: int, probe: Probe)
    ensures var s := ProbeStatus(srcPort, dstPort, timeout, probe);
      && IsPortState(s)
      && (s == Error <==> !probe.serialized || !probe.sent || probe.setup.CaptureFailed?)
  {
  }

  /** One probe goroutine: build the SYN packet, send it, then read the reply.
      Returns the state and the packet handed to the raw send, if any. */
  method RunProbe(srcIP: IPv4, dstIP: IPv4, srcPort: Port, dstPort: Port, timeout: int, probe: Probe)
    returns (status: string, packet: Option<SynPacket>)
    ensures status == ProbeStatus(srcPort, dstPort, timeout, probe)
    ensures packet == if probe.serialized
                      then Some(CreateSynPacket(srcIP, dstIP, srcPort, dstPort, probe.isn, probe.unixTime))
                      else None
  {
    var p := CreateSynPacket(srcIP, dstIP, srcPort, dstPort, probe.isn, probe.unixTime);
    if !probe.serialized {
      return Error, None;
    }
    packet := Some(p);
    if !probe.sent {
      return Error, packet;
    }
    var r := ReadSynAckResponse(probe.setup, probe.arrivals, srcPort, dstPort, timeout);
    match r {
      case Err(_) => status := Error;
      case Ok(s) => status := s;
    }
  }

  // ----- the whole scan -----

  /** The packets handed to the raw send, in launch order. */
  function SentPackets(srcIP: IPv4, dstIP: IPv4, srcPort: Port, ports: seq<Port>, probes: seq<Probe>): seq<SynPacket>
    requires |probes| == |ports|
    decreases |ports|
  {
    if ports == [] then []
    else
      var n := |ports| - 1;
      var earlier := SentPackets(srcIP, dstIP, srcPort, ports[..n], probes[..n]);
      if probes[n].serialized
      then earlier + [CreateSynPacket(srcIP, dstIP, srcPort, ports[n], probes[n].isn, probes[n].unixTime)]
      else earlier
  }

  /** Every probe of one scan carries the scan's single source port and is
      addressed to one of the requested ports, and one packet is sent per packet
      that could be built. */
  lemma {:induction false} SentPacketsShareSourcePort(srcIP: IPv4, dstIP: IPv4, srcPort: Port, ports: seq<Port>, probes: seq<Probe>)
    requires |probes| == |ports|
    ensures var sent := SentPackets(srcIP, dstIP, srcPort, ports, probes);
      && |sent| <= |ports|
      && forall k :: 0 <= k < |sent| ==>
           sent[k].tcp.srcPort == srcPort && sent[k].tcp.dstPort in ports
           && sent[k].ip.srcIP == srcIP && sent[k].ip.dstIP == dstIP && OnlySyn(sent[k].tcp.flags)
    decreases |ports|
  {
    if ports != [] {
      var n := |ports| - 1;
      SentPacketsShareSourcePort(srcIP, dstIP, srcPort, ports[..n], probes[..n]);
      assert forall p :: p in ports[..n] ==> p in ports;
    }
  }

  /** Scan after the source port is found: one probe per requested port, and
      one state per port collected into the result map. The goroutines are run
      one after another in the order the ports are listed. */
  method ProbePorts(srcIP: IPv4, dstIP: IPv4, srcPort: Port, ports: seq<Port>, timeout: int, probes: seq<Probe>)
    returns (results: map<Port, string>, sent: seq<SynPacket>)
    requires |probes| == |ports|
    ensures results.Keys == set p | p in ports
    ensures forall p :: p in results ==> IsPortState(results[p])
    ensures forall p :: p in results ==>
              exists i :: 0 <= i < |ports| && ports[i] == p && results[p] == ProbeStatus(srcPort, p, timeout, probes[i])
    ensures sent == SentPackets(srcIP, dstIP, srcPort, ports, probes)
  {
    results := map[];
    sent := [];
    var i := 0;
    while i < |ports|
      invariant 0 <= i <= |ports|
      invariant results.Keys == set p | p in ports[..i]
      invariant forall p :: p in results ==>
                  exists j :: 0 <= j < i && ports[j] == p && results[p] == ProbeStatus(srcPort, p, timeout, probes[j])
      invariant sent == SentPackets(srcIP, dstIP, srcPort, ports[..i], probes[..i])
    {
      var status, packet := RunProbe(srcIP, dstIP, srcPort, ports[i], timeout, probes[i]);
      ProbeStatusError(srcPort, ports[i], timeout, probes[i]);
      if packet.Some? {
        sent := sent + [packet.value];
      }
      results := results[ports[i] := status];
      assert ports[..i + 1][..i] == ports[..i] && probes[..i + 1][..i] == probes[..i];
      assert ports[..i + 1] == ports[..i] + [ports[i]];
      i := i + 1;
    }
    assert ports[..i] == ports && probes[..i] == probes;
    forall p | p in results ensures IsPortState(results[p]) {
      var j :| 0 <= j < |ports| && ports[j] == p && results[p] == ProbeStatus(srcPort, p, timeout, probes[j]);
      ProbeStatusError(srcPort, p, timeout, probes[j]);
    }
  }

  /** Scan: find one source port for the whole scan, then probe every port.
      When no source port can be found the result is nil and nothing is sent.
      The source port is not released afterwards. */
  method Scan(table: PortTable, srcIP: IPv4, dstIP: IPv4, ports: seq<Port>, timeout: int,
              samples: seq<Sample>, binds: seq<bool>, probes: seq<Probe>)
    returns (results: Option<map<Port, string>>, sent: seq<SynPacket>)
    requires MaxTries <= |samples| && MaxTries <= |binds| && |probes| == |ports|
    modifies table
    ensures var a := Allocate(old(table.used), samples, binds, 0);
      && table.used == a.used
      && (!a.ok ==> results == None && sent == [])
      && (a.ok ==> results.Some?
                   && results.value.Keys == (set p | p in ports)
                   && (forall p :: p in results.value ==> IsPortState(results.value[p]))
                   && (forall p :: p in results.value ==>
                         exists i :: 0 <= i < |ports| && ports[i] == p
                                     && results.value[p] == ProbeStatus(a.port, p, timeout, probes[i]))
                   && sent == SentPackets(srcIP, dstIP, a.port, ports, probes))
  {
    var srcPort, err := table.GenerateRandomPort(samples, binds);
    if err.Some? {
      return None, [];
    }
    var m;
    m, sent := ProbePorts(srcIP, dstIP, srcPort, ports, timeout, probes);
    results := Some(m);
  }
}

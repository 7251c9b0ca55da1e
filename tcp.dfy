/** The SYN probe the packet factory builds (factory/tcp.go): the IPv4 and TCP
    header records CreateSYNPacket fills in, the TCP options it lists, and the
    big-endian timestamp option data. Serialising the records to bytes and
    computing checksums is done by the gopacket library and is not modelled;
    the record is what the factory decides. */
module Tcp {
  import opened Common

  type IPv4 = s: seq<Byte> | |s| == 4 witness [0, 0, 0, 0]

  /** IP protocol number of TCP. */
  const IPProtocolTCP: Byte := 6

  // TCP option kinds, as IANA assigns them.
  const OptionEndList: Byte := 0
  const OptionNop: Byte := 1
  const OptionMSS: Byte := 2
  const OptionWindowScale: Byte := 3
  const OptionSACKPermitted: Byte := 4
  const OptionTimestamps: Byte := 8

  datatype TcpFlags = TcpFlags(fin: bool, syn: bool, rst: bool, psh: bool, ack: bool,
                               urg: bool, ece: bool, cwr: bool, ns: bool)

  /** One entry of the TCP options list: kind, declared length, data. */
  datatype TcpOption = TcpOption(kind: Byte, length: Byte, data: seq<Byte>)

  /** The IPv4 header fields the factory sets; ipFlags, tos, id and fragOffset
      keep Go's zero value. Total length and checksum are filled in by gopacket. */
  datatype Ipv4Header = Ipv4Header(version: Byte, ihl: Byte, tos: Byte, id: U16, ipFlags: Byte,
                                   fragOffset: U16, ttl: Byte, protocol: Byte,
                                   srcIP: IPv4, dstIP: IPv4)

  /** The TCP header fields the factory sets. Data offset and checksum are
      filled in by gopacket. */
  datatype TcpHeader = TcpHeader(srcPort: Port, dstPort: Port, seqNum: U32, ack: U32,
                                 flags: TcpFlags, window: U16, urgent: U16,
                                 options: seq<TcpOption>)

  datatype SynPacket = SynPacket(ip: Ipv4Header, tcp: TcpHeader)

  // ----- big-endian integers -----

  /** binary.BigEndian.PutUint32: the four octets of v, most significant first. */
  function PutUint32(v: U32): (b: seq<Byte>)
    ensures |b| == 4
  {
    var b3 := v % 256;
    var v1 := v / 256;
    var b2 := v1 % 256;
    var v2 := v1 / 256;
    [v2 / 256, v2 % 256, b2, b3]
  }

  /** The number two octets denote in network byte order. */
  function BigEndian16(b: seq<Byte>): U16
    requires |b| == 2
  {
    (b[0] as int) * 256 + b[1]
  }

  /** The number four octets denote in network byte order. */
  function BigEndian32(b: seq<Byte>): U32
    requires |b| == 4
  {
    (((b[0] as int) * 256 + b[1]) * 256 + b[2]) * 256 + b[3]
  }

  lemma PutUint32Decodes(v: U32)
    ensures BigEndian32(PutUint32(v)) == v
  {
    var v1 := v / 256;
    var v2 := v1 / 256;
    assert v == v1 * 256 + v % 256;
    assert v1 == v2 * 256 + v1 % 256;
    assert v2 == (v2 / 256) * 256 + v2 % 256;
  }

  lemma PutUint32Encodes(b: seq<Byte>)
    requires |b| == 4
    ensures PutUint32(BigEndian32(b)) == b
  {
    var hi: int := (b[0] as int) * 256 + b[1];
    var mid: int := hi * 256 + b[2];
    var v: int := mid * 256 + b[3];
    assert v % 256 == b[3] && v / 256 == mid;
    assert mid % 256 == b[2] && mid / 256 == hi;
    assert hi % 256 == b[1] && hi / 256 == b[0];
  }

  // ----- the timestamp option -----

  /** uint32(x) for a Go int64 x: its low 32 bits. */
  function Uint32(x: int): U32
  {
    x % 0x1_0000_0000
  }

  /** generateTimestampOption: TSval, the Unix time in seconds cut to 32 bits,
      then TSecr = 0, each as four big-endian octets. */
  function GenerateTimestampOption(unixTime: int): (data: seq<Byte>)
    ensures |data| == 8
    ensures BigEndian32(data[..4]) == Uint32(unixTime)
    ensures data[4..] == [0, 0, 0, 0]
  {
    var tsVal := PutUint32(Uint32(unixTime));
    var tsEcr := PutUint32(0);
    PutUint32Decodes(Uint32(unixTime));
    assert (tsVal + tsEcr)[..4] == tsVal;
    tsVal + tsEcr
  }

  // ----- options -----

  /** The kind of each option, in order. */
  function Kinds(options: seq<TcpOption>): seq<Byte>
  {
    seq(|options|, k requires 0 <= k < |options| => options[k].kind)
  }

  /** No-op and End-of-List are a single octet on the wire; every other option
      is kind, length and data. */
  predicate IsSingleOctet(kind: Byte) {
    kind == OptionNop || kind == OptionEndList
  }

  /** The declared length matches the data: one octet for a single-octet option
      (which carries no data), and two plus the data for any other. */
  predicate LengthConsistent(o: TcpOption) {
    if IsSingleOctet(o.kind) then o.length == 1 && o.data == [] else o.length == 2 + |o.data|
  }

  /** Octets the options list occupies on the wire. */
  function OptionsLength(options: seq<TcpOption>): nat
  {
    if options == [] then 0
    else (if IsSingleOctet(options[0].kind) then 1 else 2 + |options[0].data|) + OptionsLength(options[1..])
  }

  /** The length each kind must declare: 4 for Maximum Segment Size (section
      3.2 of RFC 9293), 2 for SACK-Permitted (section 2 of RFC 2018), 3 for
      Window Scale (section 2.2 of RFC 7323) with a shift of at most 14
      (section 2.3 of RFC 7323), and 10 for Timestamps (section 3.2 of
      RFC 7323). */
  predicate ConformsToRfc(o: TcpOption) {
    && (o.kind == OptionMSS ==> o.length == 4)
    && (o.kind == OptionSACKPermitted ==> o.length == 2)
    && (o.kind == OptionWindowScale ==> o.length == 3 && |o.data| == 1 && o.data[0] <= 14)
    && (o.kind == OptionTimestamps ==> o.length == 10)
  }

  /** An options list that fits a TCP header: at most 40 octets (the data
      offset counts at most 15 words of which 5 are the fixed header) and a
      whole number of 32-bit words (section 3.1 of RFC 9293). */
  predicate FitsHeader(options: seq<TcpOption>) {
    OptionsLength(options) <= 40 && OptionsLength(options) % 4 == 0
  }

  /** SYN set and every other control flag clear. */
  predicate OnlySyn(f: TcpFlags) {
    f.syn && !f.fin && !f.rst && !f.psh && !f.ack && !f.urg && !f.ece && !f.cwr && !f.ns
  }

  // ----- the packet -----

  /** CreateSYNPacket's header records for the given addresses and ports. The
      initial sequence number (rand.Uint32) and the clock (time.Now) are inputs. */
  function CreateSynPacket(srcIP: IPv4, dstIP: IPv4, srcPort: Port, dstPort: Port,
                           isn: U32, unixTime: int): (p: SynPacket)
    ensures p.ip.version == 4 && p.ip.ihl == 5 && p.ip.ttl == 64 && p.ip.protocol == IPProtocolTCP
    ensures p.ip.srcIP == srcIP && p.ip.dstIP == dstIP
    ensures p.tcp.srcPort == srcPort && p.tcp.dstPort == dstPort && p.tcp.seqNum == isn
    ensures OnlySyn(p.tcp.flags)
    ensures p.tcp.ack == 0 && p.tcp.urgent == 0 && p.tcp.window == 65535
    ensures Kinds(p.tcp.options) == [OptionMSS, OptionSACKPermitted, OptionTimestamps, OptionNop, OptionWindowScale]
    ensures forall k :: 0 <= k < |p.tcp.options| ==> LengthConsistent(p.tcp.options[k]) && ConformsToRfc(p.tcp.options[k])
    ensures OptionsLength(p.tcp.options) == 20 && FitsHeader(p.tcp.options)
    ensures |p.tcp.options[0].data| == 2 && BigEndian16(p.tcp.options[0].data) == 1460
    ensures p.tcp.options[4].data == [7]
    ensures |p.tcp.options[2].data| == 8 && BigEndian32(p.tcp.options[2].data[..4]) == Uint32(unixTime)
    ensures p.tcp.options[2].data[4..] == [0, 0, 0, 0]
  {
    var ip := Ipv4Header(4, 5, 0, 0, 0, 0, 64, IPProtocolTCP, srcIP, dstIP);
    var flags := TcpFlags(fin := false, syn := true, rst := false, psh := false, ack := false,
                          urg := false, ece := false, cwr := false, ns := false);
    var options := [
      TcpOption(OptionMSS, 4, [0x05, 0xb4]),
      TcpOption(OptionSACKPermitted, 2, []),
      TcpOption(OptionTimestamps, 10, GenerateTimestampOption(unixTime)),
      TcpOption(OptionNop, 1, []),
      TcpOption(OptionWindowScale, 3, [7])
    ];
    assert OptionsLength(options[4..]) == 3 by { assert options[4..][1..] == []; }
    assert OptionsLength(options[3..]) == 4 by { assert options[3..][1..] == options[4..]; }
    assert OptionsLength(options[2..]) == 14 by { assert options[2..][1..] == options[3..]; }
    assert OptionsLength(options[1..]) == 16 by { assert options[1..][1..] == options[2..]; }
    SynPacket(ip, TcpHeader(srcPort, dstPort, isn, 0, flags, 65535, 0, options))
  }

  /** The packet with the two values that vary between calls, the initial
      sequence number and TSval, set to zero. */
  function Fingerprint(p: SynPacket): SynPacket
  {
    var os := p.tcp.options;
    var masked := seq(|os|, k requires 0 <= k < |os| =>
      if os[k].kind == OptionTimestamps && |os[k].data| >= 4
      then os[k].(data := [0, 0, 0, 0] + os[k].data[4..])
      else os[k]);
    p.(tcp := p.tcp.(seqNum := 0, options := masked))
  }

  /** Apart from the sequence number and the timestamp value, the packet is
      determined by the two addresses and the two ports, and it determines them. */
  lemma FingerprintDeterminedByEndpoints(srcIP: IPv4, dstIP: IPv4, srcPort: Port, dstPort: Port,
                                         srcIP': IPv4, dstIP': IPv4, srcPort': Port, dstPort': Port,
                                         isn: U32, unixTime: int, isn': U32, unixTime': int)
    ensures Fingerprint(CreateSynPacket(srcIP, dstIP, srcPort, dstPort, isn, unixTime))
         == Fingerprint(CreateSynPacket(srcIP', dstIP', srcPort', dstPort', isn', unixTime'))
        <==> srcIP == srcIP' && dstIP == dstIP' && srcPort == srcPort' && dstPort == dstPort'
  {
    var p := CreateSynPacket(srcIP, dstIP, srcPort, dstPort, isn, unixTime);
    var p' := CreateSynPacket(srcIP', dstIP', srcPort', dstPort', isn', unixTime');
    var f, f' := Fingerprint(p), Fingerprint(p');
    if srcIP == srcIP' && dstIP == dstIP' && srcPort == srcPort' && dstPort == dstPort' {
      assert |f.tcp.options| == |f'.tcp.options| == 5;
      assert f.tcp.options[2].data == [0, 0, 0, 0, 0, 0, 0, 0] == f'.tcp.options[2].data;
      assert forall k :: 0 <= k < 5 ==> f.tcp.options[k] == f'.tcp.options[k];
    } else {
      assert f.ip.srcIP == srcIP && f'.ip.srcIP == srcIP';
      assert f.tcp.srcPort == srcPort && f'.tcp.srcPort == srcPort';
    }
  }
}

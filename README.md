# gomap core in Dafny

A model of the core of gomap, a TCP port scanner written in Go, with proofs
about that model. The project covers five parts:

- The SYN scan engine (`scanner/syn.go`). `Syn.Await` is the read loop
  inside `ReadSYNACKResponse`: it classifies the first captured frame that
  answers the probe, as open, closed or filtered. `Syn.ProbePorts` and
  `Syn.Scan` run one probe per requested port and collect one state per
  port.
- The source-port allocator (`factory/utils.go`). `Allocator.Allocate`
  is the draw-and-bind loop of `GenerateRandomPort` over the table of
  used ports. `Allocator.PortTable` keeps that table as a class field.
  Its methods `GenerateRandomPort` and `ReleasePort` update it in place.
- The SYN packet factory (`factory/tcp.go`). `Tcp.CreateSynPacket`
  states the header fields and the TCP options exactly.
  `Tcp.GenerateTimestampOption` states the big-endian timestamp data.
- Port-list handling on the command line (`gomapcli/ports.go`).
  `CliPorts.ParsePorts` parses one port or a range "a-b".
  `CliPorts.ScanPorts` sorts ports into open, closed and filtered lists.
- Service names (`services/services.go`). `Services.ParseServiceLine`
  reads one line of the nmap-services table. `Services.GetServices` and
  `Services.Contains` pick out the requested ports.

The module `GoText` models the Go standard-library functions these parsers
call: `strconv.Atoi`, `strconv.ParseUint(s, 10, 16)`, `strings.Cut`,
`strings.Split`, `strings.Fields`, `strings.HasPrefix` and
`bufio.ScanLines`. The model follows their documented behaviour.

Everything the program gets from the outside world becomes an input:

- random numbers (the port draws and the initial sequence number);
- the clock;
- the result of each `net.Listen`;
- whether serialising a packet, sending it and opening the capture
  succeeded;
- the frames the capture delivers, each with its arrival delay;
- the outcome of each dial;
- the text of the embedded services table.

Files: `common.dfy` (Option, Result, fixed-width integer types), `gotext.dfy`,
`tcp.dfy`, `alloc.dfy`, `syn.dfy`, `cliports.dfy`, `services.dfy`.

## Model

| member | source | states |
|---|---|---|
| GoText.Atoi | gomapcli/ports.go:43-62 | definition of strconv.Atoi on a 64-bit int: an optional '+' or '-' and at least one decimal digit, within the int64 range, and an error for anything else; its properties are stated by AtoiItoa and AtoiShape |
| GoText.ParseUint16 | services/services.go:68 | definition of strconv.ParseUint(s, 10, 16): one or more decimal digits, no sign, with a value of at most 65535; its round trip is stated by ParseUint16Decimal |
| GoText.AtoiItoa | gomapcli/ports.go:43 | every int64 written in decimal is read back by Atoi as itself |
| GoText.AtoiShape | gomapcli/ports.go:49 | text Atoi accepts is non-empty, ends in a digit and has digits at every position after the first (so no second '-') |
| GoText.ParseUint16Decimal | services/services.go:68 | ParseUint(s, 10, 16) reads the decimal form of every 16-bit number back as that number |
| GoText.DecimalRoundTrip | services/services.go:68 | the value of a number's decimal digits is the number |
| GoText.Cut | gomapcli/ports.go:39 | found exactly when the separator occurs; then the text is before + sep + after with no separator in before; otherwise before is the whole text and after is empty |
| GoText.IndexOfAfterPrefix | gomapcli/ports.go:39 | in w + sep + rest with no sep in w, the first separator is at position len(w) |
| GoText.Split | services/services.go:64 | one more piece than occurrences of the separator, and no piece contains the separator |
| GoText.JoinSplit | services/services.go:64 | joining the pieces of Split with the separator gives back the text |
| GoText.SplitAfterWord | services/services.go:64 | splitting w + sep + rest with sep not in w gives w followed by the pieces of rest |
| GoText.Fields | services/services.go:60 | every field is non-empty and contains no white space |
| GoText.FieldsAfterWord | services/services.go:60 | a space-free word followed by nothing or by white space is the first field, followed by the fields of the rest |
| GoText.FieldsAfterSpace | services/services.go:60 | a leading white-space character changes no field |
| GoText.ScanLines | services/services.go:53-56 | bufio.ScanLines: no line holds a newline |
| GoText.DropCR | services/services.go:56 | the line without its trailing carriage return is a prefix of the line |
| GoText.ScanLinesUnlines | services/services.go:53-56 | text made of newline-terminated lines that hold no newline and do not end in a carriage return scans back into exactly those lines |
| Tcp.PutUint32Decodes | factory/tcp.go:112 | the four big-endian octets PutUint32 writes denote the number written |
| Tcp.PutUint32Encodes | factory/tcp.go:115 | every four octets are what PutUint32 writes for the number they denote |
| Tcp.GenerateTimestampOption | factory/tcp.go:107-118 | eight octets: TSval, the Unix time cut to 32 bits, in big-endian order, then TSecr = 0 |
| Tcp.CreateSynPacket | factory/tcp.go:20-76 | IPv4 version 4, IHL 5, TTL 64, protocol TCP and the given addresses; the given ports; sequence number the random input; SYN as the only flag; ACK number 0, urgent pointer 0, window 65535; options MSS, SACK-Permitted, Timestamps, NOP and Window-Scale, in that order; every option's declared length matches its data and the RFC for its kind; 20 octets of options in all, so they fit the header; MSS 1460, window shift 7, and the timestamp data of GenerateTimestampOption |
| Tcp.FingerprintDeterminedByEndpoints | factory/tcp.go:20-76 | apart from the sequence number and TSval, two packets are equal exactly when their addresses and ports are |
| Allocator.SampledPort | factory/utils.go:42 | every port drawn lies in the dynamic range 49152..65535 |
| Allocator.Allocate | factory/utils.go:40-61 | at most 100 draws; the table grows by exactly the drawn ports; on success the port is the last draw, its bind succeeded, it was not already in the table and is in it now; on failure the port is 0 after all 100 draws |
| Allocator.AllocateFreshInRange | factory/utils.go:40-58 | an allocated port lies in the dynamic range and was not in the table before; the table only grows |
| Allocator.FailedBindIsMarked | factory/utils.go:49-53 | a draw whose bind fails is added to the table and not returned; the rest of the call behaves as if that port had been in the table from the start |
| Allocator.ExhaustedAfterMaxTries | factory/utils.go:40-61 | when every remaining bind fails, the call fails with port 0 after all 100 draws |
| Allocator.ReleasedPortIsEligible | factory/utils.go:76-80 | after a release, a draw that lands on the released port and binds returns it |
| Allocator.PortTable.constructor | factory/utils.go:19 | the table of used ports starts empty |
| Allocator.PortTable.GenerateRandomPort | factory/utils.go:36-62 | the loop returns the port Allocate computes, leaves the table Allocate computes, and reports an error exactly when Allocate fails |
| Allocator.PortTable.ReleasePort | factory/utils.go:76-80 | the port leaves the table and nothing else changes; releasing a port that is not in the table changes nothing |
| Syn.ClassifyFlags | scanner/syn.go:119-128 | open exactly when SYN and ACK are both set; closed exactly when RST is set and not both SYN and ACK; filtered exactly when neither holds |
| Syn.Await | scanner/syn.go:96-134 | the read loop settles on open, closed or filtered, and an empty capture gives filtered |
| Syn.AwaitPassesOver | scanner/syn.go:99-117 | nil packets, frames without a TCP layer and frames for other ports that arrive in time are passed over without changing the result |
| Syn.FirstDecisiveArrivalDecides | scanner/syn.go:96-134 | the first frame that is not passed over decides the result: a late frame gives filtered, and a reply in time is classified by its flags |
| Syn.AllSkippedIsFiltered | scanner/syn.go:130-132 | when every frame is passed over, the timer fires and the port is filtered |
| Syn.TimeoutBeforeReplyIsFiltered | scanner/syn.go:130-132 | when the timer fires before the next frame arrives, the port is filtered, whatever comes later |
| Syn.FirstDecisive | scanner/syn.go:96-117 | the index of the first frame that is not passed over: every earlier frame is passed over, and that one is not |
| Syn.OpenIffFirstReplySynAck | scanner/syn.go:113-121 | open exactly when some reply for the probe's ports, received in time after only passed-over frames, carries SYN and ACK |
| Syn.TimerRestartsOnEveryFrame | scanner/syn.go:96-98 | the timer is re-armed for every frame, so a SYN/ACK after a passed-over frame still counts even when the two waits add up to more than one timeout |
| Syn.ReadSynAckResponse | scanner/syn.go:96-134 | a capture that cannot be opened gives that error; otherwise the loop returns what Await computes |
| Syn.ProbeStatus | scanner/syn.go:158-192 | definition of the state one probe goroutine reports: "error" on a build, send or capture failure, else the state the read loop settles on; stated about by ProbeStatusError |
| Syn.ProbeStatusError | scanner/syn.go:158-192 | a probe reports "error" exactly when the packet cannot be built, cannot be sent or the capture cannot be opened, and otherwise open, closed or filtered |
| Syn.RunProbe | scanner/syn.go:155-193 | the goroutine's state is ProbeStatus, and the packet sent is the one CreateSynPacket builds, whenever it can be built |
| Syn.SentPacketsShareSourcePort | scanner/syn.go:142-158 | every packet of one scan carries the scan's single source port, the scan's addresses and only the SYN flag, and is addressed to a requested port; there are no more packets than listed positions (a port listed twice is probed twice) |
| Syn.ProbePorts | scanner/syn.go:148-205 | the result has exactly the requested ports as keys; every value is a port state that some probe of that port reported; the packets sent are exactly the ones the probes built |
| Syn.Scan | scanner/syn.go:141-205 | a failed source-port allocation gives nil and sends nothing; otherwise the properties of ProbePorts hold with the allocated port, and the port table is left as Allocate leaves it |
| CliPorts.ParsedPorts | gomapcli/ports.go:38-70 | definition of what ParsePorts returns: cut at the first '-', then both halves through Atoi and the range between them, or the whole text through Atoi as one port; its cases are stated by SinglePortSpec, RangeSpec, LeadingDashIsError, LaterDashIsError and OnePortRange |
| CliPorts.AppendedByGoLoop | gomapcli/ports.go:55-57 | definition of the values the Go loop appends in its first n iterations, with `i++` wrapping from the int64 maximum to the int64 minimum; stated about by GoLoopNeverEndsAtMaxInt and GoLoopOverrunsOnePortRange |
| CliPorts.Range | gomapcli/ports.go:55-57 | before, before + 1, ..., after: after - before + 1 numbers, or none when before > after |
| CliPorts.AppendRange | gomapcli/ports.go:55-57 | the counting loop, on unbounded integers, builds exactly Range(before, after) |
| CliPorts.ParsePorts | gomapcli/ports.go:38-70 | the method returns what ParsedPorts defines: an error telling which of the three Atoi calls failed, the inclusive range, or the single port |
| CliPorts.SinglePortSpec | gomapcli/ports.go:61-69 | without a '-', the text is accepted exactly when Atoi accepts it, and the list is that one number |
| CliPorts.RangeSpec | gomapcli/ports.go:39-59 | two ints around a '-' give exactly the increasing run from the first to the second, and an empty list when the first is larger |
| CliPorts.LeadingDashIsError | gomapcli/ports.go:39-47 | a text starting with '-', such as "-5", is an error in the first half |
| CliPorts.LaterDashIsError | gomapcli/ports.go:39-53 | a second '-', not directly after the first, makes the text an error, as in "1-2-3" |
| CliPorts.OnePortRange | gomapcli/ports.go:55-57 | a range whose two ends are the same number n gives [n], for every n up to the int64 maximum |
| CliPorts.GoLoopNeverEndsAtMaxInt | gomapcli/ports.go:55-57 | with after equal to the int64 maximum, the Go loop's condition holds after every wrapped increment, so after n steps it has appended n numbers |
| CliPorts.GoLoopOverrunsOnePortRange | gomapcli/ports.go:55-57 | for "9223372036854775807-9223372036854775807", the Go loop appends the int64 minimum after the maximum, where the one-port range is the maximum alone |
| CliPorts.ScanPorts | gomapcli/ports.go:76-102 | the loop's three lists are exactly the ports that connected, that failed and that timed out, each in input order |
| CliPorts.SelectMembership | gomapcli/ports.go:83-101 | a port is in a list exactly when some position holding it had that outcome |
| CliPorts.SelectKeepsOrder | gomapcli/ports.go:83-101 | selecting from two stretches of input is selecting from each and concatenating |
| CliPorts.PartitionIsComplete | gomapcli/ports.go:83-101 | the three lists together hold the input ports with their multiplicities |
| CliPorts.PartitionLengths | gomapcli/ports.go:83-101 | the three lists together are as long as the input |
| Services.TcpPort | services/services.go:64-71 | definition of the port a "port/proto" field names: split on '/' into exactly two parts, the second "tcp", the first through ParseUint(…, 10, 16); characterised by TcpPortOfDigits and TcpPortHasDigits |
| Services.TcpPortOfDigits | services/services.go:64-71 | a '/'-free number followed by "/tcp" names the port ParseUint gives for it |
| Services.TcpPortHasDigits | services/services.go:64-71 | only a field of the form number + "/tcp" with no other '/' names a TCP port |
| Services.ParseServiceLine | services/services.go:57-71 | definition of the service one table line gives: none for a comment or fewer than two fields, else the first field as name and the port TcpPort finds in the second; characterised by ParseServiceLineShape and ParseFormattedLine |
| Services.ParseServiceLineShape | services/services.go:57-73 | a line gives a service exactly when it is no comment, has two fields and its second field is a 16-bit number followed by "/tcp"; then the name is the first field |
| Services.FormattedFields | services/services.go:60 | a word, white space, a second word and white-space-led text have the two words as their first fields |
| Services.ParseFormattedLine | services/services.go:57-73 | a line written as name, white space, port "/tcp" and optional white-space-led text reads back as that name and that port |
| Services.CollectKeys | services/services.go:72-74 | a port is a key exactly when it was requested and some entry is on it |
| Services.CollectLastEntry | services/services.go:72-74 | a key's name comes from the last entry on that port |
| Services.ServiceMapLastLineWins | services/services.go:51-78 | a port has a service name exactly when it was requested and some line of the table gives a service on it, and the name is that of the last such line |
| Services.Contains | services/services.go:81-88 | true exactly when the port is in the list |
| Services.GetServices | services/services.go:51-78 | the loop over the table's lines returns what ServiceMap defines |

## Left out

- All I/O is left out: the raw-socket send, pcap and its BPF filter, `net.Listen`, `net.DialTimeout`, the random generators and the clock. Their results are inputs to the model.
- The BPF filter's text is not modelled. The read loop checks the ports itself, and the model keeps that check.
- Goroutines, the result channel and the port-table mutex are left out. `Syn.ProbePorts` runs the probes one after another in the order the ports are listed. Its properties of the result map (the keys, and each value being a state some probe of that port reported) hold for any order. Its `sent` list is in launch order; the goroutines send in any order, so only the multiset of sent packets is independent of the schedule.
- Syn.ProbePorts: when a port is listed twice, the state kept for it depends on which goroutine reports last. The model keeps the later one and states only that some probe of that port reported the value.
- Syn.Scan: `ReadSYNACKResponse` opens its capture after the SYN has been sent. A reply that comes back before the capture opens is therefore lost. The model takes the captured frames as given and does not model this race.
- Syn.Scan: the source port is never released, which matches the program.
- Syn.Await: a frame that arrives exactly at the timeout counts as the timer firing. Go's `select` picks at random between two ready cases.
- Serialising packets with gopacket, and IP/TCP checksums and lengths, are library code. The model states the header records that are handed to the library.
- ICMP and ARP scanning, `ParseTarget`, `GrabBanner` and the printing in `ScanPorts` are not part of this model.
- Services.GetServices: the model assumes every line of the table fits the scanner's 64 KiB token buffer. On a longer line `scanner.Scan()` returns false, so the loop at services/services.go:55 stops there and the program returns only the services of the earlier lines together with `scanner.Err()`. `ServiceMap(ScanLines(table), …)` reads every line, and the error result is not modelled.
- CliPorts.ParsePorts: errors are reduced to which Atoi call failed (`BadBefore`, `BadAfter`, `BadSinglePort`). The program's messages do not make that distinction cleanly: the message for a bad second half (gomapcli/ports.go:52) also says 'before', and all three print the Atoi result (0 on a syntax error) with `%d` rather than the text. The message text is not modelled.
- CliPorts.ParsePorts: the wrap-around of the Go loop at the int64 maximum is modelled separately (see Findings). `CliPorts.ParsePorts` models the evidently intended range.

## Findings

| source | as written | input that shows it | evidently intended | confidence | as-written member | corrected member |
|---|---|---|---|---|---|---|
| gomapcli/ports.go:55-57 | `for i := before; i <= after; i++` on a Go `int`: when after is the int64 maximum, `i++` wraps to the int64 minimum, `i <= after` stays true, and the loop never ends (appending until memory runs out) | "9223372036854775807-9223372036854775807" | the inclusive range from before to after, here the one number 9223372036854775807 | not executed | CliPorts.GoLoopNeverEndsAtMaxInt | CliPorts.OnePortRange |

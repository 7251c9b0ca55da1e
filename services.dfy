/** Service names for open ports (services/services.go): the embedded
    nmap-services table is read line by line, each "name port/proto ..." line
    with protocol tcp names the service on that port, and only the requested
    ports are kept. The table text is a parameter. */
module Services {
  import opened Common
  import opened GoText

  /** A usable line of the table: a service name and its TCP port. */
  datatype ServiceEntry = ServiceEntry(name: string, port: Port)

  /** The port a "port/proto" field names when the protocol is tcp: the field
      must split on '/' into exactly two parts, the second "tcp" and the first
      a decimal number of at most 65535. */
  function TcpPort(field: string): Option<Port>
  {
    var portProto := Split(field, '/');
    if |portProto| != 2 || portProto[1] != "tcp" then None
    else ParseUint16(portProto[0])
  }

  /** A '/'-free number followed by "/tcp" names the port that number is. */
  lemma TcpPortOfDigits(digits: string)
    requires '/' !in digits
    ensures TcpPort(digits + "/tcp") == ParseUint16(digits)
  {
    assert digits + "/tcp" == digits + ['/'] + "tcp";
    SplitAfterWord(digits, '/', "tcp");
    assert Split("tcp", '/') == ["tcp"] by { assert '/' !in "tcp"; }
  }

  /** Only such a field names a TCP port. */
  lemma TcpPortHasDigits(field: string)
    requires TcpPort(field).Some?
    ensures exists d :: field == d + "/tcp" && '/' !in d && ParseUint16(d) == TcpPort(field)
  {
    var parts := Split(field, '/');
    JoinSplit(field, '/');
    assert Join(parts, '/') == parts[0] + ['/'] + Join(parts[1..], '/');
    assert parts[1..] == ["tcp"];
    assert field == parts[0] + "/tcp";
  }

  /** The service a table line gives, if any: comment lines (starting with
      '#') and lines with fewer than two fields are passed over, and the second
      field must name a TCP port; the first field is the name. */
  function ParseServiceLine(line: string): Option<ServiceEntry>
  {
    if HasPrefix(line, "#") then None
    else
      var fields := Fields(line);
      if |fields| < 2 then None
      else
        match TcpPort(fields[1])
        case None => None
        case Some(port) => Some(ServiceEntry(fields[0], port))
  }

  /** A line gives a service exactly when it is no comment and its second
      field is a port number, no '/', and "/tcp"; the service is then named by
      the first field and its port is that number. */
  lemma ParseServiceLineShape(line: string)
    ensures ParseServiceLine(line).Some? <==>
      && !HasPrefix(line, "#")
      && |Fields(line)| >= 2
      && exists digits :: Fields(line)[1] == digits + "/tcp" && '/' !in digits && ParseUint16(digits).Some?
    ensures ParseServiceLine(line).Some? ==>
      && ParseServiceLine(line).value.name == Fields(line)[0]
      && exists digits :: Fields(line)[1] == digits + "/tcp" && ParseUint16(digits) == Some(ParseServiceLine(line).value.port)
  {
    if !HasPrefix(line, "#") && |Fields(line)| >= 2 {
      var field := Fields(line)[1];
      if TcpPort(field).Some? {
        TcpPortHasDigits(field);
      }
      forall digits | field == digits + "/tcp" && '/' !in digits
        ensures TcpPort(field) == ParseUint16(digits)
      {
        TcpPortOfDigits(digits);
      }
    }
  }

  /** A word, one white-space character, a second word and nothing or more
      white-space-led text: the first two fields are the two words. */
  lemma FormattedFields(name: string, space: char, field: string, rest: string)
    requires name != [] && forall i :: 0 <= i < |name| ==> !IsSpace(name[i])
    requires field != [] && forall i :: 0 <= i < |field| ==> !IsSpace(field[i])
    requires IsSpace(space)
    requires rest == [] || IsSpace(rest[0])
    ensures var f := Fields(name + [space] + field + rest); |f| >= 2 && f[0] == name && f[1] == field
  {
    var tail := [space] + (field + rest);
    assert name + [space] + field + rest == name + tail;
    FieldsAfterWord(name, tail);
    FieldsAfterSpace(space, field + rest);
    FieldsAfterWord(field, rest);
  }

  /** Reading back a line written as name, white space, port "/tcp", and
      optionally more white-space-separated text gives that name and port. */
  lemma ParseFormattedLine(name: string, space: char, port: Port, rest: string)
    requires name != [] && name[0] != '#' && forall i :: 0 <= i < |name| ==> !IsSpace(name[i])
    requires IsSpace(space)
    requires rest == [] || IsSpace(rest[0])
    ensures ParseServiceLine(name + [space] + Decimal(port) + "/tcp" + rest) == Some(ServiceEntry(name, port))
  {
    var digits := Decimal(port);
    var field := digits + "/tcp";
    assert name + [space] + digits + "/tcp" + rest == name + [space] + field + rest;
    var line := name + [space] + field + rest;
    assert !HasPrefix(line, "#") by { assert line[0] == name[0]; }
    assert forall i :: 0 <= i < |field| ==> !IsSpace(field[i]) by {
      assert AllDigits(digits);
      forall i | 0 <= i < |field| ensures !IsSpace(field[i]) {
        if i < |digits| { assert field[i] == digits[i]; }
      }
    }
    FormattedFields(name, space, field, rest);
    assert '/' !in digits by { assert AllDigits(digits); }
    TcpPortOfDigits(digits);
    ParseUint16Decimal(port);
  }

  /** The line gives a service on port p. */
  predicate Describes(line: string, p: Port) {
    Names(ParseServiceLine(line), p)
  }

  /** The entry gives a service on port p. */
  predicate Names(e: Option<ServiceEntry>, p: Port) {
    e.Some? && e.value.port == p
  }

  /** The entry each line gives, line by line. */
  function Parsed(lines: seq<string>): seq<Option<ServiceEntry>>
  {
    seq(|lines|, i requires 0 <= i < |lines| => ParseServiceLine(lines[i]))
  }

  /** The map built from the entries in order: an entry on a requested port
      sets that port's name, so a later entry overrides an earlier one. */
  function Collect(entries: seq<Option<ServiceEntry>>, openPorts: seq<Port>): map<Port, string>
    decreases |entries|
  {
    if entries == [] then map[]
    else
      var n := |entries| - 1;
      var m := Collect(entries[..n], openPorts);
      match entries[n]
      case None => m
      case Some(e) => if e.port in openPorts then m[e.port := e.name] else m
  }

  /** What GetServices returns for the lines of the table. */
  function ServiceMap(lines: seq<string>, openPorts: seq<Port>): map<Port, string>
  {
    Collect(Parsed(lines), openPorts)
  }

  /** A port is a key exactly when it was requested and some entry is on it. */
  lemma {:induction false} CollectKeys(entries: seq<Option<ServiceEntry>>, openPorts: seq<Port>, p: Port)
    ensures p in Collect(entries, openPorts) <==>
              p in openPorts && exists i :: 0 <= i < |entries| && Names(entries[i], p)
    decreases |entries|
  {
    if entries != [] {
      var n := |entries| - 1;
      var pre := entries[..n];
      CollectKeys(pre, openPorts, p);
      if exists i :: 0 <= i < |entries| && Names(entries[i], p) {
        var i :| 0 <= i < |entries| && Names(entries[i], p);
        if i < n {
          assert pre[i] == entries[i];
        }
      }
      if exists i :: 0 <= i < n && Names(pre[i], p) {
        var i :| 0 <= i < n && Names(pre[i], p);
        assert pre[i] == entries[i];
      }
    }
  }

  /** A key's name comes from the last entry on that port. */
  lemma {:induction false} CollectLastEntry(entries: seq<Option<ServiceEntry>>, openPorts: seq<Port>, p: Port)
    requires p in Collect(entries, openPorts)
    ensures exists i :: 0 <= i < |entries| && entries[i] == Some(ServiceEntry(Collect(entries, openPorts)[p], p))
                          && forall j :: i < j < |entries| ==> !Names(entries[j], p)
    decreases |entries|
  {
    var n := |entries| - 1;
    var pre := entries[..n];
    var m := Collect(entries, openPorts);
    CollectKeys(entries, openPorts, p);
    if Names(entries[n], p) {
      assert entries[n] == Some(ServiceEntry(m[p], p));
    } else {
      assert p in Collect(pre, openPorts) && m[p] == Collect(pre, openPorts)[p];
      CollectLastEntry(pre, openPorts, p);
      var i :| 0 <= i < n && pre[i] == Some(ServiceEntry(m[p], p))
               && forall j :: i < j < n ==> !Names(pre[j], p);
      assert pre[i] == entries[i];
      assert forall j :: i < j < n ==> pre[j] == entries[j];
    }
  }

  /** A port has a name exactly when it was requested and some line gives a
      service on it; its name is the one from the last such line. */
  lemma ServiceMapLastLineWins(lines: seq<string>, openPorts: seq<Port>, p: Port)
    ensures p in ServiceMap(lines, openPorts) <==>
              p in openPorts && exists i :: 0 <= i < |lines| && Describes(lines[i], p)
    ensures p in ServiceMap(lines, openPorts) ==>
              exists i :: 0 <= i < |lines| && ParseServiceLine(lines[i]) == Some(ServiceEntry(ServiceMap(lines, openPorts)[p], p))
                          && forall j :: i < j < |lines| ==> !Describes(lines[j], p)
  {
    var entries := Parsed(lines);
    assert |entries| == |lines| && forall i :: 0 <= i < |lines| ==> entries[i] == ParseServiceLine(lines[i]);
    CollectKeys(entries, openPorts, p);
    if p in ServiceMap(lines, openPorts) {
      CollectLastEntry(entries, openPorts, p);
    }
  }

  /** contains: a linear search that stops at the first match. */
  method Contains(ports: seq<Port>, port: Port) returns (found: bool)
    ensures found <==> port in ports
  {
    var i := 0;
    while i < |ports|
      invariant 0 <= i <= |ports|
      invariant port !in ports[..i]
    {
      if ports[i] == port {
        return true;
      }
      assert ports[..i + 1] == ports[..i] + [ports[i]];
      i := i + 1;
    }
    assert ports[..i] == ports;
    return false;
  }

  /** GetServices: one pass over the lines of the table, updating the map in
      place. The error a bufio.Scanner reports for a line over its buffer size
      is not modelled. */
  method GetServices(table: string, openPorts: seq<Port>) returns (services: map<Port, string>)
    ensures services == ServiceMap(ScanLines(table), openPorts)
  {
    var lines := ScanLines(table);
    ghost var entries := Parsed(lines);
    services := map[];
    var i := 0;
    while i < |lines|
      invariant 0 <= i <= |lines|
      invariant services == Collect(entries[..i], openPorts)
    {
      assert entries[..i + 1][..i] == entries[..i];
      var entry := ParseServiceLine(lines[i]);
      if entry.Some? {
        var requested := Contains(openPorts, entry.value.port);
        if requested {
          services := services[entry.value.port := entry.value.name];
        }
      }
      i := i + 1;
    }
    assert entries[..i] == entries;
  }
}

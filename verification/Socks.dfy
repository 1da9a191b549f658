/**
 The SOCKS request parser: SOCKS4a, and SOCKS5 as in sections 3, 4 and 5 of RFC 1928.
 */
module Socks {
  import opened Bytes
  import opened Automaton

  const MAX_HOSTNAME_SIZE: nat := 255

  datatype State =
    | GetVersion | GetCommand | GetPort | GetIPv4 | Get4Ident | Get4aHost
    | Get5AuthNum | Get5Auth | Get5RequestV | Get5Reserved | Get5AddrType | Get5IPv6 | Get5HostSize | Get5Host | Done

  datatype AddressType = IPv4 | Dns | IPv6

  datatype Outcome = Reading | Accepted | Refused

  datatype Parser = Parser(
    state: State, left: byte, version: byte, command: byte, port: nat, ip: nat, ip4a: nat,
    addrType: AddressType, host: seq<byte>, noAuth: bool, outcome: Outcome)

  /** `port`, `version` and `command` are whatever they were before. */
  function Start(version: byte, command: byte, port: nat): Parser {
    Parser(GetVersion, 1, version, command, port, 0, 0, IPv4, [], false, Reading)
  }

  function Enter(y: Parser, state: State, left: byte): Parser {
    match state
    case GetPort => y.(state := state, left := 2)
    case GetIPv4 => y.(state := state, left := 4, addrType := IPv4, ip := 0)
    case Get4Ident => y.(state := state, left := left, ip4a := y.ip)
    case Get4aHost => y.(state := state, left := left, addrType := Dns, host := [])
    case Get5Host => y.(state := state, left := left, addrType := Dns, host := [])
    case Get5IPv6 => y.(state := state, left := 16, addrType := IPv6)
    case _ => y.(state := state, left := left)
  }

  function Refuse(y: Parser): Parser {
    y.(outcome := Refused)
  }

  /** The counter is one byte wide. */
  function Less(left: byte): byte {
    (left + 255) % 256
  }

  /** The name contains ".i2p". */
  predicate NamesI2p(host: seq<byte>) {
    |host| >= 4 && (host[..4] == [46, 105, 50, 112] || NamesI2p(host[1..]))
  }

  /** A complete request is accepted if it asks to connect to a name in .i2p. */
  function Validate(y: Parser): Parser {
    y.(state := Done, outcome := if y.command == 1 && y.addrType == Dns && NamesI2p(y.host) then Accepted else Refused)
  }

  function OnCommand(y: Parser, b: byte): Parser {
    if b == 1 || b == 2 || (b == 3 && y.version == 5) then
      var y1 := y.(command := b);
      if y.version == 5 then Enter(y1, Get5Reserved, 1) else Enter(y1, GetPort, 1)
    else Refuse(y)
  }

  function OnPort(y: Parser, b: byte): Parser {
    var y1 := y.(port := (y.port * 256 + b) % 65536, left := Less(y.left));
    if y1.left != 0 then y1 else if y.version == 5 then Validate(y1) else Enter(y1, GetIPv4, 1)
  }

  function OnIPv4(y: Parser, b: byte): Parser {
    var y1 := y.(ip := (y.ip * 256 + b) % 0x1_0000_0000, left := Less(y.left));
    if y1.left != 0 then y1 else if y.version == 5 then Enter(y1, GetPort, 1) else Enter(y1, Get4Ident, 1)
  }

  function OnIdent(y: Parser, b: byte): Parser {
    if b != 0 then y
    else if y.ip4a == 0 || y.ip4a > 255 then Validate(y)
    else Enter(y, Get4aHost, 1)
  }

  function OnHost4a(y: Parser, b: byte): Parser {
    if b == 0 then Validate(y)
    else if |y.host| >= MAX_HOSTNAME_SIZE then Refuse(y)
    else y.(host := y.host + [b])
  }

  function OnAuth(y: Parser, b: byte): Parser {
    var y1 := y.(left := Less(y.left), noAuth := y.noAuth || b == 0);
    if y1.left != 0 then y1 else if y1.noAuth then Enter(y1, Get5RequestV, 1) else Refuse(y1)
  }

  /** The length of a host is one byte wide too: one character more than fit, and the host is empty again. */
  function Push(host: seq<byte>, b: byte): seq<byte> {
    if |host| >= MAX_HOSTNAME_SIZE then [] else host + [b]
  }

  function PushAll(host: seq<byte>, bytes: seq<byte>): seq<byte>
    decreases |bytes|
  {
    if bytes == [] then host else PushAll(Push(host, bytes[0]), bytes[1..])
  }

  lemma {:induction false} PushAllFits(host: seq<byte>, bytes: seq<byte>)
    requires |host| + |bytes| <= MAX_HOSTNAME_SIZE
    ensures PushAll(host, bytes) == host + bytes
    decreases |bytes|
  {
    if bytes == [] {
      assert host + bytes == host;
    } else {
      PushAllFits(host + [bytes[0]], bytes[1..]);
      assert bytes == [bytes[0]] + bytes[1..];
      ConcatAssociates(host, [bytes[0]], bytes[1..]);
    }
  }

  lemma {:induction false} PushAllWraps(host: seq<byte>, bytes: seq<byte>)
    requires |host| + |bytes| == MAX_HOSTNAME_SIZE + 1 && |host| <= MAX_HOSTNAME_SIZE
    ensures PushAll(host, bytes) == []
    decreases |bytes|
  {
    if |bytes| == 1 {
      assert bytes[1..] == [];
    } else {
      PushAllWraps(host + [bytes[0]], bytes[1..]);
    }
  }

  function OnHost5(y: Parser, b: byte): Parser {
    var y1 := y.(host := Push(y.host, b), left := Less(y.left));
    if y1.left == 0 then Enter(y1, GetPort, 1) else y1
  }

  function OnIPv6(y: Parser): Parser {
    var y1 := y.(left := Less(y.left));
    if y1.left == 0 then Enter(y1, GetPort, 1) else y1
  }

  function OnAddrType(y: Parser, b: byte): Parser {
    if b == 1 then Enter(y, GetIPv4, 1)
    else if b == 4 then Enter(y, Get5IPv6, 1)
    else if b == 3 then Enter(y, Get5HostSize, 1)
    else Refuse(y)
  }

  function Step(y: Parser, b: byte): Parser {
    match y.state
    case GetVersion =>
      var y1 := y.(version := b);
      if b == 4 then Enter(y1, GetCommand, 1) else if b == 5 then Enter(y1, Get5AuthNum, 1) else Refuse(y1)
    case Get5AuthNum => Enter(y, Get5Auth, b)
    case Get5Auth => OnAuth(y, b)
    case GetCommand => OnCommand(y, b)
    case GetPort => OnPort(y, b)
    case GetIPv4 => OnIPv4(y, b)
    case Get4Ident => OnIdent(y, b)
    case Get4aHost => OnHost4a(y, b)
    case Get5RequestV => if b == 5 then Enter(y, GetCommand, 1) else Refuse(y)
    case Get5Reserved => if b == 0 then Enter(y, Get5AddrType, 1) else Refuse(y)
    case Get5AddrType => OnAddrType(y, b)
    case Get5IPv6 => OnIPv6(y)
    case Get5HostSize => Enter(y, Get5Host, b)
    case Get5Host => OnHost5(y, b)
    case Done => Refuse(y)
  }

  function Reader(): Automaton<Parser> {
    Automaton((y, b) => Step(y, b), (y: Parser) => y.outcome == Reading)
  }

  // ---------------------------------------------------------------- the loops of the automaton

  /** How many bytes a counter that starts at `left` counts. */
  function Count(left: byte): nat {
    if left == 0 then 256 else left
  }

  lemma {:induction false} ReadAuth(y: Parser, methods: seq<byte>, tail: seq<byte>)
    requires y.outcome == Reading && y.state == Get5Auth && |methods| == Count(y.left)
    ensures var y1 := y.(left := 0, noAuth := y.noAuth || 0 in methods);
            Scan(Reader(), y, methods + tail) ==
            if y1.noAuth then Scan(Reader(), Enter(y1, Get5RequestV, 1), tail) else Scanned(Refuse(y1), tail)
    decreases |methods|
  {
    var b, rest := methods[0], methods[1..];
    assert methods == [b] + rest;
    ConcatAssociates([b], rest, tail);
    ScanOne(Reader(), y, b, rest + tail);
    if Less(y.left) == 0 {
      assert rest == [] && rest + tail == tail;
    } else {
      ReadAuth(OnAuth(y, b), rest, tail);
    }
  }

  lemma {:induction false} ReadHost(y: Parser, host: seq<byte>, tail: seq<byte>)
    requires y.outcome == Reading && y.state == Get5Host && |host| == Count(y.left)
    ensures Scan(Reader(), y, host + tail) == Scan(Reader(), Enter(y.(host := PushAll(y.host, host)), GetPort, 1), tail)
    decreases |host|
  {
    var b, rest := host[0], host[1..];
    assert host == [b] + rest;
    ConcatAssociates([b], rest, tail);
    ScanOne(Reader(), y, b, rest + tail);
    if Less(y.left) == 0 {
      assert rest == [] && rest + tail == tail;
      assert PushAll(y.host, host) == Push(y.host, b);
    } else {
      ReadHost(OnHost5(y, b), rest, tail);
    }
  }

  /** Two bytes make the port, whatever was there before. */
  lemma ReadPort(y: Parser, hi: byte, lo: byte, tail: seq<byte>)
    requires y.outcome == Reading && y.state == GetPort && y.left == 2
    ensures var y1 := y.(port := hi * 256 + lo, left := 0);
            Scan(Reader(), y, [hi, lo] + tail) ==
            if y.version == 5 then Scanned(Validate(y1), tail) else Scan(Reader(), Enter(y1, GetIPv4, 1), tail)
  {
    assert [hi, lo] + tail == [hi] + ([lo] + tail);
    var y2 := y.(port := (y.port * 256 + hi) % 65536, left := 1);
    ScanTwo(Reader(), y, hi, y2, lo, OnPort(y2, lo), tail);
    BothPortBytes(y, hi, lo);
  }

  lemma BothPortBytes(y: Parser, hi: byte, lo: byte)
    requires y.left == 2
    ensures var y1 := y.(port := hi * 256 + lo, left := 0);
            OnPort(y.(port := (y.port * 256 + hi) % 65536, left := 1), lo) ==
            if y.version == 5 then Validate(y1) else Enter(y1, GetIPv4, 1)
  {
    PortWraps(y.port, hi, lo);
  }

  lemma PortWraps(port: nat, hi: byte, lo: byte)
    ensures ((port * 256 + hi) % 65536 * 256 + lo) % 65536 == hi * 256 + lo
  {
  }

  /** An ident ends with a zero byte. */
  lemma {:induction false} ReadIdent(y: Parser, ident: seq<byte>, tail: seq<byte>)
    requires y.outcome == Reading && y.state == Get4Ident && 0 !in ident
    ensures Scan(Reader(), y, ident + [0] + tail) == Scan(Reader(), OnIdent(y, 0), tail)
    decreases |ident|
  {
    if ident == [] {
      assert ident + [0] + tail == [0] + tail;
      ScanOne(Reader(), y, 0, tail);
    } else {
      var b, rest := ident[0], ident[1..];
      assert ident + [0] + tail == [b] + (rest + [0] + tail);
      assert b != 0 && 0 !in rest;
      ScanOne(Reader(), y, b, rest + [0] + tail);
      ReadIdent(y, rest, tail);
    }
  }

  lemma {:induction false} ReadHost4a(y: Parser, host: seq<byte>, tail: seq<byte>)
    requires y.outcome == Reading && y.state == Get4aHost && 0 !in host && |y.host| + |host| <= MAX_HOSTNAME_SIZE
    ensures Scan(Reader(), y, host + [0] + tail) == Scanned(Validate(y.(host := y.host + host)), tail)
    decreases |host|
  {
    if host == [] {
      assert host + [0] + tail == [0] + tail && y.host + host == y.host;
      ScanOne(Reader(), y, 0, tail);
    } else {
      var b, rest := host[0], host[1..];
      assert host + [0] + tail == [b] + (rest + [0] + tail);
      assert b != 0 && 0 !in rest && host == [b] + rest;
      ConcatAssociates(y.host, [b], rest);
      ScanOne(Reader(), y, b, rest + [0] + tail);
      ReadHost4a(OnHost4a(y, b), rest, tail);
    }
  }

  // ---------------------------------------------------------------- whole requests

  /** Version, methods; then version, command, zero, the name type, the name after its size, and the port. */
  function Request5(n: byte, methods: seq<byte>, command: byte, size: byte, host: seq<byte>, hi: byte, lo: byte): seq<byte> {
    [5] + ([n] + (methods + ([5] + ([command] + ([0] + ([3] + ([size] + (host + [hi, lo]))))))))
  }

  /** Version, command, port, an address 0.0.0.x, then an ident and a name that each end with zero. */
  function Request4a(command: byte, hi: byte, lo: byte, x: byte, ident: seq<byte>, host: seq<byte>): seq<byte> {
    [4] + ([command] + ([hi, lo] + ([0, 0, 0, x] + (ident + [0] + (host + [0])))))
  }

  /** From the request version to the size of the name. */
  lemma Read5Head(y: Parser, command: byte, size: byte, t: seq<byte>)
    requires y.outcome == Reading && y.state == Get5RequestV && y.version == 5 && 1 <= command <= 3
    ensures Scan(Reader(), y, [5] + ([command] + ([0] + ([3] + ([size] + t))))) ==
            Scan(Reader(), Enter(y.(command := command), Get5Host, size), t)
  {
    var y1 := y.(state := GetCommand, left := 1);
    var y2 := y.(state := Get5Reserved, left := 1, command := command);
    var y3 := y2.(state := Get5AddrType);
    var y4 := y2.(state := Get5HostSize);
    ScanFour(Reader(), y, 5, y1, command, y2, 0, y3, 3, y4, [size] + t);
    ScanOne(Reader(), y4, size, t);
    assert Step(y4, size) == Enter(y.(command := command), Get5Host, size);
  }

  /** A complete SOCKS5 request: the state the parser ends in. */
  function End5(y: Parser, command: byte, host: seq<byte>, hi: byte, lo: byte): Parser {
    Validate(y.(command := command, addrType := Dns, host := PushAll([], host), port := hi * 256 + lo, left := 0))
  }

  /** After the methods have been read. */
  lemma Read5Rest(y: Parser, command: byte, size: byte, host: seq<byte>, hi: byte, lo: byte, tail: seq<byte>)
    requires y.outcome == Reading && y.state == Get5RequestV && y.version == 5 && 1 <= command <= 3 && |host| == Count(size)
    ensures Scan(Reader(), y, [5] + ([command] + ([0] + ([3] + ([size] + (host + ([hi, lo] + tail))))))) ==
            Scanned(End5(y, command, host, hi, lo), tail)
  {
    Read5Head(y, command, size, host + ([hi, lo] + tail));
    SameEnd(y, command, size, host, hi, lo);
    Read5HostPort(Enter(y.(command := command), Get5Host, size), host, hi, lo, tail);
  }

  lemma SameEnd(y: Parser, command: byte, size: byte, host: seq<byte>, hi: byte, lo: byte)
    ensures var y1 := Enter(y.(command := command), Get5Host, size);
            && y1.outcome == y.outcome && y1.state == Get5Host && y1.version == y.version && y1.left == size
            && Validate(y1.(host := PushAll(y1.host, host), port := hi * 256 + lo, left := 0)) == End5(y, command, host, hi, lo)
  {
  }

  lemma Read5HostPort(y: Parser, host: seq<byte>, hi: byte, lo: byte, tail: seq<byte>)
    requires y.outcome == Reading && y.state == Get5Host && y.version == 5 && |host| == Count(y.left)
    ensures var y1 := y.(host := PushAll(y.host, host), port := hi * 256 + lo, left := 0);
            Scan(Reader(), y, host + ([hi, lo] + tail)) == Scanned(Validate(y1), tail)
  {
    ReadHost(y, host, [hi, lo] + tail);
    SamePort(y, PushAll(y.host, host), hi, lo);
    ReadPort(Enter(y.(host := PushAll(y.host, host)), GetPort, 1), hi, lo, tail);
  }

  lemma SamePort(y: Parser, host: seq<byte>, hi: byte, lo: byte)
    ensures var y1 := Enter(y.(host := host), GetPort, 1);
            && y1.outcome == y.outcome && y1.state == GetPort && y1.version == y.version && y1.left == 2
            && Validate(y1.(port := hi * 256 + lo, left := 0)) == Validate(y.(host := host, port := hi * 256 + lo, left := 0))
  {
  }

  lemma Regroup5(n: byte, methods: seq<byte>, command: byte, size: byte, host: seq<byte>, hi: byte, lo: byte, tail: seq<byte>)
    ensures Request5(n, methods, command, size, host, hi, lo) + tail ==
            [5] + ([n] + (methods + ([5] + ([command] + ([0] + ([3] + ([size] + (host + ([hi, lo] + tail)))))))))
  {
  }

  /** Every SOCKS5 request for a name, whatever was in the parser before and whatever follows. */
  lemma Read5(v: byte, c: byte, p: nat, n: byte, methods: seq<byte>, command: byte, size: byte, host: seq<byte>, hi: byte, lo: byte, tail: seq<byte>)
    requires |methods| == Count(n) && 1 <= command <= 3 && |host| == Count(size)
    ensures var r := Scan(Reader(), Start(v, c, p), Request5(n, methods, command, size, host, hi, lo) + tail);
            if 0 in methods then
              && r.rest == tail && r.state.host == PushAll([], host) && r.state.port == hi * 256 + lo
              && r.state.outcome == if command == 1 && NamesI2p(r.state.host) then Accepted else Refused
            else r.state.outcome == Refused
  {
    var m, y := Reader(), Start(v, c, p);
    Regroup5(n, methods, command, size, host, hi, lo, tail);
    var rest := [5] + ([command] + ([0] + ([3] + ([size] + (host + ([hi, lo] + tail))))));
    var y1 := y.(version := 5, state := Get5AuthNum);
    var y2 := y1.(state := Get5Auth, left := n);
    ScanTwo(m, y, 5, y1, n, y2, methods + rest);
    ReadAuth(y2, methods, rest);
    if 0 in methods {
      Read5Rest(Enter(y2.(left := 0, noAuth := true), Get5RequestV, 1), command, size, host, hi, lo, tail);
    }
  }

  /**
   For a name of 1 to 255 bytes: without the method that needs no authentication the request is refused; otherwise
   host and port are exactly those encoded, what follows is left unread, and the request is accepted if it is to
   connect to a name in .i2p.
   */
  lemma Socks5(v: byte, c: byte, p: nat, n: byte, methods: seq<byte>, command: byte, host: seq<byte>, hi: byte, lo: byte, tail: seq<byte>)
    requires |methods| == Count(n) && 1 <= command <= 3 && 1 <= |host| <= MAX_HOSTNAME_SIZE
    ensures var r := Scan(Reader(), Start(v, c, p), Request5(n, methods, command, |host|, host, hi, lo) + tail);
            if 0 in methods then
              && r.rest == tail && r.state.host == host && r.state.port == hi * 256 + lo
              && r.state.outcome == if command == 1 && NamesI2p(host) then Accepted else Refused
            else r.state.outcome == Refused
  {
    Read5(v, c, p, n, methods, command, |host|, host, hi, lo, tail);
    PushAllFits([], host);
    assert [] + host == host;
  }

  /** An announced size of zero takes 256 bytes, forgets them all, and the request is refused whatever they were. */
  lemma Socks5SizeZero(v: byte, c: byte, p: nat, n: byte, methods: seq<byte>, command: byte, host: seq<byte>, hi: byte, lo: byte, tail: seq<byte>)
    requires |methods| == Count(n) && 1 <= command <= 3 && |host| == 256
    ensures var r := Scan(Reader(), Start(v, c, p), Request5(n, methods, command, 0, host, hi, lo) + tail);
            r.state.outcome == Refused && (0 in methods ==> r.rest == tail && r.state.host == [])
  {
    Read5(v, c, p, n, methods, command, 0, host, hi, lo, tail);
    PushAllWraps([], host);
    assert !NamesI2p([]);
  }

  /** Four bytes as one number. */
  function Quad(a: byte, b: byte, c: byte, d: byte): nat {
    ((a * 256 + b) * 256 + c) * 256 + d
  }

  /** Four bytes of address. */
  lemma ReadQuad(y: Parser, a: byte, b: byte, c: byte, d: byte, tail: seq<byte>)
    requires y.outcome == Reading && y.state == GetIPv4 && y.left == 4 && y.ip == 0
    ensures var y1 := y.(ip := Quad(a, b, c, d), left := 0);
            Scan(Reader(), y, [a, b, c, d] + tail) == Scan(Reader(), if y.version == 5 then Enter(y1, GetPort, 1) else Enter(y1, Get4Ident, 1), tail)
  {
    assert [a, b, c, d] + tail == [a] + ([b] + ([c] + ([d] + tail)));
    var y1, y2, y3 := y.(ip := a, left := 3), y.(ip := a * 256 + b, left := 2), y.(ip := (a * 256 + b) * 256 + c, left := 1);
    var y4 := y.(ip := Quad(a, b, c, d), left := 0);
    assert Step(y3, d) == if y.version == 5 then Enter(y4, GetPort, 1) else Enter(y4, Get4Ident, 1);
    ScanFour(Reader(), y, a, y1, b, y2, c, y3, d, Step(y3, d), tail);
  }

  /** The first three bytes being zero, the last one tells that a name follows. */
  lemma ReadIp(y: Parser, x: byte, tail: seq<byte>)
    requires y.outcome == Reading && y.state == GetIPv4 && y.left == 4 && y.version == 4 && y.ip == 0
    ensures Scan(Reader(), y, [0, 0, 0, x] + tail) == Scan(Reader(), Enter(y.(ip := x, left := 0), Get4Ident, 1), tail)
  {
    ReadQuad(y, 0, 0, 0, x, tail);
  }

  lemma Regroup4(command: byte, hi: byte, lo: byte, x: byte, ident: seq<byte>, host: seq<byte>, tail: seq<byte>)
    ensures Request4a(command, hi, lo, x, ident, host) + tail ==
            [4] + ([command] + ([hi, lo] + ([0, 0, 0, x] + (ident + [0] + (host + [0] + tail)))))
  {
  }

  /** The same for every SOCKS4a request. */
  lemma Socks4a(v: byte, c: byte, p: nat, command: byte, hi: byte, lo: byte, x: byte, ident: seq<byte>, host: seq<byte>, tail: seq<byte>)
    requires 1 <= command <= 2 && x != 0 && 0 !in ident && 0 !in host && |host| <= MAX_HOSTNAME_SIZE
    ensures var r := Scan(Reader(), Start(v, c, p), Request4a(command, hi, lo, x, ident, host) + tail);
            && r.rest == tail && r.state.host == host && r.state.port == hi * 256 + lo
            && r.state.outcome == if command == 1 && NamesI2p(host) then Accepted else Refused
  {
    var m, y := Reader(), Start(v, c, p);
    Regroup4(command, hi, lo, x, ident, host, tail);
    var afterIdent := host + [0] + tail;
    var afterIp := ident + [0] + afterIdent;
    Read4Head(y, command, hi, lo, [0, 0, 0, x] + afterIp);
    var y1 := Enter(y.(version := 4, command := command, port := hi * 256 + lo), GetIPv4, 1);
    Read4Names(y1, x, ident, host, tail);
  }

  /** The address that announces a name, the ident and the name. */
  lemma Read4Names(y: Parser, x: byte, ident: seq<byte>, host: seq<byte>, tail: seq<byte>)
    requires y.outcome == Reading && y.state == GetIPv4 && y.left == 4 && y.version == 4 && y.ip == 0
    requires x != 0 && 0 !in ident && 0 !in host && |host| <= MAX_HOSTNAME_SIZE
    ensures var r := Scan(Reader(), y, [0, 0, 0, x] + (ident + [0] + (host + [0] + tail)));
            && r.rest == tail && r.state.host == host && r.state.port == y.port
            && r.state.outcome == if y.command == 1 && NamesI2p(host) then Accepted else Refused
  {
    var afterIdent := host + [0] + tail;
    ReadIp(y, x, ident + [0] + afterIdent);
    var y2 := Enter(y.(ip := x, left := 0), Get4Ident, 1);
    ReadIdent(y2, ident, afterIdent);
    var y3 := Enter(y2, Get4aHost, 1);
    ReadHost4a(y3, host, tail);
    assert y3.host + host == host;
  }

  lemma Read4Head(y: Parser, command: byte, hi: byte, lo: byte, t: seq<byte>)
    requires y.outcome == Reading && y.state == GetVersion && 1 <= command <= 2
    ensures Scan(Reader(), y, [4] + ([command] + ([hi, lo] + t))) ==
            Scan(Reader(), Enter(y.(version := 4, command := command, port := hi * 256 + lo), GetIPv4, 1), t)
  {
    var y1 := y.(version := 4, state := GetCommand, left := 1);
    var y2 := y.(version := 4, command := command, state := GetPort, left := 2);
    ScanTwo(Reader(), y, 4, y1, command, y2, [hi, lo] + t);
    ReadPort(y2, hi, lo, t);
  }

  // ---------------------------------------------------------------- requests without a name

  /** The same with an address of four bytes that is not 0.0.0.x, and no name. */
  function Request4(command: byte, hi: byte, lo: byte, ip: seq<byte>, ident: seq<byte>): seq<byte> {
    [4] + ([command] + ([hi, lo] + (ip + (ident + [0]))))
  }

  /** From the request version to the type of the address. */
  lemma Read5Type(y: Parser, command: byte, kind: byte, t: seq<byte>)
    requires y.outcome == Reading && y.state == Get5RequestV && y.version == 5 && 1 <= command <= 3 && (kind == 1 || kind == 4)
    ensures Scan(Reader(), y, [5] + ([command] + ([0] + ([kind] + t)))) ==
            Scan(Reader(), Enter(y.(command := command), if kind == 1 then GetIPv4 else Get5IPv6, 1), t)
  {
    var y1 := y.(state := GetCommand, left := 1);
    var y2 := y.(state := Get5Reserved, left := 1, command := command);
    var y3 := y2.(state := Get5AddrType);
    var y4 := Enter(y.(command := command), if kind == 1 then GetIPv4 else Get5IPv6, 1);
    assert Step(y3, kind) == y4;
    ScanFour(Reader(), y, 5, y1, command, y2, 0, y3, kind, y4, t);
  }

  lemma {:induction false} ReadIPv6(y: Parser, ip: seq<byte>, tail: seq<byte>)
    requires y.outcome == Reading && y.state == Get5IPv6 && 1 <= |ip| == y.left
    ensures Scan(Reader(), y, ip + tail) == Scan(Reader(), Enter(y.(left := 0), GetPort, 1), tail)
    decreases |ip|
  {
    var b, rest := ip[0], ip[1..];
    assert ip == [b] + rest;
    ConcatAssociates([b], rest, tail);
    ScanOne(Reader(), y, b, rest + tail);
    if Less(y.left) == 0 {
      assert rest == [] && rest + tail == tail;
    } else {
      ReadIPv6(OnIPv6(y), rest, tail);
    }
  }

  /** The address, of four bytes or sixteen, and the port: no name, so the request is refused. */
  lemma ReadAddress(y: Parser, kind: byte, ip: seq<byte>, hi: byte, lo: byte, tail: seq<byte>)
    requires y.outcome == Reading && y.version == 5 && y.host == [] && y.ip == 0 && (kind == 1 || kind == 4)
    requires y.state == (if kind == 1 then GetIPv4 else Get5IPv6) && y.left == |ip| == (if kind == 1 then 4 else 16)
    requires y.addrType == if kind == 1 then IPv4 else IPv6
    ensures var r := Scan(Reader(), y, ip + ([hi, lo] + tail));
            && r.rest == tail && r.state.outcome == Refused && r.state.port == hi * 256 + lo && r.state.host == []
            && (kind == 1 ==> r.state.ip == Quad(ip[0], ip[1], ip[2], ip[3]))
  {
    if kind == 1 {
      assert ip == [ip[0], ip[1], ip[2], ip[3]];
      ReadQuad(y, ip[0], ip[1], ip[2], ip[3], [hi, lo] + tail);
      ReadPort(Enter(y.(ip := Quad(ip[0], ip[1], ip[2], ip[3]), left := 0), GetPort, 1), hi, lo, tail);
    } else {
      ReadIPv6(y, ip, [hi, lo] + tail);
      ReadPort(Enter(y.(left := 0), GetPort, 1), hi, lo, tail);
    }
  }

  /** Version, methods; then version, command, zero, the address type, the address, and the port. */
  function Request5Address(n: byte, methods: seq<byte>, command: byte, kind: byte, ip: seq<byte>, hi: byte, lo: byte): seq<byte> {
    [5] + ([n] + (methods + ([5] + ([command] + ([0] + ([kind] + (ip + [hi, lo])))))))
  }

  lemma RegroupAddress(n: byte, methods: seq<byte>, command: byte, kind: byte, ip: seq<byte>, hi: byte, lo: byte, tail: seq<byte>)
    ensures Request5Address(n, methods, command, kind, ip, hi, lo) + tail ==
            [5] + ([n] + (methods + ([5] + ([command] + ([0] + ([kind] + (ip + ([hi, lo] + tail))))))))
  {
  }

  /** A SOCKS5 request for an IPv4 or IPv6 address is read to its end, and refused. */
  lemma Socks5Address(v: byte, c: byte, p: nat, n: byte, methods: seq<byte>, command: byte, kind: byte, ip: seq<byte>, hi: byte, lo: byte, tail: seq<byte>)
    requires |methods| == Count(n) && 1 <= command <= 3 && (kind == 1 || kind == 4) && |ip| == if kind == 1 then 4 else 16
    ensures var r := Scan(Reader(), Start(v, c, p), Request5Address(n, methods, command, kind, ip, hi, lo) + tail);
            && r.state.outcome == Refused
            && (0 in methods ==>
                  && r.rest == tail && r.state.port == hi * 256 + lo && r.state.host == []
                  && (kind == 1 ==> r.state.ip == Quad(ip[0], ip[1], ip[2], ip[3])))
  {
    var m, y := Reader(), Start(v, c, p);
    RegroupAddress(n, methods, command, kind, ip, hi, lo, tail);
    var rest := [5] + ([command] + ([0] + ([kind] + (ip + ([hi, lo] + tail)))));
    var y1 := y.(version := 5, state := Get5AuthNum);
    var y2 := y1.(state := Get5Auth, left := n);
    ScanTwo(m, y, 5, y1, n, y2, methods + rest);
    ReadAuth(y2, methods, rest);
    if 0 in methods {
      Read5Address(Enter(y2.(left := 0, noAuth := true), Get5RequestV, 1), command, kind, ip, hi, lo, tail);
    }
  }

  /** After the methods have been read. */
  lemma Read5Address(y: Parser, command: byte, kind: byte, ip: seq<byte>, hi: byte, lo: byte, tail: seq<byte>)
    requires y.outcome == Reading && y.state == Get5RequestV && y.version == 5 && y.host == [] && y.ip == 0 && 1 <= command <= 3
    requires (kind == 1 || kind == 4) && |ip| == if kind == 1 then 4 else 16
    ensures var r := Scan(Reader(), y, [5] + ([command] + ([0] + ([kind] + (ip + ([hi, lo] + tail))))));
            && r.rest == tail && r.state.outcome == Refused && r.state.port == hi * 256 + lo && r.state.host == []
            && (kind == 1 ==> r.state.ip == Quad(ip[0], ip[1], ip[2], ip[3]))
  {
    var y1 := Enter(y.(command := command), if kind == 1 then GetIPv4 else Get5IPv6, 1);
    Read5Type(y, command, kind, ip + ([hi, lo] + tail));
    ReadAddress(y1, kind, ip, hi, lo, tail);
  }

  lemma Regroup4Address(command: byte, hi: byte, lo: byte, ip: seq<byte>, ident: seq<byte>, tail: seq<byte>)
    ensures Request4(command, hi, lo, ip, ident) + tail == [4] + ([command] + ([hi, lo] + (ip + (ident + [0] + tail))))
  {
  }

  /** A SOCKS4 request for an address other than 0.0.0.x ends with its ident, and is refused. */
  lemma Socks4Address(v: byte, c: byte, p: nat, command: byte, hi: byte, lo: byte, ip: seq<byte>, ident: seq<byte>, tail: seq<byte>)
    requires 1 <= command <= 2 && 0 !in ident && |ip| == 4 && !(ip[..3] == [0, 0, 0] && ip[3] != 0)
    ensures var r := Scan(Reader(), Start(v, c, p), Request4(command, hi, lo, ip, ident) + tail);
            && r.rest == tail && r.state.outcome == Refused && r.state.port == hi * 256 + lo && r.state.host == []
            && r.state.ip == Quad(ip[0], ip[1], ip[2], ip[3])
  {
    var y := Start(v, c, p);
    Regroup4Address(command, hi, lo, ip, ident, tail);
    Read4Head(y, command, hi, lo, ip + (ident + [0] + tail));
    var y1 := Enter(y.(version := 4, command := command, port := hi * 256 + lo), GetIPv4, 1);
    assert ip == [ip[0], ip[1], ip[2], ip[3]];
    ReadQuad(y1, ip[0], ip[1], ip[2], ip[3], ident + [0] + tail);
    var y2 := Enter(y1.(ip := Quad(ip[0], ip[1], ip[2], ip[3]), left := 0), Get4Ident, 1);
    ReadIdent(y2, ident, tail);
    NotAName(ip);
  }

  lemma NotAName(ip: seq<byte>)
    requires |ip| == 4 && !(ip[..3] == [0, 0, 0] && ip[3] != 0)
    ensures var n := Quad(ip[0], ip[1], ip[2], ip[3]); n == 0 || n > 255
  {
    assert ip[..3] == [ip[0], ip[1], ip[2]];
  }

  /** Any other version, and any command the version does not have, is refused at once. */
  lemma WrongStart(v: byte, c: byte, p: nat, version: byte, command: byte, tail: seq<byte>)
    ensures version != 4 && version != 5 ==>
              var r := Scan(Reader(), Start(v, c, p), [version] + tail); r.state.outcome == Refused && r.rest == tail
    ensures command != 1 && command != 2 ==>
              var r := Scan(Reader(), Start(v, c, p), [4] + ([command] + tail)); r.state.outcome == Refused && r.rest == tail
  {
    var y := Start(v, c, p);
    var y1 := y.(version := 4, state := GetCommand, left := 1);
    ScanOne(Reader(), y, version, tail);
    ScanTwo(Reader(), y, 4, y1, command, Step(y1, command), tail);
  }

  /** After the methods, a wrong version, a reserved byte that is not zero or an unknown type of address is refused at once. */
  lemma WrongRequest(y: Parser, version: byte, command: byte, reserved: byte, kind: byte, tail: seq<byte>)
    requires y.outcome == Reading && y.state == Get5RequestV && y.version == 5 && 1 <= command <= 3
    requires version != 5 || reserved != 0 || (kind != 1 && kind != 3 && kind != 4)
    ensures Scan(Reader(), y, [version] + ([command] + ([reserved] + ([kind] + tail)))).state.outcome == Refused
  {
    var y1 := y.(state := GetCommand, left := 1);
    var y2 := y.(state := Get5Reserved, left := 1, command := command);
    var y3 := y2.(state := Get5AddrType);
    if version != 5 {
      ScanOne(Reader(), y, version, [command] + ([reserved] + ([kind] + tail)));
    } else if reserved != 0 {
      ScanTwo(Reader(), y, 5, y1, command, y2, [reserved] + ([kind] + tail));
      ScanOne(Reader(), y2, reserved, [kind] + tail);
    } else {
      ScanFour(Reader(), y, 5, y1, command, y2, 0, y3, kind, Refuse(y3), tail);
    }
  }

  /** A SOCKS4a name of more than 255 bytes is refused at the first byte too many. */
  lemma {:induction false} Host4aTooLong(y: Parser, host: seq<byte>, b: byte, tail: seq<byte>)
    requires y.outcome == Reading && y.state == Get4aHost && 0 !in host && b != 0 && |y.host| + |host| == MAX_HOSTNAME_SIZE
    ensures var r := Scan(Reader(), y, host + ([b] + tail)); r.state.outcome == Refused && r.rest == tail
    decreases |host|
  {
    if host == [] {
      assert host + ([b] + tail) == [b] + tail;
      ScanOne(Reader(), y, b, tail);
    } else {
      var x, rest := host[0], host[1..];
      assert host + ([b] + tail) == [x] + (rest + ([b] + tail));
      assert x != 0 && 0 !in rest;
      ScanOne(Reader(), y, x, rest + ([b] + tail));
      Host4aTooLong(OnHost4a(y, x), rest, b, tail);
    }
  }

  /** And however the bytes of a request are cut into reads. */
  lemma ChunksDoNotMatter(v: byte, c: byte, p: nat, chunks: seq<seq<byte>>)
    ensures ScanAll(Reader(), Start(v, c, p), chunks) == Scan(Reader(), Start(v, c, p), Flatten(chunks))
  {
    AnyChunks(Reader(), Start(v, c, p), chunks);
  }

  // ---------------------------------------------------------------- the handler

  class SOCKSHandler {
    var state: State
    var parseleft: byte
    var socksv: byte
    var cmd: byte
    var port: nat
    var ip: nat
    var ip4a: nat
    var addrtype: AddressType
    var dns: seq<byte>
    var authNone: bool
    var outcome: Outcome
    ghost const spec: Automaton<Parser>

    ghost function View(): Parser
      reads this
    {
      Parser(state, parseleft, socksv, cmd, port, ip, ip4a, addrtype, dns, authNone, outcome)
    }

    /** The three arguments are what the source leaves uninitialised. */
    constructor (version: byte, command: byte, port: nat)
      ensures View() == Start(version, command, port) && spec == Reader()
    {
      state, parseleft, socksv, cmd, this.port, ip, ip4a := GetVersion, 1, version, command, port, 0, 0;
      addrtype, dns, authNone, outcome, spec := IPv4, [], false, Reading, Reader();
    }

    method EnterState(nstate: State, left: byte)
      modifies this
      ensures View() == Enter(old(View()), nstate, left)
    {
      parseleft, state := left, nstate;
      match nstate
      case GetPort => parseleft := 2;
      case GetIPv4 => addrtype, ip, parseleft := IPv4, 0, 4;
      case Get4Ident => ip4a := ip;
      case Get4aHost => addrtype, dns := Dns, [];
      case Get5Host => addrtype, dns := Dns, [];
      case Get5IPv6 => addrtype, parseleft := IPv6, 16;
      case _ =>
    }

    method ValidateSOCKSRequest()
      modifies this`outcome, this`state
      ensures View() == Validate(old(View()))
    {
      state := Done;
      outcome := if cmd != 1 || addrtype != Dns || !NamesI2p(dns) then Refused else Accepted;
    }

    method HandleCommand(b: byte)
      modifies this
      ensures View() == OnCommand(old(View()), b)
    {
      if b == 1 || b == 2 || (b == 3 && socksv == 5) {
        cmd := b;
        EnterState(if socksv == 5 then Get5Reserved else GetPort, 1);
      } else {
        outcome := Refused;
      }
    }

    method HandlePort(b: byte)
      modifies this
      ensures View() == OnPort(old(View()), b)
    {
      port, parseleft := (port * 256 + b) % 65536, Less(parseleft);
      if parseleft == 0 {
        if socksv == 5 {
          ValidateSOCKSRequest();
        } else {
          EnterState(GetIPv4, 1);
        }
      }
    }

    method HandleIPv4(b: byte)
      modifies this
      ensures View() == OnIPv4(old(View()), b)
    {
      ip, parseleft := (ip * 256 + b) % 0x1_0000_0000, Less(parseleft);
      if parseleft == 0 {
        EnterState(if socksv == 5 then GetPort else Get4Ident, 1);
      }
    }

    method HandleNames(b: byte)
      requires state == Get4Ident || state == Get4aHost || state == Get5Host
      modifies this
      ensures View() == Step(old(View()), b)
    {
      match state
      case Get4Ident =>
        if b == 0 {
          if ip4a == 0 || ip4a > 255 {
            ValidateSOCKSRequest();
          } else {
            EnterState(Get4aHost, 1);
          }
        }
      case Get4aHost =>
        if b == 0 {
          ValidateSOCKSRequest();
        } else if |dns| >= MAX_HOSTNAME_SIZE {
          outcome := Refused;
        } else {
          dns := dns + [b];
        }
      case Get5Host =>
        dns, parseleft := Push(dns, b), Less(parseleft);
        if parseleft == 0 {
          EnterState(GetPort, 1);
        }
    }

    method HandleAuth(b: byte)
      modifies this
      ensures View() == OnAuth(old(View()), b)
    {
      parseleft, authNone := Less(parseleft), authNone || b == 0;
      if parseleft == 0 {
        if authNone {
          EnterState(Get5RequestV, 1);
        } else {
          outcome := Refused;
        }
      }
    }

    method HandleAddrType(b: byte)
      modifies this
      ensures View() == OnAddrType(old(View()), b)
    {
      if b == 1 {
        EnterState(GetIPv4, 1);
      } else if b == 4 {
        EnterState(Get5IPv6, 1);
      } else if b == 3 {
        EnterState(Get5HostSize, 1);
      } else {
        outcome := Refused;
      }
    }

    /** One byte, by state. */
    method HandleByte(b: byte)
      modifies this
      ensures View() == Step(old(View()), b)
    {
      match state
      case GetVersion =>
        socksv := b;
        if b == 4 {
          EnterState(GetCommand, 1);
        } else if b == 5 {
          EnterState(Get5AuthNum, 1);
        } else {
          outcome := Refused;
        }
      case Get5AuthNum => EnterState(Get5Auth, b);
      case Get5Auth => HandleAuth(b);
      case GetCommand => HandleCommand(b);
      case GetPort => HandlePort(b);
      case GetIPv4 => HandleIPv4(b);
      case Get4Ident => HandleNames(b);
      case Get4aHost => HandleNames(b);
      case Get5Host => HandleNames(b);
      case Get5RequestV =>
        if b == 5 {
          EnterState(GetCommand, 1);
        } else {
          outcome := Refused;
        }
      case Get5Reserved =>
        if b == 0 {
          EnterState(Get5AddrType, 1);
        } else {
          outcome := Refused;
        }
      case Get5AddrType => HandleAddrType(b);
      case Get5IPv6 =>
        parseleft := Less(parseleft);
        if parseleft == 0 {
          EnterState(GetPort, 1);
        }
      case Get5HostSize => EnterState(Get5Host, b);
      case Done => outcome := Refused;
    }

    /** The same step, as the automaton knows it. */
    method TakeByte(b: byte)
      requires spec == Reader()
      modifies this
      ensures View() == spec.step(old(View()), b)
    {
      HandleByte(b);
    }

    /** Reads until the request is complete or refused; returns what it did not read. */
    method HandleData(data: seq<byte>) returns (rest: seq<byte>)
      requires spec == Reader()
      modifies this
      ensures Scanned(View(), rest) == Scan(spec, old(View()), data)
    {
      rest := data;
      while rest != [] && outcome == Reading
        invariant Scan(spec, View(), rest) == Scan(spec, old(View()), data)
        decreases |rest|
      {
        TakeByte(rest[0]);
        rest := rest[1..];
      }
    }
  }
}

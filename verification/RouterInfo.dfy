/**
 What a RouterInfo says: its addresses with their introducers, its properties and its capabilities, and that reading
 what was written gives all of it back.
 */
module RouterInfo {
  import opened Wrappers
  import opened Bytes
  import opened RouterInfoSpec

  // ---------------------------------------------------------------- capabilities

  datatype Cap = Floodfill | HighBandwidth | Hidden | Reachable | Unreachable | SSUTesting | SSUIntroducer

  function CapOf(c: byte): set<Cap> {
    if c == 102 then {Floodfill}
    else if c == 77 || c == 78 || c == 79 then {HighBandwidth}
    else if c == 72 then {Hidden}
    else if c == 82 then {Reachable}
    else if c == 85 then {Unreachable}
    else if c == 66 then {SSUTesting}
    else if c == 67 then {SSUIntroducer}
    else {}
  }

  function CapsIn(t: Text): set<Cap> {
    if t == [] then {} else CapOf(t[0]) + CapsIn(t[1..])
  }

  /** The loop over the letters. */
  method ExtractCaps(caps: set<Cap>, value: Text) returns (r: set<Cap>)
    ensures r == caps + CapsIn(value)
  {
    r := caps;
    var cap := value;
    while cap != []
      invariant r + CapsIn(cap) == caps + CapsIn(value)
      decreases |cap|
    {
      r, cap := r + CapOf(cap[0]), cap[1..];
    }
  }

  function Letter(caps: set<Cap>, cap: Cap, c: byte): Text {
    if cap in caps then [c] else []
  }

  /** The property: bandwidth, which a floodfill has in plenty, and how the router can be reached. */
  function CapsProperty(caps: set<Cap>): Text {
    (if Floodfill in caps then [79, 102] else if HighBandwidth in caps then [79] else [76]) +
    Letter(caps, Hidden, 72) + Letter(caps, Reachable, 82) + Letter(caps, Unreachable, 85)
  }

  /** What an SSU address says. */
  function AddressCaps(caps: set<Cap>): Text {
    Letter(caps, SSUTesting, 66) + Letter(caps, SSUIntroducer, 67)
  }

  lemma {:induction false} CapsInAppend(a: Text, b: Text)
    ensures CapsIn(a + b) == CapsIn(a) + CapsIn(b)
    decreases |a|
  {
    if a == [] {
      assert a + b == b;
    } else {
      assert (a + b)[1..] == a[1..] + b;
      CapsInAppend(a[1..], b);
    }
  }

  lemma LetterSays(caps: set<Cap>, cap: Cap, c: byte)
    requires CapOf(c) == {cap}
    ensures CapsIn(Letter(caps, cap, c)) == Only(caps, cap)
  {
    assert CapsIn([c]) == CapOf(c) + CapsIn([c][1..]);
  }

  lemma BandwidthSays(caps: set<Cap>)
    ensures CapsIn(if Floodfill in caps then [79, 102] else if HighBandwidth in caps then [79] else [76]) ==
            if Floodfill in caps then {Floodfill, HighBandwidth} else if HighBandwidth in caps then {HighBandwidth} else {}
  {
    assert CapsIn([79, 102]) == CapOf(79) + CapsIn([79, 102][1..]);
    assert [79, 102][1..] == [102];
    assert CapsIn([102]) == CapOf(102) + CapsIn([102][1..]);
    assert CapsIn([79]) == CapOf(79) + CapsIn([79][1..]);
    assert CapsIn([76]) == CapOf(76) + CapsIn([76][1..]);
  }

  /** Whatever router wrote them, the letters f, M to O, H, R, U, B and C stand for capabilities, and no other letter does. */
  lemma {:induction false} LettersMean(t: Text)
    ensures Floodfill in CapsIn(t) <==> 102 in t
    ensures HighBandwidth in CapsIn(t) <==> 77 in t || 78 in t || 79 in t
    ensures Hidden in CapsIn(t) <==> 72 in t
    ensures Reachable in CapsIn(t) <==> 82 in t
    ensures Unreachable in CapsIn(t) <==> 85 in t
    ensures SSUTesting in CapsIn(t) <==> 66 in t
    ensures SSUIntroducer in CapsIn(t) <==> 67 in t
  {
    if t != [] {
      LettersMean(t[1..]);
      assert t == [t[0]] + t[1..];
    }
  }

  /** Both texts together tell all capabilities, and a floodfill always counts as having high bandwidth. */
  lemma CapsRecovered(caps: set<Cap>)
    ensures CapsIn(CapsProperty(caps)) + CapsIn(AddressCaps(caps)) == caps + if Floodfill in caps then {HighBandwidth} else {}
  {
    var width := if Floodfill in caps then [79, 102] else if HighBandwidth in caps then [79] else [76];
    var h, r, u := Letter(caps, Hidden, 72), Letter(caps, Reachable, 82), Letter(caps, Unreachable, 85);
    CapsInAppend(width + h + r, u);
    CapsInAppend(width + h, r);
    CapsInAppend(width, h);
    CapsInAppend(Letter(caps, SSUTesting, 66), Letter(caps, SSUIntroducer, 67));
    BandwidthSays(caps);
    LetterSays(caps, Hidden, 72);
    LetterSays(caps, Reachable, 82);
    LetterSays(caps, Unreachable, 85);
    LetterSays(caps, SSUTesting, 66);
    LetterSays(caps, SSUIntroducer, 67);
    Together(caps);
  }

  function Only(caps: set<Cap>, cap: Cap): set<Cap> {
    if cap in caps then {cap} else {}
  }

  lemma Together(caps: set<Cap>)
    ensures (if Floodfill in caps then {Floodfill, HighBandwidth} else if HighBandwidth in caps then {HighBandwidth} else {})
            + Only(caps, Hidden) + Only(caps, Reachable) + Only(caps, Unreachable)
            + (Only(caps, SSUTesting) + Only(caps, SSUIntroducer)) ==
            caps + if Floodfill in caps then {HighBandwidth} else {}
  {
    forall c | c in caps
      ensures c == Floodfill || c == HighBandwidth || c == Hidden || c == Reachable || c == Unreachable ||
              c == SSUTesting || c == SSUIntroducer
    {
      match c
      case Floodfill =>
      case HighBandwidth =>
      case Hidden =>
      case Reachable =>
      case Unreachable =>
      case SSUTesting =>
      case SSUIntroducer =>
    }
  }

  // ---------------------------------------------------------------- addresses

  type Quad = b: seq<byte> | |b| == 4 witness seq(4, i => 0)
  type Sixteen = b: seq<byte> | |b| == 16 witness seq(16, i => 0)

  /** An IPv4 or an IPv6 address. */
  datatype Host = V4(quad: Quad) | V6(sixteen: Sixteen)

  function NoHost(): Host {
    V4(seq(4, i => 0))
  }

  type Key = k: seq<byte> | |k| == 32 witness seq(32, i => 0)

  /** How hosts and keys are written as text and read back. */
  datatype Texts = Texts(hostText: Host -> Text, parseHost: Text -> Option<Host>, keyText: Key -> Text, parseKey: Text -> Key)

  /** Texts are read back, and as they are read as C strings they hold no zero byte. */
  ghost predicate Faithful(c: Texts) {
    && (forall h: Host :: c.parseHost(c.hostText(h)) == Some(h) && |c.hostText(h)| < 256 && 0 !in c.hostText(h))
    && (forall k: Key :: c.parseKey(c.keyText(k)) == k && |c.keyText(k)| < 256 && 0 !in c.keyText(k))
  }

  function Digit(n: nat): byte
    requires n < 16
  {
    if n < 10 then 48 + n else 87 + n
  }

  function DigitValue(d: byte): (n: nat)
    ensures n < 16
  {
    if 48 <= d < 58 then d - 48 else if 97 <= d < 103 then d - 87 else 0
  }

  /** Two hexadecimal digits for each byte. */
  function Hex(s: seq<byte>): (t: Text)
    ensures |t| == 2 * |s|
  {
    if s == [] then [] else [Digit(s[0] / 16), Digit(s[0] % 16)] + Hex(s[1..])
  }

  function Unhex(t: Text): (s: seq<byte>)
    ensures |s| == |t| / 2
  {
    if |t| < 2 then [] else [16 * DigitValue(t[0]) + DigitValue(t[1])] + Unhex(t[2..])
  }

  lemma {:induction false} HexRoundTrip(s: seq<byte>)
    ensures Unhex(Hex(s)) == s && 0 !in Hex(s)
  {
    if s != [] {
      HexRoundTrip(s[1..]);
      assert Hex(s)[2..] == Hex(s[1..]);
      assert s == [s[0]] + s[1..];
    }
  }

  /** Such texts exist: hexadecimal digits would do. */
  function HexTexts(): Texts {
    Texts((h: Host) => Hex(if h.V4? then h.quad else h.sixteen),
          (t: Text) => if |t| == 8 then Some(V4(Unhex(t))) else if |t| == 32 then Some(V6(Unhex(t))) else None,
          (k: Key) => Hex(k),
          (t: Text) => if |t| == 64 then Unhex(t) else seq(32, i => 0))
  }

  lemma HexTextsFaithful()
    ensures Faithful(HexTexts())
  {
    var c := HexTexts();
    forall h: Host ensures c.parseHost(c.hostText(h)) == Some(h) && |c.hostText(h)| < 256 && 0 !in c.hostText(h) {
      HexRoundTrip(if h.V4? then h.quad else h.sixteen);
    }
    forall k: Key ensures c.parseKey(c.keyText(k)) == k && |c.keyText(k)| < 256 && 0 !in c.keyText(k) {
      HexRoundTrip(k);
    }
  }

  datatype Style = NTCP | SSU | Other

  datatype Introducer = Introducer(host: Host, port: nat, tag: nat, key: Key)

  datatype Address = Address(
    style: Style, cost: byte, date: seq<byte>, host: Host, port: nat, mtu: nat, key: Key, introducers: seq<Introducer>)

  datatype Part = IHost | IKey | IPort | ITag | INone

  /** What the key of an entry stands for. */
  datatype Field = FHost | FPort | FMtu | FKey | FCaps | FIntro(part: Part, index: nat) | FNone

  datatype Item = Item(field: Field, value: Text)

  function NoIntroducer(): Introducer {
    Introducer(NoHost(), 0, 0, seq(32, i => 0))
  }

  function Blank(style: Style, cost: byte, date: seq<byte>): Address {
    Address(style, cost, date, NoHost(), 0, 0, seq(32, i => 0), [])
  }

  // ---------------------------------------------------------------- field names

  function PartText(p: Part): Text {
    match p
    case IHost => [105, 104, 111, 115, 116]
    case IKey => [105, 107, 101, 121]
    case IPort => [105, 112, 111, 114, 116]
    case ITag => [105, 116, 97, 103]
    case INone => [105]
  }

  function FieldText(f: Field): Text {
    match f
    case FHost => [104, 111, 115, 116]
    case FPort => [112, 111, 114, 116]
    case FMtu => [109, 116, 117]
    case FKey => [107, 101, 121]
    case FCaps => [99, 97, 112, 115]
    case FIntro(part, index) => PartText(part) + Digits(index)
    case FNone => []
  }

  function PartOf(t: Text): Part {
    if t == PartText(IHost) then IHost
    else if t == PartText(IPort) then IPort
    else if t == PartText(ITag) then ITag
    else if t == PartText(IKey) then IKey
    else INone
  }

  /** The last character of an introducer's key is taken for its number. */
  function FieldOf(key: Text): Field {
    if key == FieldText(FHost) then FHost
    else if key == FieldText(FPort) then FPort
    else if key == FieldText(FMtu) then FMtu
    else if key == FieldText(FKey) then FKey
    else if key == FieldText(FCaps) then FCaps
    else if key != [] && key[0] == 105 then FIntro(PartOf(key[..|key| - 1]), (key[|key| - 1] as int + 208) % 256)
    else FNone
  }

  predicate Named(f: Field) {
    match f
    case FIntro(part, index) => part != INone && index < 10
    case FNone => false
    case _ => true
  }

  /** Field names are told apart, introducers up to number nine included. */
  lemma FieldRoundTrip(f: Field)
    requires Named(f)
    ensures FieldOf(FieldText(f)) == f
  {
    if f.FIntro? {
      var t := FieldText(f);
      assert Digits(f.index) == [48 + f.index];
      assert t[..|t| - 1] == PartText(f.part) && t[0] == 105;
      PartRoundTrip(f.part);
    }
  }

  /** From the tenth introducer on, the number is cut to its last digit. */
  lemma IntroducerNumberExact(p: Part, i: nat)
    requires p != INone
    ensures FieldOf(FieldText(FIntro(p, i))) == FIntro(p, i) <==> i < 10
  {
    if i < 10 {
      FieldRoundTrip(FIntro(p, i));
    } else {
      var t := FieldText(FIntro(p, i));
      assert t[|t| - 1] == 48 + i % 10;
    }
  }

  /** Whatever character ends the name of an introducer's entry counts as its number, one byte wide. */
  lemma AnyIntroducerNumber(p: Part, ch: byte)
    requires p != INone
    ensures FieldOf(PartText(p) + [ch]) == FIntro(p, if ch >= 48 then ch - 48 else ch + 208)
  {
    var t := PartText(p) + [ch];
    assert t[..|t| - 1] == PartText(p) && t[0] == 105;
    PartRoundTrip(p);
    assert |PartText(p)| >= 4;
    NotAField(p, ch);
  }

  lemma NotAField(p: Part, ch: byte)
    ensures var t := PartText(p) + [ch];
            t != FieldText(FHost) && t != FieldText(FPort) && t != FieldText(FMtu) && t != FieldText(FKey) && t != FieldText(FCaps)
  {
    var t := PartText(p) + [ch];
    assert t[0] == 105;
    assert FieldText(FHost)[0] == 104 && FieldText(FPort)[0] == 112 && FieldText(FMtu)[0] == 109;
    assert FieldText(FKey)[0] == 107 && FieldText(FCaps)[0] == 99;
  }

  lemma PartRoundTrip(p: Part)
    requires p != INone
    ensures PartOf(PartText(p)) == p
  {
    assert PartText(IHost)[1] == 104 && PartText(IPort)[1] == 112;
    assert PartText(ITag)[1] == 116 && PartText(IKey)[1] == 107;
  }

  // ---------------------------------------------------------------- writing an address

  function PartValue(c: Texts, p: Part, x: Introducer): Text {
    match p
    case IHost => c.hostText(x.host)
    case IKey => c.keyText(x.key)
    case IPort => Digits(x.port)
    case ITag => Digits(x.tag)
    case INone => []
  }

  /** One pass over the introducers, from number `i` on. */
  function Pass(c: Texts, p: Part, xs: seq<Introducer>, i: nat): seq<Item>
    requires i <= |xs|
    decreases |xs| - i
  {
    if i == |xs| then [] else [Item(FIntro(p, i), PartValue(c, p, xs[i]))] + Pass(c, p, xs, i + 1)
  }

  function IntroducerItems(c: Texts, xs: seq<Introducer>): seq<Item> {
    Pass(c, IHost, xs, 0) + Pass(c, IKey, xs, 0) + Pass(c, IPort, xs, 0) + Pass(c, ITag, xs, 0)
  }

  function AddressItems(c: Texts, a: Address, caps: set<Cap>): seq<Item> {
    if a.style == SSU then
      [Item(FCaps, AddressCaps(caps)), Item(FHost, c.hostText(a.host))] + IntroducerItems(c, a.introducers) +
      [Item(FKey, c.keyText(a.key))] + (if a.mtu != 0 then [Item(FMtu, Digits(a.mtu))] else []) + [Item(FPort, Digits(a.port))]
    else [Item(FHost, c.hostText(a.host)), Item(FPort, Digits(a.port))]
  }

  // ---------------------------------------------------------------- reading an address

  /** An address being read, and the capabilities seen so far; `valid` unless an SSU host cannot be read. */
  datatype Building = Building(addr: Address, caps: set<Cap>, valid: bool)

  function SetPart(c: Texts, p: Part, x: Introducer, v: Text): Option<Introducer> {
    match p
    case IHost => Some(x.(host := var h := c.parseHost(v); if h.Some? then h.value else NoHost()))
    case IKey => Some(x.(key := c.parseKey(v)))
    case IPort => var n := ParseNumber(v); if n.Some? then Some(x.(port := n.value)) else None
    case ITag => var n := ParseNumber(v); if n.Some? then Some(x.(tag := n.value)) else None
    case INone => Some(x)
  }

  /** The list is made long enough for the number named. */
  function Resized(xs: seq<Introducer>, n: nat): (r: seq<Introducer>)
    ensures |r| == if |xs| < n then n else |xs|
  {
    if |xs| < n then xs + seq(n - |xs|, i => NoIntroducer()) else xs
  }

  /** One entry; nothing if a number cannot be read. */
  function Apply(c: Texts, b: Building, it: Item): Option<Building> {
    match it.field
    case FHost =>
      var h := c.parseHost(it.value);
      if h.Some? then Some(b.(addr := b.addr.(host := h.value)))
      else Some(if b.addr.style == NTCP then b else b.(valid := false))
    case FPort => var n := ParseNumber(it.value); if n.Some? then Some(b.(addr := b.addr.(port := n.value))) else None
    case FMtu => var n := ParseNumber(it.value); if n.Some? then Some(b.(addr := b.addr.(mtu := n.value))) else None
    case FKey => Some(b.(addr := b.addr.(key := c.parseKey(it.value))))
    case FCaps => Some(b.(caps := b.caps + CapsIn(it.value)))
    case FIntro(part, index) =>
      var xs := Resized(b.addr.introducers, index + 1);
      var x := SetPart(c, part, xs[index], it.value);
      if x.Some? then Some(b.(addr := b.addr.(introducers := xs[index := x.value]))) else None
    case FNone => Some(b)
  }

  function ApplyAll(c: Texts, b: Building, items: seq<Item>): Option<Building>
    decreases |items|
  {
    if items == [] then Some(b)
    else
      var b1 := Apply(c, b, items[0]);
      if b1.None? then None else ApplyAll(c, b1.value, items[1..])
  }

  lemma {:induction false} ApplyAppend(c: Texts, b: Building, xs: seq<Item>, ys: seq<Item>)
    ensures ApplyAll(c, b, xs + ys) ==
            var r := ApplyAll(c, b, xs); if r.None? then None else ApplyAll(c, r.value, ys)
    decreases |xs|
  {
    if xs == [] {
      assert xs + ys == ys;
    } else {
      assert (xs + ys)[0] == xs[0] && (xs + ys)[1..] == xs[1..] + ys;
      var b1 := Apply(c, b, xs[0]);
      if b1.Some? {
        ApplyAppend(c, b1.value, xs[1..], ys);
      }
    }
  }

  /** One entry more in front. */
  lemma ApplyCons(c: Texts, b: Building, it: Item, rest: seq<Item>, b1: Building)
    requires Apply(c, b, it) == Some(b1)
    ensures ApplyAll(c, b, [it] + rest) == ApplyAll(c, b1, rest)
  {
    assert ([it] + rest)[1..] == rest;
  }

  // ---------------------------------------------------------------- addresses of other routers

  /** The entry should be a number and is none. */
  predicate NoNumber(it: Item) {
    && (it.field == FPort || it.field == FMtu || (it.field.FIntro? && (it.field.part == IPort || it.field.part == ITag)))
    && ParseNumber(it.value).None?
  }

  /** An address is read to its end if and only if every number in it is one. */
  lemma {:induction false} ReadableExactly(c: Texts, b: Building, items: seq<Item>)
    ensures ApplyAll(c, b, items).None? <==> exists it :: it in items && NoNumber(it)
    decreases |items|
  {
    if items != [] {
      assert items == [items[0]] + items[1..];
      var b1 := Apply(c, b, items[0]);
      assert b1.None? <==> NoNumber(items[0]);
      if b1.Some? {
        ReadableExactly(c, b1.value, items[1..]);
      } else {
        assert items[0] in items;
      }
    }
  }

  /**
   It is kept if and only if its transport is NTCP or every host in it can be read; a host that cannot be read is as good
   as none.
   */
  lemma {:induction false} KeptExactly(c: Texts, b: Building, items: seq<Item>)
    requires ApplyAll(c, b, items).Some?
    ensures var r := ApplyAll(c, b, items).value;
            && r.addr.style == b.addr.style
            && (r.valid <==>
                  b.valid && (b.addr.style == NTCP || forall it :: it in items && it.field == FHost ==> c.parseHost(it.value).Some?))
            && ((forall it :: it in items && it.field == FHost ==> c.parseHost(it.value).None?) ==> r.addr.host == b.addr.host)
    decreases |items|
  {
    if items != [] {
      assert items == [items[0]] + items[1..];
      KeptExactly(c, Apply(c, b, items[0]).value, items[1..]);
      assert items[0] in items;
    }
  }

  // ---------------------------------------------------------------- introducers come back

  /** `x` with one part taken from `from`. */
  function With(p: Part, x: Introducer, from: Introducer): Introducer {
    match p
    case IHost => x.(host := from.host)
    case IKey => x.(key := from.key)
    case IPort => x.(port := from.port)
    case ITag => x.(tag := from.tag)
    case INone => x
  }

  lemma SetPartReads(c: Texts, p: Part, x: Introducer, from: Introducer)
    requires Faithful(c)
    ensures SetPart(c, p, x, PartValue(c, p, from)) == Some(With(p, x, from))
  {
    NumberRoundTrip(from.port);
    NumberRoundTrip(from.tag);
  }

  function Base(xs: seq<Introducer>, j: nat): Introducer {
    if j < |xs| then xs[j] else NoIntroducer()
  }

  /** What a pass makes of the list `xs`: from number `i` on, the part is filled in. */
  ghost predicate Filled(p: Part, xs: seq<Introducer>, i: nat, from: seq<Introducer>, r: seq<Introducer>) {
    |r| == |from| && forall j :: 0 <= j < |from| ==> r[j] == if j < i then Base(xs, j) else With(p, Base(xs, j), from[j])
  }

  lemma {:induction false} PassReads(c: Texts, b: Building, p: Part, from: seq<Introducer>, i: nat)
    requires Faithful(c) && i <= |from| && i <= |b.addr.introducers| <= |from|
    requires i < |from| || |b.addr.introducers| == |from|
    ensures var r := ApplyAll(c, b, Pass(c, p, from, i));
            && r.Some? && Filled(p, b.addr.introducers, i, from, r.value.addr.introducers)
            && r.value == b.(addr := b.addr.(introducers := r.value.addr.introducers))
    decreases |from| - i
  {
    if i < |from| {
      var xs := b.addr.introducers;
      var ys := Resized(xs, i + 1);
      var zs := ys[i := With(p, ys[i], from[i])];
      var b1 := b.(addr := b.addr.(introducers := zs));
      IntroRead(c, b, p, from[i], i);
      ApplyCons(c, b, Item(FIntro(p, i), PartValue(c, p, from[i])), Pass(c, p, from, i + 1), b1);
      PassReads(c, b1, p, from, i + 1);
      FilledStep(p, xs, i, from, ApplyAll(c, b1, Pass(c, p, from, i + 1)).value.addr.introducers);
    }
  }

  lemma IntroRead(c: Texts, b: Building, p: Part, from: Introducer, i: nat)
    requires Faithful(c)
    ensures var ys := Resized(b.addr.introducers, i + 1);
            Apply(c, b, Item(FIntro(p, i), PartValue(c, p, from))) ==
            Some(b.(addr := b.addr.(introducers := ys[i := With(p, ys[i], from)])))
  {
    SetPartReads(c, p, Resized(b.addr.introducers, i + 1)[i], from);
  }

  lemma FilledStep(p: Part, xs: seq<Introducer>, i: nat, from: seq<Introducer>, r: seq<Introducer>)
    requires i < |from| && i <= |xs| <= |from|
    requires var ys := Resized(xs, i + 1); Filled(p, ys[i := With(p, ys[i], from[i])], i + 1, from, r)
    ensures Filled(p, xs, i, from, r)
  {
    var ys := Resized(xs, i + 1);
    var zs := ys[i := With(p, ys[i], from[i])];
    forall j | 0 <= j < |from|
      ensures r[j] == if j < i then Base(xs, j) else With(p, Base(xs, j), from[j])
    {
      assert Base(zs, j) == if j == i then With(p, Base(xs, j), from[j]) else Base(xs, j);
    }
  }

  lemma AllParts(x: Introducer, from: Introducer)
    ensures With(ITag, With(IPort, With(IKey, With(IHost, x, from), from), from), from) == from
  {
  }

  lemma FilledAt(p: Part, xs: seq<Introducer>, from: seq<Introducer>, r: seq<Introducer>, j: nat)
    requires Filled(p, xs, 0, from, r) && j < |from|
    ensures r[j] == With(p, Base(xs, j), from[j]) && Base(r, j) == r[j]
  {
  }

  /** After the four passes every introducer is back. */
  lemma IntroducersRead(c: Texts, b: Building, from: seq<Introducer>)
    requires Faithful(c) && b.addr.introducers == []
    ensures ApplyAll(c, b, IntroducerItems(c, from)) == Some(b.(addr := b.addr.(introducers := from)))
  {
    var h, k, p, t := Pass(c, IHost, from, 0), Pass(c, IKey, from, 0), Pass(c, IPort, from, 0), Pass(c, ITag, from, 0);
    ApplyAppend(c, b, h + k + p, t);
    ApplyAppend(c, b, h + k, p);
    ApplyAppend(c, b, h, k);
    PassReads(c, b, IHost, from, 0);
    var b1 := ApplyAll(c, b, h).value;
    PassReads(c, b1, IKey, from, 0);
    var b2 := ApplyAll(c, b1, k).value;
    PassReads(c, b2, IPort, from, 0);
    var b3 := ApplyAll(c, b2, p).value;
    PassReads(c, b3, ITag, from, 0);
    var r := ApplyAll(c, b3, t).value.addr.introducers;
    forall j | 0 <= j < |from| ensures r[j] == from[j] {
      FilledAt(IHost, [], from, b1.addr.introducers, j);
      FilledAt(IKey, b1.addr.introducers, from, b2.addr.introducers, j);
      FilledAt(IPort, b2.addr.introducers, from, b3.addr.introducers, j);
      FilledAt(ITag, b3.addr.introducers, from, r, j);
      AllParts(NoIntroducer(), from[j]);
    }
    assert r == from;
  }

  // ---------------------------------------------------------------- an address comes back

  /** Addresses other than SSU have no key, MTU or introducers. */
  ghost predicate Writable(a: Address) {
    && |a.date| == 8 && |a.introducers| <= 10 && a.port < 0x1_0000_0000 && a.mtu < 0x1_0000_0000
    && (forall x :: x in a.introducers ==> x.port < 0x1_0000_0000 && x.tag < 0x1_0000_0000)
    && (a.style != SSU ==> a == Blank(a.style, a.cost, a.date).(host := a.host, port := a.port))
  }

  function SsuCaps(a: Address, caps: set<Cap>): set<Cap> {
    if a.style == SSU then CapsIn(AddressCaps(caps)) else {}
  }

  lemma SsuRead(c: Texts, a: Address, caps: set<Cap>, seen: set<Cap>)
    requires Faithful(c) && a.style == SSU
    ensures ApplyAll(c, Building(Blank(SSU, a.cost, a.date), seen, true), AddressItems(c, a, caps)) ==
            Some(Building(a, seen + CapsIn(AddressCaps(caps)), true))
  {
    var blank := Blank(SSU, a.cost, a.date);
    var said := seen + CapsIn(AddressCaps(caps));
    var i1, i2, i3 := Item(FCaps, AddressCaps(caps)), Item(FHost, c.hostText(a.host)), Item(FKey, c.keyText(a.key));
    var i4, i5 := Item(FMtu, Digits(a.mtu)), Item(FPort, Digits(a.port));
    var mtu := if a.mtu != 0 then [i4] else [];
    var xs := IntroducerItems(c, a.introducers);
    assert AddressItems(c, a, caps) == [i1] + ([i2] + (xs + ([i3] + (mtu + ([i5] + [])))));
    NumberRoundTrip(a.mtu);
    NumberRoundTrip(a.port);
    var b1 := Building(blank, said, true);
    ApplyCons(c, Building(blank, seen, true), i1, [i2] + (xs + ([i3] + (mtu + ([i5] + [])))), b1);
    var b2 := b1.(addr := blank.(host := a.host));
    ApplyCons(c, b1, i2, xs + ([i3] + (mtu + ([i5] + []))), b2);
    ApplyAppend(c, b2, xs, [i3] + (mtu + ([i5] + [])));
    IntroducersRead(c, b2, a.introducers);
    var b3 := b2.(addr := b2.addr.(introducers := a.introducers));
    var b4 := b3.(addr := b3.addr.(key := a.key));
    ApplyCons(c, b3, i3, mtu + ([i5] + []), b4);
    LastItems(c, b4, a, said);
  }

  lemma LastItems(c: Texts, b: Building, a: Address, said: set<Cap>)
    requires b == Building(a.(mtu := 0, port := 0), said, true)
    ensures ApplyAll(c, b, (if a.mtu != 0 then [Item(FMtu, Digits(a.mtu))] else []) + ([Item(FPort, Digits(a.port))] + [])) ==
            Some(Building(a, said, true))
  {
    NumberRoundTrip(a.mtu);
    NumberRoundTrip(a.port);
    var i4, i5 := Item(FMtu, Digits(a.mtu)), Item(FPort, Digits(a.port));
    var b1 := b.(addr := b.addr.(mtu := a.mtu));
    if a.mtu != 0 {
      ApplyCons(c, b, i4, [i5] + [], b1);
    } else {
      assert [] + ([i5] + []) == [i5] + [];
      assert b == b1;
    }
    ApplyCons(c, b1, i5, [], Building(a, said, true));
  }

  lemma OtherRead(c: Texts, a: Address, caps: set<Cap>, seen: set<Cap>)
    requires Faithful(c) && a.style != SSU && a == Blank(a.style, a.cost, a.date).(host := a.host, port := a.port)
    ensures ApplyAll(c, Building(Blank(a.style, a.cost, a.date), seen, true), AddressItems(c, a, caps)) ==
            Some(Building(a, seen, true))
  {
    var b := Building(Blank(a.style, a.cost, a.date), seen, true);
    var i1, i2 := Item(FHost, c.hostText(a.host)), Item(FPort, Digits(a.port));
    NumberRoundTrip(a.port);
    assert AddressItems(c, a, caps) == [i1] + ([i2] + []);
    var b1 := b.(addr := b.addr.(host := a.host));
    ApplyCons(c, b, i1, [i2] + [], b1);
    ApplyCons(c, b1, i2, [], Building(a, seen, true));
  }

  lemma AddressRead(c: Texts, a: Address, caps: set<Cap>, seen: set<Cap>)
    requires Faithful(c) && Writable(a)
    ensures ApplyAll(c, Building(Blank(a.style, a.cost, a.date), seen, true), AddressItems(c, a, caps)) ==
            Some(Building(a, seen + SsuCaps(a, caps), true))
  {
    if a.style == SSU {
      SsuRead(c, a, caps, seen);
    } else {
      OtherRead(c, a, caps, seen);
      assert seen + {} == seen;
    }
  }

  // ---------------------------------------------------------------- names and sizes

  function Entries(items: seq<Item>): (es: seq<Entry>)
    ensures |es| == |items| && forall i :: 0 <= i < |items| ==> es[i] == Entry(FieldText(items[i].field), items[i].value)
  {
    seq(|items|, i requires 0 <= i < |items| => Entry(FieldText(items[i].field), items[i].value))
  }

  function Items(es: seq<Entry>): (items: seq<Item>)
    ensures |items| == |es| && forall i :: 0 <= i < |es| ==> items[i] == Item(FieldOf(es[i].key), es[i].value)
  {
    seq(|es|, i requires 0 <= i < |es| => Item(FieldOf(es[i].key), es[i].value))
  }

  /** An item whose name is told apart and whose texts are short. */
  ghost predicate Good(it: Item) {
    Named(it.field) && |it.value| < 256
  }

  lemma ItemsRoundTrip(items: seq<Item>)
    requires forall it :: it in items ==> Good(it)
    ensures Items(Entries(items)) == items && forall e :: e in Entries(items) ==> Short(e)
  {
    var es := Entries(items);
    forall i | 0 <= i < |items| ensures Items(es)[i] == items[i] && Short(es[i]) {
      assert items[i] in items;
      FieldRoundTrip(items[i].field);
      FieldShort(items[i].field);
    }
  }

  lemma FieldShort(f: Field)
    requires Named(f)
    ensures |FieldText(f)| < 256
  {
  }

  lemma NumberShort(n: nat)
    requires n < 0x1_0000_0000
    ensures |Digits(n)| < 256
  {
    assert Pow(10, 10) == 10000000000;
    DigitsShort(n, 10);
  }

  lemma {:induction false} PassGood(c: Texts, p: Part, xs: seq<Introducer>, i: nat)
    requires Faithful(c) && p != INone && i <= |xs| <= 10
    requires forall x :: x in xs ==> x.port < 0x1_0000_0000 && x.tag < 0x1_0000_0000
    ensures |Pass(c, p, xs, i)| == |xs| - i && forall it :: it in Pass(c, p, xs, i) ==> Good(it)
    decreases |xs| - i
  {
    if i < |xs| {
      assert xs[i] in xs;
      NumberShort(xs[i].port);
      NumberShort(xs[i].tag);
      PassGood(c, p, xs, i + 1);
    }
  }

  lemma AddressGood(c: Texts, a: Address, caps: set<Cap>)
    requires Faithful(c) && Writable(a)
    ensures |AddressItems(c, a, caps)| <= 45 && forall it :: it in AddressItems(c, a, caps) ==> Good(it)
  {
    NumberShort(a.port);
    NumberShort(a.mtu);
    PassGood(c, IHost, a.introducers, 0);
    PassGood(c, IKey, a.introducers, 0);
    PassGood(c, IPort, a.introducers, 0);
    PassGood(c, ITag, a.introducers, 0);
  }

  lemma {:induction false} EntriesSize(es: seq<Entry>)
    requires forall e :: e in es ==> Short(e)
    ensures |WriteEntries(es)| <= 514 * |es|
    decreases |es|
  {
    if es != [] {
      EntryRoundTrip(es[0], []);
      EntriesSize(es[1..]);
    }
  }

  // ---------------------------------------------------------------- addresses as bytes

  function StyleText(s: Style): Text {
    match s case NTCP => [78, 84, 67, 80] case SSU => [83, 83, 85] case Other => []
  }

  function StyleOf(t: Text): Style {
    if t == StyleText(NTCP) then NTCP else if t == StyleText(SSU) then SSU else Other
  }

  function WriteAddress(c: Texts, a: Address, caps: set<Cap>): seq<byte> {
    [a.cost] + (a.date + (WriteString(StyleText(a.style)) + WriteMapping(Entries(AddressItems(c, a, caps)))))
  }

  /** The next address, if it is valid, and the capabilities seen so far. */
  type ParsedAddress = Parsed<Address, set<Cap>>

  function ReadAddress(c: Texts, s: seq<byte>, seen: set<Cap>): Option<Read<ParsedAddress>> {
    if |s| < 9 then None
    else
      var style := ReadString(s[9..]);
      if style.None? then None
      else
        var es := ReadMapping(style.value.rest);
        if es.None? then None
        else
          var b := ApplyAll(c, Building(Blank(StyleOf(style.value.value), s[0], s[1..9]), seen, true), Items(es.value.value));
          if b.None? then None
          else Some(Read(Parsed(if b.value.valid then [b.value.addr] else [], b.value.caps), es.value.rest))
  }

  lemma FrontParts(cost: byte, date: seq<byte>, rest: seq<byte>, tail: seq<byte>)
    requires |date| == 8
    ensures var s := [cost] + (date + rest) + tail; s[0] == cost && s[1..9] == date && s[9..] == rest + tail
  {
  }

  lemma AddressRoundTrip(c: Texts, a: Address, caps: set<Cap>, seen: set<Cap>, tail: seq<byte>)
    requires Faithful(c) && Writable(a)
    ensures ReadAddress(c, WriteAddress(c, a, caps) + tail, seen) == Some(Read(Parsed([a], seen + SsuCaps(a, caps)), tail))
  {
    var items := AddressItems(c, a, caps);
    var es, style := Entries(items), StyleText(a.style);
    FrontParts(a.cost, a.date, WriteString(style) + WriteMapping(es), tail);
    ConcatAssociates(WriteString(style), WriteMapping(es), tail);
    StringRoundTrip(style, WriteMapping(es) + tail);
    AddressMapping(c, a, caps, tail);
    StyleRoundTrip(a.style);
    AddressRead(c, a, caps, seen);
  }

  lemma AddressMapping(c: Texts, a: Address, caps: set<Cap>, tail: seq<byte>)
    requires Faithful(c) && Writable(a)
    ensures var items := AddressItems(c, a, caps);
            ReadMapping(WriteMapping(Entries(items)) + tail) == Some(Read(Entries(items), tail)) && Items(Entries(items)) == items
  {
    var items := AddressItems(c, a, caps);
    AddressGood(c, a, caps);
    ItemsRoundTrip(items);
    EntriesSize(Entries(items));
    MappingRoundTrip(Entries(items), tail);
  }

  lemma StyleRoundTrip(s: Style)
    ensures StyleOf(StyleText(s)) == s
  {
    assert StyleText(NTCP)[0] == 78 && StyleText(SSU)[0] == 83;
  }

  function WriteAddresses(c: Texts, list: seq<Address>, caps: set<Cap>): seq<byte> {
    WriteMany((a: Address) => WriteAddress(c, a, caps), list)
  }

  function ReadAddresses(c: Texts, s: seq<byte>, n: nat, seen: set<Cap>): Option<Read<ParsedAddress>> {
    ReadMany((t: seq<byte>, x: set<Cap>) => ReadAddress(c, t, x), s, n, seen)
  }

  function AllSsuCaps(list: seq<Address>, caps: set<Cap>): set<Cap> {
    if list == [] then {} else SsuCaps(list[0], caps) + AllSsuCaps(list[1..], caps)
  }

  lemma {:induction false} CapsLearnt(list: seq<Address>, caps: set<Cap>, seen: set<Cap>)
    ensures LearnAll((x: set<Cap>, a: Address) => x + SsuCaps(a, caps), seen, list) == seen + AllSsuCaps(list, caps)
    decreases |list|
  {
    if list == [] {
      assert seen + {} == seen;
    } else {
      CapsLearnt(list[1..], caps, seen + SsuCaps(list[0], caps));
    }
  }

  lemma AddressesRoundTrip(c: Texts, list: seq<Address>, caps: set<Cap>, seen: set<Cap>, tail: seq<byte>)
    requires Faithful(c) && forall a :: a in list ==> Writable(a)
    ensures ReadAddresses(c, WriteAddresses(c, list, caps) + tail, |list|, seen) ==
            Some(Read(Parsed(list, seen + AllSsuCaps(list, caps)), tail))
  {
    var write := (a: Address) => WriteAddress(c, a, caps);
    var read := (t: seq<byte>, x: set<Cap>) => ReadAddress(c, t, x);
    var learn := (x: set<Cap>, a: Address) => x + SsuCaps(a, caps);
    forall a, x, y | a in list ensures read(write(a) + y, x) == Some(Read(Parsed([a], learn(x, a)), y)) {
      AddressRoundTrip(c, a, caps, x, y);
    }
    ManyRoundTrip(write, read, learn, list, seen, tail);
    CapsLearnt(list, caps, seen);
  }

  // ---------------------------------------------------------------- properties

  /** A string as C sees it: up to the first zero. */
  function CString(t: Text): Text {
    if t == [] || t[0] == 0 then [] else [t[0]] + CString(t[1..])
  }

  lemma {:induction false} CStringIs(t: Text)
    requires 0 !in t
    ensures CString(t) == t
    decreases |t|
  {
    if t != [] {
      CStringIs(t[1..]);
      assert t == [t[0]] + t[1..];
    }
  }

  function PropertyEntries(properties: map<Text, Text>, order: seq<Text>): seq<Entry>
    requires forall k :: k in order ==> k in properties
  {
    if order == [] then [] else [Entry(order[0], properties[order[0]])] + PropertyEntries(properties, order[1..])
  }

  datatype Properties = Properties(values: map<Text, Text>, caps: set<Cap>)

  function SetProperty(p: Properties, e: Entry): Properties {
    var k, v := CString(e.key), CString(e.value);
    Properties(p.values[k := v], if k == FieldText(FCaps) then p.caps + CapsIn(v) else p.caps)
  }

  function SetProperties(p: Properties, es: seq<Entry>): Properties
    decreases |es|
  {
    if es == [] then p else SetProperties(SetProperty(p, es[0]), es[1..])
  }

  function PropertyCaps(properties: map<Text, Text>, order: seq<Text>): set<Cap> {
    if FieldText(FCaps) in order && FieldText(FCaps) in properties then CapsIn(properties[FieldText(FCaps)]) else {}
  }

  /** Texts without zeros that fit the reader's buffers of 50 bytes. */
  ghost predicate Plain(properties: map<Text, Text>) {
    forall k :: k in properties ==> 0 !in k && 0 !in properties[k] && |k| < 50 && |properties[k]| < 50
  }

  lemma {:induction false} PropertiesRead(p: Properties, properties: map<Text, Text>, order: seq<Text>)
    requires Plain(properties) && forall k :: k in order ==> k in properties
    ensures var r := SetProperties(p, PropertyEntries(properties, order));
            && (forall k :: k in r.values <==> k in p.values || k in order)
            && (forall k :: k in r.values ==> r.values[k] == if k in order then properties[k] else p.values[k])
            && r.caps == p.caps + PropertyCaps(properties, order)
    decreases |order|
  {
    if order != [] {
      var k, rest := order[0], order[1..];
      CStringIs(k);
      CStringIs(properties[k]);
      var p1 := SetProperty(p, Entry(k, properties[k]));
      PropertiesRead(p1, properties, rest);
      assert PropertyEntries(properties, order)[1..] == PropertyEntries(properties, rest);
      assert forall x :: x in order <==> x == k || x in rest;
    }
  }

  lemma {:induction false} PropertiesShort(properties: map<Text, Text>, order: seq<Text>)
    requires Plain(properties) && forall k :: k in order ==> k in properties
    ensures forall e :: e in PropertyEntries(properties, order) ==> Short(e)
    decreases |order|
  {
    if order != [] {
      PropertiesShort(properties, order[1..]);
    }
  }

  // ---------------------------------------------------------------- the whole RouterInfo

  datatype Info = Info(timestamp: nat, addresses: seq<Address>, properties: map<Text, Text>, caps: set<Cap>)

  /** `order` is the order in which the properties are kept. */
  function WriteInfo(c: Texts, r: Info, order: seq<Text>): seq<byte>
    requires forall k :: k in order ==> k in r.properties
  {
    Layout(BigEndian(r.timestamp, 8), |r.addresses| % 256, WriteAddresses(c, r.addresses, r.caps),
           WriteMapping(PropertyEntries(r.properties, order)))
  }

  /** Timestamp, number of addresses, addresses, number of peers, properties. */
  function Layout(timestamp: seq<byte>, n: byte, addresses: seq<byte>, mapping: seq<byte>): seq<byte> {
    timestamp + ([n] + (addresses + ([0] + mapping)))
  }

  /** Peers, which are skipped, and properties. */
  function ReadTail(rest: seq<byte>, seen: set<Cap>): Option<Read<Properties>> {
    if rest == [] || |rest| < 1 + 32 * rest[0] as int then None
    else
      var es := ReadMapping(rest[1 + 32 * rest[0] as int..]);
      if es.None? then None else Some(Read(SetProperties(Properties(map[], seen), es.value.value), es.value.rest))
  }

  function ReadInfo(c: Texts, s: seq<byte>): Option<Read<Info>> {
    if |s| < 9 then None
    else
      var list := ReadAddresses(c, s[9..], s[8], {});
      if list.None? then None
      else
        var p := ReadTail(list.value.rest, list.value.value.state);
        if p.None? then None
        else Some(Read(Info(FromBigEndian(s[..8]), list.value.value.items, p.value.value.values, p.value.value.caps), p.value.rest))
  }

  ghost predicate WritableInfo(r: Info, order: seq<Text>) {
    && r.timestamp < Pow(256, 8) && |r.addresses| < 256 && (forall a :: a in r.addresses ==> Writable(a))
    && Plain(r.properties) && (forall k :: k in order <==> k in r.properties)
    && |WriteEntries(PropertyEntries(r.properties, order))| < 65536
  }

  lemma InfoParts(ts: seq<byte>, n: byte, addresses: seq<byte>, mapping: seq<byte>, tail: seq<byte>)
    requires |ts| == 8
    ensures var s := Layout(ts, n, addresses, mapping) + tail;
            |s| >= 9 && s[..8] == ts && s[8] == n && s[9..] == addresses + ([0] + (mapping + tail))
  {
  }

  /**
   Reading undoes writing: timestamp, addresses and properties come back and every byte written is used, no more. The
   capabilities are those the SSU addresses and the caps property tell.
   */
  lemma InfoRoundTrip(c: Texts, r: Info, order: seq<Text>, tail: seq<byte>)
    requires Faithful(c) && WritableInfo(r, order)
    ensures ReadInfo(c, WriteInfo(c, r, order) + tail) ==
            Some(Read(r.(caps := AllSsuCaps(r.addresses, r.caps) + PropertyCaps(r.properties, order)), tail))
  {
    WrittenParts(c, r, order, tail);
    BigEndianRoundTrip(r.timestamp, 8);
    InfoRead(c, r, order, WriteInfo(c, r, order) + tail, tail);
  }

  lemma WrittenParts(c: Texts, r: Info, order: seq<Text>, tail: seq<byte>)
    requires |r.addresses| < 256 && forall k :: k in order ==> k in r.properties
    ensures var s := WriteInfo(c, r, order) + tail;
            && |s| >= 9 && s[..8] == BigEndian(r.timestamp, 8) && s[8] == |r.addresses|
            && s[9..] == WriteAddresses(c, r.addresses, r.caps) +
                         ([0] + (WriteMapping(PropertyEntries(r.properties, order)) + tail))
  {
    var n: byte := |r.addresses|;
    assert |r.addresses| % 256 == n;
    InfoParts(BigEndian(r.timestamp, 8), n, WriteAddresses(c, r.addresses, r.caps),
              WriteMapping(PropertyEntries(r.properties, order)), tail);
  }

  lemma InfoRead(c: Texts, r: Info, order: seq<Text>, s: seq<byte>, tail: seq<byte>)
    requires Faithful(c) && WritableInfo(r, order) && |s| >= 9 && FromBigEndian(s[..8]) == r.timestamp && s[8] == |r.addresses|
    requires s[9..] == WriteAddresses(c, r.addresses, r.caps) + ([0] + (WriteMapping(PropertyEntries(r.properties, order)) + tail))
    ensures ReadInfo(c, s) == Some(Read(r.(caps := AllSsuCaps(r.addresses, r.caps) + PropertyCaps(r.properties, order)), tail))
  {
    var ssu := AllSsuCaps(r.addresses, r.caps);
    var rest := [0] + (WriteMapping(PropertyEntries(r.properties, order)) + tail);
    AddressesRoundTrip(c, r.addresses, r.caps, {}, rest);
    assert {} + ssu == ssu;
    TailRoundTrip(r.properties, order, ssu, tail);
  }

  lemma TailRoundTrip(properties: map<Text, Text>, order: seq<Text>, seen: set<Cap>, tail: seq<byte>)
    requires Plain(properties) && (forall k :: k in order <==> k in properties)
    requires |WriteEntries(PropertyEntries(properties, order))| < 65536
    ensures ReadTail([0] + (WriteMapping(PropertyEntries(properties, order)) + tail), seen) ==
            Some(Read(Properties(properties, seen + PropertyCaps(properties, order)), tail))
  {
    var es := PropertyEntries(properties, order);
    PropertiesShort(properties, order);
    MappingRoundTrip(es, tail);
    TailRead(WriteMapping(es) + tail, es, seen, tail);
    PropertiesRoundTrip(properties, order, seen);
  }

  lemma TailRead(m: seq<byte>, es: seq<Entry>, seen: set<Cap>, tail: seq<byte>)
    requires ReadMapping(m) == Some(Read(es, tail))
    ensures ReadTail([0] + m, seen) == Some(Read(SetProperties(Properties(map[], seen), es), tail))
  {
    assert ([0] + m)[1..] == m;
  }

  lemma PropertiesRoundTrip(properties: map<Text, Text>, order: seq<Text>, seen: set<Cap>)
    requires Plain(properties) && (forall k :: k in order <==> k in properties)
    ensures SetProperties(Properties(map[], seen), PropertyEntries(properties, order)) ==
            Properties(properties, seen + PropertyCaps(properties, order))
  {
    PropertiesRead(Properties(map[], seen), properties, order);
    assert SetProperties(Properties(map[], seen), PropertyEntries(properties, order)).values == properties;
  }

  /** A router that keeps its caps property up to date and has an SSU address gets its capabilities back as well. */
  lemma CapsRoundTrip(c: Texts, r: Info, order: seq<Text>, tail: seq<byte>)
    requires Faithful(c) && WritableInfo(r, order)
    requires FieldText(FCaps) in r.properties && r.properties[FieldText(FCaps)] == CapsProperty(r.caps)
    requires exists a :: a in r.addresses && a.style == SSU
    ensures ReadInfo(c, WriteInfo(c, r, order) + tail) ==
            Some(Read(r.(caps := r.caps + if Floodfill in r.caps then {HighBandwidth} else {}), tail))
  {
    InfoRoundTrip(c, r, order, tail);
    CapsTold(r, order);
  }

  /** A router with one SSU address and a current caps property. */
  function SimpleRouter(h: Host, port: nat, key: Key, caps: set<Cap>): Info {
    Info(0, [Blank(SSU, 0, seq(8, i => 0)).(host := h, port := port, key := key)],
         map[FieldText(FCaps) := CapsProperty(caps)], caps)
  }

  /** Every such router meets the conditions, so its RouterInfo survives being written and read. */
  lemma SimpleRouterRoundTrip(c: Texts, h: Host, port: nat, key: Key, caps: set<Cap>)
    requires Faithful(c) && port < 65536
    ensures var r := SimpleRouter(h, port, key, caps);
            && WritableInfo(r, [FieldText(FCaps)])
            && ReadInfo(c, WriteInfo(c, r, [FieldText(FCaps)])) ==
               Some(Read(r.(caps := caps + if Floodfill in caps then {HighBandwidth} else {}), []))
  {
    var r, order := SimpleRouter(h, port, key, caps), [FieldText(FCaps)];
    SimpleWritable(h, port, key, caps);
    CapsRoundTrip(c, r, order, []);
    assert WriteInfo(c, r, order) + [] == WriteInfo(c, r, order);
  }

  lemma SimpleWritable(h: Host, port: nat, key: Key, caps: set<Cap>)
    requires port < 65536
    ensures var r := SimpleRouter(h, port, key, caps);
            WritableInfo(r, [FieldText(FCaps)]) && exists a :: a in r.addresses && a.style == SSU
  {
    var r, order := SimpleRouter(h, port, key, caps), [FieldText(FCaps)];
    assert r.addresses[0] in r.addresses && FieldText(FCaps) in order;
    CapsPropertyPlain(caps);
    assert Plain(r.properties);
    PropertiesShort(r.properties, order);
    EntriesSize(PropertyEntries(r.properties, order));
    PropertyCount(r.properties, order);
    PowPositive(256, 8);
  }

  lemma CapsPropertyPlain(caps: set<Cap>)
    ensures 0 !in CapsProperty(caps) && |CapsProperty(caps)| <= 5
  {
  }

  lemma {:induction false} PropertyCount(properties: map<Text, Text>, order: seq<Text>)
    requires forall k :: k in order ==> k in properties
    ensures |PropertyEntries(properties, order)| == |order|
    decreases |order|
  {
    if order != [] {
      PropertyCount(properties, order[1..]);
    }
  }

  lemma CapsTold(r: Info, order: seq<Text>)
    requires FieldText(FCaps) in r.properties && r.properties[FieldText(FCaps)] == CapsProperty(r.caps)
    requires FieldText(FCaps) in order && exists a :: a in r.addresses && a.style == SSU
    ensures AllSsuCaps(r.addresses, r.caps) + PropertyCaps(r.properties, order) ==
            r.caps + if Floodfill in r.caps then {HighBandwidth} else {}
  {
    SsuSays(r.addresses, r.caps);
    CapsRecovered(r.caps);
  }

  lemma {:induction false} SsuSays(list: seq<Address>, caps: set<Cap>)
    ensures AllSsuCaps(list, caps) ==
            if exists a :: a in list && a.style == SSU then CapsIn(AddressCaps(caps)) else {}
    decreases |list|
  {
    if list != [] {
      SsuSays(list[1..], caps);
      assert list == [list[0]] + list[1..];
      assert list[0] in list;
    }
  }
}

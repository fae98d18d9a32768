/**
  * The USB descriptor walk (crates/usb-backend/src/descriptors.rs; the layouts are those of
  * section 9.6 of the USB 2.0 specification).
  */
module Descriptors {
  import opened Types
  import opened Wire

  const DT_DEVICE: u8 := 1
  const DT_CONFIG: u8 := 2
  const DT_INTERFACE: u8 := 4
  const DT_ENDPOINT: u8 := 5
  const DEVICE_DESC_LEN := 18

  datatype DeviceDescriptor = DeviceDescriptor(
    bcdUsb: u16, deviceClass: u8, deviceSubClass: u8, deviceProtocol: u8, maxPacketSize0: u8,
    idVendor: u16, idProduct: u16, bcdDevice: u16, numConfigurations: u8)

  datatype Endpoint = Endpoint(address: u8, attributes: u8, maxPacketSize: u16, interval: u8)

  datatype AltSetting = AltSetting(
    interfaceNumber: u8, alternateSetting: u8, class_: u8, subClass: u8, protocol: u8,
    endpoints: seq<Endpoint>)

  datatype Config = Config(configurationValue: u8, numInterfaces: u8, altSettings: seq<AltSetting>)

  datatype Tree = Tree(device: DeviceDescriptor, configs: seq<Config>)

  datatype Malformed = TooShort | NotADevice | ShortConfiguration | EndpointOutsideInterface

  /** Parsing gives a value, refuses, or indexes out of bounds, which in Rust is a panic. */
  datatype Outcome<T> = Parsed(value: T) | Refused(why: Malformed) | Panics

  function U16Le(b: Bytes, off: nat): u16
    requires off + 2 <= |b|
  {
    Word16Le(b[off], b[off + 1])
  }

  // --------------------------------------------------------- one configuration

  /** A descriptor starts at `pos` and lies inside `b`. */
  predicate DescriptorAt(b: Bytes, pos: nat) {
    pos + 2 <= |b| && b[pos] >= 2 && pos + b[pos] <= |b|
  }

  /** What one descriptor does to the alternate settings seen so far. */
  function Absorb(d: Bytes, alts: seq<AltSetting>): Outcome<seq<AltSetting>>
    requires |d| >= 2
  {
    if d[1] == DT_INTERFACE && |d| >= 9 then
      Parsed(alts + [AltSetting(d[2], d[3], d[5], d[6], d[7], [])])
    else if d[1] == DT_ENDPOINT && |d| >= 7 then
      if alts == [] then Refused(EndpointOutsideInterface)
      else Parsed(AddEndpoint(alts, Endpoint(d[2], d[3], U16Le(d, 4), d[6])))
    else Parsed(alts)
  }

  function AddEndpoint(alts: seq<AltSetting>, ep: Endpoint): (r: seq<AltSetting>)
    requires alts != []
    ensures |r| == |alts|
  {
    var last := alts[|alts| - 1];
    alts[..|alts| - 1] + [last.(endpoints := last.endpoints + [ep])]
  }

  function Walk(b: Bytes, pos: nat, alts: seq<AltSetting>): Outcome<seq<AltSetting>>
    decreases |b| - pos, b
  {
    if !DescriptorAt(b, pos) then Parsed(alts)
    else
      match Absorb(b[pos..pos + b[pos]], alts)
      case Parsed(alts') => Walk(b, pos + b[pos], alts')
      case Refused(why) => Refused(why)
      case Panics => Panics
  }

  function ParseConfig(b: Bytes): Outcome<Config> {
    if |b| < 6 then Panics
    else
      match Walk(b, b[0], [])
      case Parsed(alts) => Parsed(Config(b[5], b[4], alts))
      case Refused(why) => Refused(why)
      case Panics => Panics
  }

  method ParseConfiguration(b: Bytes) returns (r: Outcome<Config>)
    ensures r == ParseConfig(b)
  {
    if |b| < 6 {
      return Panics;
    }
    var alts: seq<AltSetting> := [];
    var pos: nat := b[0];
    while pos + 2 <= |b|
      invariant Walk(b, pos, alts) == Walk(b, b[0], [])
      decreases |b| - pos
    {
      var len: nat := b[pos];
      if len < 2 || pos + len > |b| {
        break;
      }
      if b[pos + 1] == DT_INTERFACE && len >= 9 {
        alts := alts + [AltSetting(b[pos + 2], b[pos + 3], b[pos + 5], b[pos + 6], b[pos + 7], [])];
      } else if b[pos + 1] == DT_ENDPOINT && len >= 7 {
        if alts == [] {
          return Refused(EndpointOutsideInterface);
        }
        alts := AddEndpoint(alts, Endpoint(b[pos + 2], b[pos + 3], U16Le(b, pos + 4), b[pos + 6]));
      }
      pos := pos + len;
    }
    r := Parsed(Config(b[5], b[4], alts));
  }

  // ------------------------------------------------------------ the whole blob

  function DeviceOf(b: Bytes): DeviceDescriptor
    requires |b| >= DEVICE_DESC_LEN
  {
    DeviceDescriptor(U16Le(b, 2), b[4], b[5], b[6], b[7], U16Le(b, 8), U16Le(b, 10), U16Le(b, 12), b[17])
  }

  predicate ConfigAt(b: Bytes, pos: nat) {
    DescriptorAt(b, pos) && b[pos + 1] == DT_CONFIG
  }

  /** A configuration header that declares its own total length. */
  predicate HeaderAt(b: Bytes, pos: nat) {
    ConfigAt(b, pos) && b[pos] >= 9
  }

  function TotalAt(b: Bytes, pos: nat): nat
    requires HeaderAt(b, pos)
  {
    U16Le(b, pos + 2)
  }

  /** The slice handed to `parse_config`. */
  function ConfigSlice(b: Bytes, pos: nat): Bytes
    requires HeaderAt(b, pos)
  {
    b[pos..Min(pos + TotalAt(b, pos), |b|)]
  }

  function WalkTop(b: Bytes, pos: nat, configs: seq<Config>): Outcome<seq<Config>>
    decreases |b| - pos, b
  {
    if !DescriptorAt(b, pos) then Parsed(configs)
    else if b[pos + 1] != DT_CONFIG then WalkTop(b, pos + b[pos], configs)
    else if b[pos] < 9 then Refused(ShortConfiguration)
    else
      match ParseConfig(ConfigSlice(b, pos))
      case Refused(why) => Refused(why)
      case Panics => Panics
      case Parsed(c) =>
        if TotalAt(b, pos) < b[pos] then Parsed(configs + [c])
        else WalkTop(b, pos + TotalAt(b, pos), configs + [c])
  }

  function Begin(b: Bytes): nat
    requires b != []
  {
    Max(b[0], DEVICE_DESC_LEN)
  }

  function ParseBlob(b: Bytes): Outcome<Tree> {
    if |b| < DEVICE_DESC_LEN then Refused(TooShort)
    else if b[1] != DT_DEVICE then Refused(NotADevice)
    else
      match WalkTop(b, Begin(b), [])
      case Parsed(configs) => Parsed(Tree(DeviceOf(b), configs))
      case Refused(why) => Refused(why)
      case Panics => Panics
  }

  /** `parse`. */
  method Parse(b: Bytes) returns (r: Outcome<Tree>)
    ensures r == ParseBlob(b)
  {
    if |b| < DEVICE_DESC_LEN {
      return Refused(TooShort);
    }
    if b[1] != DT_DEVICE {
      return Refused(NotADevice);
    }
    var configs: seq<Config> := [];
    var pos: nat := b[0];
    if pos < DEVICE_DESC_LEN {
      pos := DEVICE_DESC_LEN;
    }
    while pos + 2 <= |b|
      invariant WalkTop(b, pos, configs) == WalkTop(b, Begin(b), [])
      decreases |b| - pos
    {
      var len: nat := b[pos];
      if len < 2 || pos + len > |b| {
        break;
      }
      if b[pos + 1] != DT_CONFIG {
        pos := pos + len;
        continue;
      }
      if len < 9 {
        return Refused(ShortConfiguration);
      }
      var total: nat := U16Le(b, pos + 2);
      var c := ParseConfiguration(b[pos..Min(pos + total, |b|)]);
      match c {
        case Refused(why) => return Refused(why);
        case Panics => return Panics;
        case Parsed(config) => configs := configs + [config];
      }
      if total < len {
        break;
      }
      pos := pos + total;
    }
    r := Parsed(Tree(DeviceOf(b), configs));
  }

  // ------------------------------------------------------------- when it panics

  /** Where the walk goes from `pos`, if it goes on. */
  function NextTop(b: Bytes, pos: nat): Option<nat> {
    if !DescriptorAt(b, pos) then None
    else if b[pos + 1] != DT_CONFIG then Some(pos + b[pos])
    else if b[pos] < 9 || !ParseConfig(ConfigSlice(b, pos)).Parsed? || TotalAt(b, pos) < b[pos] then None
    else Some(pos + TotalAt(b, pos))
  }

  /** The walk from `from` comes to `to`. */
  predicate Reaches(b: Bytes, from: nat, to: nat)
    decreases |b| - from, b
  {
    from == to || (NextTop(b, from).Some? && Reaches(b, NextTop(b, from).value, to))
  }

  /** A configuration header too small to hold the two fields read from it. */
  predicate ShortHeader(b: Bytes, pos: nat) {
    HeaderAt(b, pos) && TotalAt(b, pos) < 6
  }

  lemma {:induction false} NoPanicInside(b: Bytes, pos: nat, alts: seq<AltSetting>)
    ensures !Walk(b, pos, alts).Panics?
    decreases |b| - pos
  {
    if DescriptorAt(b, pos) && Absorb(b[pos..pos + b[pos]], alts).Parsed? {
      NoPanicInside(b, pos + b[pos], Absorb(b[pos..pos + b[pos]], alts).value);
    }
  }

  lemma ConfigPanics(b: Bytes, pos: nat)
    requires HeaderAt(b, pos)
    ensures ParseConfig(ConfigSlice(b, pos)).Panics? <==> TotalAt(b, pos) < 6
  {
    var s := ConfigSlice(b, pos);
    if |s| >= 6 {
      NoPanicInside(s, s[0], []);
    }
  }

  lemma {:induction false} TopPanics(b: Bytes, pos: nat, configs: seq<Config>)
    ensures WalkTop(b, pos, configs).Panics? <==> exists p :: Reaches(b, pos, p) && ShortHeader(b, p)
    decreases |b| - pos
  {
    if HeaderAt(b, pos) {
      ConfigPanics(b, pos);
    }
    if ShortHeader(b, pos) {
      assert Reaches(b, pos, pos);
    } else if NextTop(b, pos).Some? {
      var next := NextTop(b, pos).value;
      var seen := if b[pos + 1] != DT_CONFIG then configs else configs + [ParseConfig(ConfigSlice(b, pos)).value];
      TopPanics(b, next, seen);
      forall p
        ensures Reaches(b, next, p) && ShortHeader(b, p) <==> Reaches(b, pos, p) && ShortHeader(b, p)
      {
      }
    }
  }

  /** The walk stays in bounds on a blob exactly unless it comes to a header that declares less than six bytes. */
  lemma PanicsExactly(b: Bytes)
    ensures ParseBlob(b).Panics? <==>
            && |b| >= DEVICE_DESC_LEN && b[1] == DT_DEVICE
            && exists p :: Reaches(b, Begin(b), p) && ShortHeader(b, p)
  {
    if |b| >= DEVICE_DESC_LEN {
      TopPanics(b, Begin(b), []);
    }
  }

  // ----------------------------------------------------------- printing a tree

  /**
    * What may stand in a configuration. `more` is whatever a descriptor has beyond the fields
    * read; `Other` is a class or vendor descriptor, or one too short to be what it says it is.
    */
  datatype Item =
    | Interface(alt: AltSetting, numEndpoints: u8, name: u8, more: Bytes)
    | EndpointItem(ep: Endpoint, more: Bytes)
    | Other(bytes: Bytes)

  predicate ItemOk(x: Item) {
    match x
    case Interface(alt, _, _, more) => alt.endpoints == [] && |more| <= 246
    case EndpointItem(_, more) => |more| <= 248
    case Other(d) =>
      && 2 <= |d| <= 255 && d[0] == |d|
      && !(d[1] == DT_INTERFACE && |d| >= 9) && !(d[1] == DT_ENDPOINT && |d| >= 7)
  }

  function ItemBytes(x: Item): (d: Bytes)
    requires ItemOk(x)
    ensures 2 <= |d| <= 255 && d[0] == |d|
  {
    match x
    case Interface(a, n, name, more) =>
      [9 + |more|, 4, a.interfaceNumber, a.alternateSetting, n, a.class_, a.subClass, a.protocol, name]
      + more
    case EndpointItem(e, more) =>
      [7 + |more|, 5, e.address, e.attributes] + Le16(e.maxPacketSize) + [e.interval] + more
    case Other(d) => d
  }

  predicate ItemsOk(xs: seq<Item>) {
    forall i :: 0 <= i < |xs| ==> ItemOk(xs[i])
  }

  /** A run of descriptors, each led by its own length. */
  predicate Lengths(ds: seq<Bytes>) {
    forall i :: 0 <= i < |ds| ==> 2 <= |ds[i]| <= 255 && ds[i][0] == |ds[i]|
  }

  function Concat(ds: seq<Bytes>): Bytes {
    if ds == [] then [] else ds[0] + Concat(ds[1..])
  }

  function Raw(xs: seq<Item>): (ds: seq<Bytes>)
    requires ItemsOk(xs)
    ensures |ds| == |xs| && Lengths(ds)
    ensures forall i :: 0 <= i < |xs| ==> ds[i] == ItemBytes(xs[i])
  {
    seq(|xs|, i requires 0 <= i < |xs| => ItemBytes(xs[i]))
  }

  /** The items of a tree in order: each alternate setting, then its endpoints. */
  function Endpoints(eps: seq<Endpoint>): seq<Item> {
    if eps == [] then [] else Endpoints(eps[..|eps| - 1]) + [EndpointItem(eps[|eps| - 1], [])]
  }

  function Bare(alts: seq<AltSetting>): seq<Item> {
    if alts == [] then []
    else
      var last := alts[|alts| - 1];
      Bare(alts[..|alts| - 1]) + [Interface(last.(endpoints := []), 0, 0, [])] + Endpoints(last.endpoints)
  }

  /** An item without anything the parser does not look at; nothing at all for a foreign one. */
  function Core(x: Item): seq<Item> {
    match x
    case Interface(alt, _, _, _) => [Interface(alt, 0, 0, [])]
    case EndpointItem(ep, _) => [EndpointItem(ep, [])]
    case Other(_) => []
  }

  function Cores(xs: seq<Item>): seq<Item> {
    if xs == [] then [] else Cores(xs[..|xs| - 1]) + Core(xs[|xs| - 1])
  }

  /** `xs` prints `alts`: foreign descriptors aside, it is their items in order. */
  predicate Prints(xs: seq<Item>, alts: seq<AltSetting>) {
    ItemsOk(xs) && Cores(xs) == Bare(alts)
  }

  /** What a run of descriptors amounts to, whether or not it prints a tree. */
  function Fold(ds: seq<Bytes>, alts: seq<AltSetting>): Outcome<seq<AltSetting>>
    requires Lengths(ds)
  {
    if ds == [] then Parsed(alts)
    else
      match Absorb(ds[0], alts)
      case Parsed(alts') => Fold(ds[1..], alts')
      case Refused(why) => Refused(why)
      case Panics => Panics
  }

  lemma WalkStep(b: Bytes, pos: nat, d: Bytes, alts: seq<AltSetting>)
    requires 2 <= |d| <= 255 && d[0] == |d| && pos + |d| <= |b| && b[pos..pos + |d|] == d
    ensures Walk(b, pos, alts) ==
              match Absorb(d, alts)
              case Parsed(alts') => Walk(b, pos + |d|, alts')
              case Refused(why) => Refused(why)
              case Panics => Panics
  {
    assert b[pos] == d[0];
  }

  lemma HeadOf(b: Bytes, pos: nat, d: Bytes, rest: Bytes)
    requires pos <= |b| && b[pos..] == d + rest
    ensures pos + |d| <= |b| && b[pos..pos + |d|] == d && b[pos + |d|..] == rest
  {
    assert b[pos..][..|d|] == d && b[pos..][|d|..] == rest;
  }

  /** The walk sees exactly the descriptors that were written. */
  lemma {:induction false} WalkSees(b: Bytes, pos: nat, ds: seq<Bytes>, alts: seq<AltSetting>)
    requires Lengths(ds) && pos <= |b| && b[pos..] == Concat(ds)
    ensures Walk(b, pos, alts) == Fold(ds, alts)
    decreases |ds|
  {
    if ds == [] {
      assert |b[pos..]| == 0;
    } else {
      var d := ds[0];
      HeadOf(b, pos, d, Concat(ds[1..]));
      WalkStep(b, pos, d, alts);
      if Absorb(d, alts).Parsed? {
        WalkSees(b, pos + |d|, ds[1..], Absorb(d, alts).value);
      }
    }
  }

  /** One more item, seen from the tree's side. */
  lemma AbsorbItem(x: Item, alts: seq<AltSetting>)
    requires ItemOk(x)
    ensures Absorb(ItemBytes(x), alts) ==
              match x
              case Interface(alt, _, _, _) => Parsed(alts + [alt])
              case EndpointItem(ep, _) =>
                if alts == [] then Refused(EndpointOutsideInterface) else Parsed(AddEndpoint(alts, ep))
              case Other(_) => Parsed(alts)
  {
    if x.EndpointItem? {
      var d := ItemBytes(x);
      assert d[4] == x.ep.maxPacketSize % 0x100 && d[5] == x.ep.maxPacketSize / 0x100;
    }
  }

  lemma {:induction false} FoldAppend(ds: seq<Bytes>, d: Bytes, alts: seq<AltSetting>)
    requires Lengths(ds) && 2 <= |d| <= 255 && d[0] == |d|
    ensures Lengths(ds + [d])
    ensures Fold(ds + [d], alts) ==
              match Fold(ds, alts)
              case Parsed(mid) => Absorb(d, mid)
              case Refused(why) => Refused(why)
              case Panics => Panics
    decreases |ds|
  {
    if ds == [] {
      assert (ds + [d])[1..] == [];
    } else {
      assert (ds + [d])[1..] == ds[1..] + [d];
      var first := Absorb(ds[0], alts);
      if first.Parsed? {
        FoldAppend(ds[1..], d, first.value);
      }
    }
  }

  /** The tree whose items these are: an endpoint ends the settings that `Bare` would print. */
  lemma {:induction false} FoldPrinted(xs: seq<Item>, alts: seq<AltSetting>)
    requires Prints(xs, alts)
    ensures Fold(Raw(xs), []) == Parsed(alts)
    decreases |xs|
  {
    if xs == [] {
      BareEmpty(alts);
    } else {
      var before, x := xs[..|xs| - 1], xs[|xs| - 1];
      assert Raw(xs) == Raw(before) + [ItemBytes(x)];
      FoldAppend(Raw(before), ItemBytes(x), []);
      var prior := PriorTree(xs, alts);
      FoldPrinted(before, prior);
      AbsorbItem(x, prior);
    }
  }

  /** The tree that the items before the last one print. */
  lemma PriorTree(xs: seq<Item>, alts: seq<AltSetting>) returns (prior: seq<AltSetting>)
    requires xs != [] && Prints(xs, alts)
    ensures Prints(xs[..|xs| - 1], prior)
    ensures match xs[|xs| - 1]
            case Other(_) => prior == alts
            case Interface(alt, _, _, _) => prior + [alt] == alts
            case EndpointItem(ep, _) => prior != [] && AddEndpoint(prior, ep) == alts
  {
    var before, x := xs[..|xs| - 1], xs[|xs| - 1];
    match x {
      case Other(_) =>
        assert Cores(xs) == Cores(before);
        prior := alts;
      case Interface(alt, _, _, _) =>
        BareLast(alts, Interface(alt, 0, 0, []), Cores(before));
        prior := alts[..|alts| - 1];
      case EndpointItem(ep, _) =>
        BareLast(alts, EndpointItem(ep, []), Cores(before));
        prior := DropEndpoint(alts);
    }
  }

  lemma BareEmpty(alts: seq<AltSetting>)
    requires Bare(alts) == []
    ensures alts == []
  {
  }

  function DropEndpoint(alts: seq<AltSetting>): (r: seq<AltSetting>)
    requires alts != [] && alts[|alts| - 1].endpoints != []
    ensures r != [] && AddEndpoint(r, alts[|alts| - 1].endpoints[|alts[|alts| - 1].endpoints| - 1]) == alts
  {
    var last := alts[|alts| - 1];
    var r := alts[..|alts| - 1] + [last.(endpoints := last.endpoints[..|last.endpoints| - 1])];
    assert last.endpoints[..|last.endpoints| - 1] + [last.endpoints[|last.endpoints| - 1]] == last.endpoints;
    assert r[..|r| - 1] == alts[..|alts| - 1];
    assert AddEndpoint(r, last.endpoints[|last.endpoints| - 1]) == alts;
    r
  }

  /** The last item of a tree is its last endpoint, or its last alternate setting if that has none. */
  lemma BareLast(alts: seq<AltSetting>, x: Item, before: seq<Item>)
    requires Bare(alts) == before + [x]
    ensures alts != []
    ensures x.Interface? ==> x.alt == alts[|alts| - 1] && before == Bare(alts[..|alts| - 1])
    ensures x.EndpointItem? ==>
              var last := alts[|alts| - 1];
              && last.endpoints != [] && x.ep == last.endpoints[|last.endpoints| - 1]
              && before == Bare(DropEndpoint(alts))
    ensures !x.Other?
  {
    var last := alts[|alts| - 1];
    var front := Bare(alts[..|alts| - 1]) + [Interface(last.(endpoints := []), 0, 0, [])];
    if last.endpoints == [] {
      assert Bare(alts) == front;
      assert last.(endpoints := []) == last;
      assert before == front[..|front| - 1];
    } else {
      var n := |last.endpoints| - 1;
      var all := front + Endpoints(last.endpoints[..n]) + [EndpointItem(last.endpoints[n], [])];
      assert Bare(alts) == all;
      assert before == all[..|all| - 1] == front + Endpoints(last.endpoints[..n]);
      var d := DropEndpoint(alts);
      assert d[..|d| - 1] == alts[..|alts| - 1];
    }
  }

  // ------------------------------------------------- configurations and blobs

  /** A configuration as a device might print it: `name`, `attributes`, `power` and `more` are not read back. */
  datatype PrintedConfig = PrintedConfig(
    config: Config, items: seq<Item>, name: u8, attributes: u8, power: u8, more: Bytes)

  predicate PrintedOk(p: PrintedConfig) {
    && Prints(p.items, p.config.altSettings) && |p.more| <= 246
    && TotalOf(p) <= 0xffff
  }

  function TotalOf(p: PrintedConfig): nat
    requires ItemsOk(p.items)
  {
    9 + |p.more| + |Concat(Raw(p.items))|
  }

  function HeaderBytes(c: Config, total: u16, name: u8, attributes: u8, power: u8, more: Bytes): (b: Bytes)
    requires |more| <= 246
    ensures |b| == 9 + |more| && b[0] == |b| && b[1] == DT_CONFIG
    ensures b[2] == total % 0x100 && b[3] == total / 0x100
    ensures b[4] == c.numInterfaces && b[5] == c.configurationValue
  {
    [9 + |more|, 2, total % 0x100, total / 0x100, c.numInterfaces,
     c.configurationValue, name, attributes, power] + more
  }

  function ConfigBytes(p: PrintedConfig): Bytes
    requires PrintedOk(p)
  {
    HeaderBytes(p.config, TotalOf(p), p.name, p.attributes, p.power, p.more) + Concat(Raw(p.items))
  }

  /** A configuration comes back whatever class descriptors were printed between its own. */
  lemma ConfigRoundTrip(p: PrintedConfig)
    requires PrintedOk(p)
    ensures ParseConfig(ConfigBytes(p)) == Parsed(p.config)
  {
    var h, body := HeaderBytes(p.config, TotalOf(p), p.name, p.attributes, p.power, p.more), Concat(Raw(p.items));
    var b := h + body;
    assert b[0] == h[0] && b[4] == h[4] && b[5] == h[5];
    assert b[|h|..] == body;
    WalkSees(b, |h|, Raw(p.items), []);
    FoldPrinted(p.items, p.config.altSettings);
  }

  /** What may follow the device descriptor: configurations, and anything else that has a length. */
  datatype Top = Configuration(p: PrintedConfig) | Odd(bytes: Bytes)

  predicate TopOk(t: Top) {
    match t
    case Configuration(p) => PrintedOk(p)
    case Odd(d) => 2 <= |d| <= 255 && d[0] == |d| && d[1] != DT_CONFIG
  }

  predicate TopsOk(ts: seq<Top>) {
    forall i :: 0 <= i < |ts| ==> TopOk(ts[i])
  }

  /** A stretch of the blob, and the configuration it holds if it is one. */
  datatype Chunk = Chunk(bytes: Bytes, config: Option<Config>)

  function ChunkOf(t: Top): Chunk
    requires TopOk(t)
  {
    match t
    case Configuration(p) => Chunk(ConfigBytes(p), Some(p.config))
    case Odd(d) => Chunk(d, None)
  }

  function Chunks(ts: seq<Top>): seq<Chunk>
    requires TopsOk(ts)
  {
    if ts == [] then [] else [ChunkOf(ts[0])] + Chunks(ts[1..])
  }

  function ChunkBytes(cs: seq<Chunk>): Bytes {
    if cs == [] then [] else cs[0].bytes + ChunkBytes(cs[1..])
  }

  function ConfigOf(c: Chunk): seq<Config> {
    if c.config.Some? then [c.config.value] else []
  }

  function ChunkConfigs(cs: seq<Chunk>): seq<Config> {
    if cs == [] then [] else ConfigOf(cs[0]) + ChunkConfigs(cs[1..])
  }

  function TopsBytes(ts: seq<Top>): Bytes
    requires TopsOk(ts)
  {
    ChunkBytes(Chunks(ts))
  }

  function ConfigsOf(ts: seq<Top>): seq<Config>
    requires TopsOk(ts)
  {
    ChunkConfigs(Chunks(ts))
  }

  /** A chunk that frames itself. */
  predicate ChunkOk(c: Chunk) {
    if c.config.None? then 2 <= |c.bytes| <= 255 && c.bytes[0] == |c.bytes| && c.bytes[1] != DT_CONFIG
    else
      && 9 <= |c.bytes| && 9 <= c.bytes[0] <= |c.bytes| && c.bytes[1] == DT_CONFIG && U16Le(c.bytes, 2) == |c.bytes|
      && ParseConfig(c.bytes) == Parsed(c.config.value)
  }

  predicate ChunksOk(cs: seq<Chunk>) {
    cs == [] || (ChunkOk(cs[0]) && ChunksOk(cs[1..]))
  }

  lemma ChunkIsOk(t: Top)
    requires TopOk(t)
    ensures ChunkOk(ChunkOf(t))
  {
    if t.Configuration? {
      ConfigRoundTrip(t.p);
      ConfigBytesFrame(t.p);
    }
  }

  lemma {:induction false} ChunksAreOk(ts: seq<Top>)
    requires TopsOk(ts)
    ensures ChunksOk(Chunks(ts))
  {
    if ts != [] {
      ChunkIsOk(ts[0]);
      ChunksAreOk(ts[1..]);
      OneMoreChunk(ChunkOf(ts[0]), Chunks(ts[1..]));
    }
  }

  lemma OneMoreChunk(c: Chunk, cs: seq<Chunk>)
    requires ChunkOk(c) && ChunksOk(cs)
    ensures ChunksOk([c] + cs)
  {
    assert ([c] + cs)[1..] == cs;
  }

  lemma TopStep(b: Bytes, pos: nat, c: Bytes, config: Config, configs: seq<Config>)
    requires 9 <= |c| && 9 <= c[0] <= |c| && c[1] == DT_CONFIG && U16Le(c, 2) == |c|
    requires pos + |c| <= |b| && b[pos..pos + |c|] == c && ParseConfig(c) == Parsed(config)
    ensures WalkTop(b, pos, configs) == WalkTop(b, pos + |c|, configs + [config])
  {
    assert b[pos] == c[0] && b[pos + 1] == c[1] && b[pos + 2] == c[2] && b[pos + 3] == c[3];
    assert ConfigSlice(b, pos) == c;
  }

  lemma OddStep(b: Bytes, pos: nat, d: Bytes, configs: seq<Config>)
    requires 2 <= |d| <= 255 && d[0] == |d| && d[1] != DT_CONFIG
    requires pos + |d| <= |b| && b[pos..pos + |d|] == d
    ensures WalkTop(b, pos, configs) == WalkTop(b, pos + |d|, configs)
  {
    assert b[pos] == d[0] && b[pos + 1] == d[1];
  }

  lemma ConfigBytesFrame(p: PrintedConfig)
    requires PrintedOk(p)
    ensures var c := ConfigBytes(p);
            9 <= |c| && 9 <= c[0] <= |c| && c[1] == DT_CONFIG && U16Le(c, 2) == |c|
  {
    var h, c := HeaderBytes(p.config, TotalOf(p), p.name, p.attributes, p.power, p.more), ConfigBytes(p);
    assert c[0] == h[0] && c[1] == h[1] && c[2] == h[2] && c[3] == h[3];
  }

  lemma ChunkStep(b: Bytes, pos: nat, c: Chunk, configs: seq<Config>)
    requires ChunkOk(c) && pos + |c.bytes| <= |b| && b[pos..pos + |c.bytes|] == c.bytes
    ensures WalkTop(b, pos, configs) == WalkTop(b, pos + |c.bytes|, configs + ConfigOf(c))
  {
    if c.config.Some? {
      TopStep(b, pos, c.bytes, c.config.value, configs);
    } else {
      OddStep(b, pos, c.bytes, configs);
      assert configs + [] == configs;
    }
  }

  lemma ConfigsAssoc(a: seq<Config>, b: seq<Config>, c: seq<Config>)
    ensures (a + b) + c == a + (b + c)
  {
  }

  /** `b` from `pos` on is these chunks, one after the other, to its end. */
  predicate Laid(b: Bytes, pos: nat, cs: seq<Chunk>)
    decreases |cs|
  {
    if cs == [] then pos == |b|
    else
      var n := |cs[0].bytes|;
      pos + n <= |b| && b[pos..pos + n] == cs[0].bytes && Laid(b, pos + n, cs[1..])
  }

  lemma {:induction false} LaidOut(b: Bytes, pos: nat, cs: seq<Chunk>)
    requires pos <= |b| && b[pos..] == ChunkBytes(cs)
    ensures Laid(b, pos, cs)
    decreases |cs|
  {
    if cs == [] {
      assert |b[pos..]| == 0;
    } else {
      HeadOf(b, pos, cs[0].bytes, ChunkBytes(cs[1..]));
      LaidOut(b, pos + |cs[0].bytes|, cs[1..]);
    }
  }

  lemma {:induction false} TopSees(b: Bytes, pos: nat, cs: seq<Chunk>, configs: seq<Config>)
    requires ChunksOk(cs) && Laid(b, pos, cs)
    ensures WalkTop(b, pos, configs) == Parsed(configs + ChunkConfigs(cs))
    decreases |cs|
  {
    if cs == [] {
      assert configs + [] == configs;
    } else {
      ChunkStep(b, pos, cs[0], configs);
      TopSees(b, pos + |cs[0].bytes|, cs[1..], configs + ConfigOf(cs[0]));
      ConfigsAssoc(configs, ConfigOf(cs[0]), ChunkConfigs(cs[1..]));
    }
  }

  function DeviceBytes(d: DeviceDescriptor, names: (u8, u8, u8)): (b: Bytes)
    ensures |b| == DEVICE_DESC_LEN
  {
    [18, 1] + Le16(d.bcdUsb)
    + [d.deviceClass, d.deviceSubClass, d.deviceProtocol, d.maxPacketSize0]
    + Le16(d.idVendor) + Le16(d.idProduct) + Le16(d.bcdDevice)
    + [names.0, names.1, names.2, d.numConfigurations]
  }

  lemma DeviceRoundTrip(d: DeviceDescriptor, names: (u8, u8, u8), rest: Bytes)
    ensures var b := DeviceBytes(d, names) + rest;
            DeviceOf(b) == d && b[0] == DEVICE_DESC_LEN && b[1] == DT_DEVICE && b[DEVICE_DESC_LEN..] == rest
  {
    var b := DeviceBytes(d, names) + rest;
    assert b[2] == d.bcdUsb % 0x100 && b[3] == d.bcdUsb / 0x100;
    assert b[8] == d.idVendor % 0x100 && b[9] == d.idVendor / 0x100;
    assert b[10] == d.idProduct % 0x100 && b[11] == d.idProduct / 0x100;
    assert b[12] == d.bcdDevice % 0x100 && b[13] == d.bcdDevice / 0x100;
  }

  /** Printing a whole tree, with anything else interleaved at either level, and parsing it recovers the tree. */
  lemma BlobRoundTrip(d: DeviceDescriptor, names: (u8, u8, u8), ts: seq<Top>)
    requires TopsOk(ts)
    ensures ParseBlob(DeviceBytes(d, names) + TopsBytes(ts)) == Parsed(Tree(d, ConfigsOf(ts)))
  {
    var b := DeviceBytes(d, names) + TopsBytes(ts);
    DeviceRoundTrip(d, names, TopsBytes(ts));
    ChunksAreOk(ts);
    LaidOut(b, DEVICE_DESC_LEN, Chunks(ts));
    TopSees(b, DEVICE_DESC_LEN, Chunks(ts), []);
    assert [] + ConfigsOf(ts) == ConfigsOf(ts);
  }

  /** Such a blob: behind any device descriptor, a nine-byte configuration header that declares a total of zero. */
  lemma ZeroTotalPanics(d: DeviceDescriptor, names: (u8, u8, u8), value: u8)
    ensures ParseBlob(DeviceBytes(d, names) + [9, 2, 0, 0, 1, value, 0, 0, 0]).Panics?
  {
    var header: Bytes := [9, 2, 0, 0, 1, value, 0, 0, 0];
    var b := DeviceBytes(d, names) + header;
    DeviceRoundTrip(d, names, header);
    assert b[18] == header[0] && b[19] == header[1] && b[20] == header[2] && b[21] == header[3];
    assert ShortHeader(b, DEVICE_DESC_LEN) && Reaches(b, Begin(b), DEVICE_DESC_LEN);
    PanicsExactly(b);
  }

  // ------------------------------------------------------------ interfaces

  predicate Increasing(v: seq<u8>) {
    forall i, j :: 0 <= i < j < |v| ==> v[i] < v[j]
  }

  predicate Sorted(v: seq<u8>) {
    forall i, j :: 0 <= i < j < |v| ==> v[i] <= v[j]
  }

  function Insert(s: seq<u8>, x: u8): (r: seq<u8>)
    requires Sorted(s)
    ensures Sorted(r) && |r| == |s| + 1 && forall n :: n in r <==> n in s || n == x
  {
    if s == [] || x <= s[0] then [x] + s
    else
      var t := Insert(s[1..], x);
      assert forall k :: 0 <= k < |t| ==> t[k] in t;
      assert forall n :: n in s[1..] ==> n >= s[0];
      [s[0]] + t
  }

  method Sort(v: seq<u8>) returns (r: seq<u8>)
    ensures Sorted(r) && forall n :: n in r <==> n in v
  {
    r := [];
    for i := 0 to |v|
      invariant Sorted(r) && forall n :: n in r <==> n in v[..i]
    {
      assert v[..i + 1] == v[..i] + [v[i]];
      r := Insert(r, v[i]);
    }
    assert v[..|v|] == v;
  }

  /** `interface_numbers`: ascending, distinct, and exactly the numbers that occur. */
  method InterfaceNumbers(alts: seq<AltSetting>) returns (r: seq<u8>)
    ensures Increasing(r)
    ensures forall n :: n in r <==> exists i :: 0 <= i < |alts| && alts[i].interfaceNumber == n
  {
    var v: seq<u8> := [];
    for i := 0 to |alts|
      invariant |v| == i && forall k :: 0 <= k < i ==> v[k] == alts[k].interfaceNumber
    {
      v := v + [alts[i].interfaceNumber];
    }
    var s := Sort(v);
    r := [];
    for i := 0 to |s|
      invariant Increasing(r) && (forall n :: n in r <==> n in s[..i])
      invariant r != [] ==> i > 0 && r[|r| - 1] == s[i - 1]
    {
      assert s[..i + 1] == s[..i] + [s[i]];
      if r == [] || r[|r| - 1] != s[i] {
        r := r + [s[i]];
      }
    }
    assert s[..|s|] == s;
  }

  /** `k` is the alternate setting that stands for interface `n`: its first zero one, else its first. */
  predicate IsPrimary(alts: seq<AltSetting>, n: u8, k: nat) {
    && k < |alts| && alts[k].interfaceNumber == n
    && (if alts[k].alternateSetting == 0 then
          forall j :: 0 <= j < k ==> !(alts[j].interfaceNumber == n && alts[j].alternateSetting == 0)
        else
          && (forall j :: 0 <= j < |alts| ==> !(alts[j].interfaceNumber == n && alts[j].alternateSetting == 0))
          && (forall j :: 0 <= j < k ==> alts[j].interfaceNumber != n))
  }

  method FindPrimary(alts: seq<AltSetting>, n: u8) returns (r: Option<nat>)
    ensures r.Some? ==> IsPrimary(alts, n, r.value)
    ensures r.None? ==> forall j :: 0 <= j < |alts| ==> alts[j].interfaceNumber != n
  {
    for k := 0 to |alts|
      invariant forall j :: 0 <= j < k ==> !(alts[j].interfaceNumber == n && alts[j].alternateSetting == 0)
    {
      if alts[k].interfaceNumber == n && alts[k].alternateSetting == 0 {
        return Some(k);
      }
    }
    for k := 0 to |alts|
      invariant forall j :: 0 <= j < k ==> alts[j].interfaceNumber != n
    {
      if alts[k].interfaceNumber == n {
        return Some(k);
      }
    }
    return None;
  }

  /** `primary_alt_settings`: one for each interface, in ascending order of interface number. */
  method PrimaryAltSettings(alts: seq<AltSetting>) returns (r: seq<nat>)
    ensures forall i :: 0 <= i < |r| ==> r[i] < |alts| && IsPrimary(alts, alts[r[i]].interfaceNumber, r[i])
    ensures forall i, j :: 0 <= i < j < |r| ==> alts[r[i]].interfaceNumber < alts[r[j]].interfaceNumber
    ensures forall k :: 0 <= k < |alts| ==>
              exists i :: 0 <= i < |r| && alts[r[i]].interfaceNumber == alts[k].interfaceNumber
  {
    var ns := InterfaceNumbers(alts);
    r := [];
    for i := 0 to |ns|
      invariant |r| == i && forall k :: 0 <= k < i ==> IsPrimary(alts, ns[k], r[k])
    {
      assert ns[i] in ns;
      var k := FindPrimary(alts, ns[i]);
      if k.Some? {
        r := r + [k.value];
      }
    }
    forall k | 0 <= k < |alts|
      ensures exists i :: 0 <= i < |r| && alts[r[i]].interfaceNumber == alts[k].interfaceNumber
    {
      assert alts[k].interfaceNumber in ns;
      var i :| 0 <= i < |ns| && ns[i] == alts[k].interfaceNumber;
      assert alts[r[i]].interfaceNumber == alts[k].interfaceNumber;
    }
  }
}

/**
 * The Client Subnet option (section 6 of RFC 7871) in queries: putting it in, reading it back,
 * taking it out, and the part it plays in the cache key.
 */
module DnsSubnet {
  import opened Options

  type Byte = b: nat | b < 256

  /** An IP address as its bytes: four for IPv4, sixteen for IPv6. */
  datatype Address = V4(bytes: seq<Byte>) | V6(bytes: seq<Byte>)

  ghost predicate ValidAddress(a: Address) {
    |a.bytes| == if a.V4? then 4 else 16
  }

  predicate IsMapped(bytes: seq<Byte>) {
    |bytes| == 16 && bytes[..12] == [0, 0, 0, 0, 0, 0, 0, 0, 0, 0, 0xff, 0xff]
  }

  /** An IPv4-mapped IPv6 address becomes the IPv4 address it maps. */
  function Unmap(a: Address): Address {
    if a.V6? && IsMapped(a.bytes) then V4(a.bytes[12..]) else a
  }

  function AddressFromSlice(bytes: seq<Byte>): Option<Address> {
    if |bytes| == 4 then Some(V4(bytes)) else if |bytes| == 16 then Some(V6(bytes)) else None
  }

  /** A prefix is valid when it has a length; without one it may still carry an address. */
  datatype Prefix = Prefix(address: Option<Address>, bits: Option<nat>)

  const NO_PREFIX := Prefix(None, None)

  predicate IsValid(p: Prefix) {
    p.bits.Some?
  }

  function PrefixFrom(a: Address, bits: nat): Prefix {
    Prefix(Some(a), if bits <= (if a.V4? then 32 else 128) then Some(bits) else None)
  }

  /** A prefix a configuration can hold. */
  ghost predicate WellFormed(p: Prefix) {
    if IsValid(p)
    then p.address.Some? && ValidAddress(p.address.value) && p == PrefixFrom(p.address.value, p.bits.value)
    else p == NO_PREFIX
  }

  datatype EdnsOption = Subnet(family: nat, netmask: nat, bytes: seq<Byte>) | OtherOption(code: nat, data: string)

  datatype Record = OptRecord(options: seq<EdnsOption>) | OtherRecord(data: string)

  type Extra = seq<Record>

  // ---- Reading ----

  /** Position i is the first Subnet option of the list; the length when there is none. */
  function FirstSubnet(options: seq<EdnsOption>): (i: nat)
    ensures i <= |options| && (i < |options| ==> options[i].Subnet?)
    ensures forall j | 0 <= j < i :: !options[j].Subnet?
  {
    if options == [] || options[0].Subnet? then 0 else 1 + FirstSubnet(options[1..])
  }

  predicate HasSubnet(r: Record) {
    r.OptRecord? && FirstSubnet(r.options) < |r.options|
  }

  /** Position i is the first OPT record with a Subnet option; the length when there is none. */
  function FirstCarrier(extra: Extra): (i: nat)
    ensures i <= |extra| && (i < |extra| ==> HasSubnet(extra[i]))
    ensures forall j | 0 <= j < i :: !HasSubnet(extra[j])
  {
    if extra == [] || HasSubnet(extra[0]) then 0 else 1 + FirstCarrier(extra[1..])
  }

  function SubnetOf(o: EdnsOption): Prefix
    requires o.Subnet?
  {
    var a := AddressFromSlice(o.bytes);
    if a.None? then NO_PREFIX else PrefixFrom(Unmap(a.value), o.netmask)
  }

  /** The subnet a message carries. */
  function SubnetFromMessage(extra: Extra): Prefix {
    var i := FirstCarrier(extra);
    if i == |extra| then NO_PREFIX else SubnetOf(extra[i].options[FirstSubnet(extra[i].options)])
  }

  // ---- Writing ----

  function SubnetOption(p: Prefix): EdnsOption
    requires IsValid(p) && p.address.Some?
  {
    Subnet(if p.address.value.V4? then 1 else 2, p.bits.value % 256, p.address.value.bytes)
  }

  /** Writes the option into an OPT record: over its first Subnet option, or at its end. */
  function Write(r: Record, p: Prefix): Record
    requires r.OptRecord? && IsValid(p) && p.address.Some?
  {
    var i := FirstSubnet(r.options);
    OptRecord(if i < |r.options| then r.options[i := SubnetOption(p)] else r.options + [SubnetOption(p)])
  }

  /**
   * The record the option goes into: the first one that carries a Subnet option, else the last
   * record if it is an OPT record; the length when a new OPT record has to be appended.
   */
  function Target(extra: Extra): nat {
    var i := FirstCarrier(extra);
    if i < |extra| then i
    else if extra != [] && extra[|extra| - 1].OptRecord? then |extra| - 1
    else |extra|
  }

  function WithSubnet(extra: Extra, p: Prefix): Extra
    requires IsValid(p) && p.address.Some?
  {
    var t := Target(extra);
    if t < |extra| then extra[t := Write(extra[t], p)] else extra + [OptRecord([SubnetOption(p)])]
  }

  function Stripped(options: seq<EdnsOption>): (r: seq<EdnsOption>)
    ensures forall i | 0 <= i < |r| :: !r[i].Subnet?
    ensures forall o: EdnsOption | !o.Subnet? :: multiset(r)[o] == multiset(options)[o]
  {
    if options == [] then []
    else
      assert options == [options[0]] + options[1..];
      (if options[0].Subnet? then [] else [options[0]]) + Stripped(options[1..])
  }

  function WithoutSubnet(extra: Extra): Extra {
    seq(|extra|, i requires 0 <= i < |extra| =>
      if extra[i].OptRecord? then OptRecord(Stripped(extra[i].options)) else extra[i])
  }

  // ---- Laws ----

  lemma {:induction false} FirstSubnetIs(options: seq<EdnsOption>, i: nat)
    requires i <= |options| && (i < |options| ==> options[i].Subnet?) && forall j | 0 <= j < i :: !options[j].Subnet?
    ensures FirstSubnet(options) == i
  {
  }

  lemma FirstCarrierIs(extra: Extra, i: nat)
    requires i <= |extra| && (i < |extra| ==> HasSubnet(extra[i])) && forall j | 0 <= j < i :: !HasSubnet(extra[j])
    ensures FirstCarrier(extra) == i
  {
  }

  lemma WriteIsFound(r: Record, p: Prefix)
    requires r.OptRecord? && IsValid(p) && p.address.Some?
    ensures var w := Write(r, p);
      HasSubnet(w) && w.options[FirstSubnet(w.options)] == SubnetOption(p)
  {
    var i := FirstSubnet(r.options);
    var w := Write(r, p);
    FirstSubnetIs(w.options, i);
  }

  /**
   * Whatever OPT records a message had, what is put in is what is read back, with an IPv4-mapped
   * address read as the IPv4 address it maps.
   */
  lemma ReadAfterWrite(extra: Extra, p: Prefix)
    requires WellFormed(p) && IsValid(p)
    ensures SubnetFromMessage(WithSubnet(extra, p)) == PrefixFrom(Unmap(p.address.value), p.bits.value)
  {
    var t := Target(extra);
    var written := WithSubnet(extra, p);
    if t < |extra| {
      WriteIsFound(extra[t], p);
    } else {
      WriteIsFound(OptRecord([]), p);
      FirstSubnetIs([SubnetOption(p)], 0);
    }
    FirstCarrierIs(written, t);
    assert AddressFromSlice(p.address.value.bytes) == Some(p.address.value);
  }

  /** So the prefix comes back unchanged exactly when its address is not IPv4-mapped. */
  lemma RoundTripUnlessMapped(extra: Extra, p: Prefix)
    requires WellFormed(p) && IsValid(p)
    ensures SubnetFromMessage(WithSubnet(extra, p)) == p <==> !IsMapped(p.address.value.bytes)
  {
    ReadAfterWrite(extra, p);
  }

  /** The options of a record are the given ones without those about the subnet. */
  ghost predicate OnlySubnetGone(before: Record, after: Record) {
    match before
    case OtherRecord(_) => after == before
    case OptRecord(options) =>
      && after.OptRecord?
      && (forall o | o in after.options :: !o.Subnet?)
      && (forall o: EdnsOption | !o.Subnet? :: multiset(after.options)[o] == multiset(options)[o])
      && (!HasSubnet(before) ==> after == before)
  }

  /** After a removal no subnet is read, and everything else in the message is still there. */
  lemma ReadAfterRemove(extra: Extra)
    ensures SubnetFromMessage(WithoutSubnet(extra)) == NO_PREFIX
    ensures |WithoutSubnet(extra)| == |extra|
    ensures forall i | 0 <= i < |extra| :: OnlySubnetGone(extra[i], WithoutSubnet(extra)[i])
  {
    forall i | 0 <= i < |extra| ensures OnlySubnetGone(extra[i], WithoutSubnet(extra)[i]) {
      if extra[i].OptRecord? && !HasSubnet(extra[i]) {
        StrippedIsSame(extra[i].options);
      }
    }
    var stripped := WithoutSubnet(extra);
    forall i | 0 <= i < |stripped|
      ensures !HasSubnet(stripped[i])
    {
    }
    FirstCarrierIs(stripped, |stripped|);
  }

  function OptCount(extra: Extra): nat {
    if extra == [] then 0 else (if extra[0].OptRecord? then 1 else 0) + OptCount(extra[1..])
  }

  lemma {:induction false} OptCountUpdate(extra: Extra, i: nat, r: Record)
    requires i < |extra| && extra[i].OptRecord? && r.OptRecord?
    ensures OptCount(extra[i := r]) == OptCount(extra)
  {
    if i > 0 {
      assert extra[i := r][1..] == extra[1..][i - 1 := r];
      OptCountUpdate(extra[1..], i - 1, r);
    } else {
      assert extra[i := r][1..] == extra[1..];
    }
  }

  lemma {:induction false} OptCountAppend(extra: Extra, r: Record)
    requires r.OptRecord?
    ensures OptCount(extra + [r]) == OptCount(extra) + 1
  {
    if extra != [] {
      assert (extra + [r])[1..] == extra[1..] + [r];
      OptCountAppend(extra[1..], r);
    }
  }

  /** A message gets one more OPT record exactly when none carries a subnet and the last record is not OPT. */
  lemma OptRecordIsAdded(extra: Extra, p: Prefix)
    requires IsValid(p) && p.address.Some?
    ensures OptCount(WithSubnet(extra, p)) == OptCount(extra) + if Target(extra) == |extra| then 1 else 0
    ensures Target(extra) == |extra| <==>
      (forall i | 0 <= i < |extra| :: !HasSubnet(extra[i])) && (extra != [] ==> !extra[|extra| - 1].OptRecord?)
  {
    var t := Target(extra);
    if t < |extra| {
      OptCountUpdate(extra, t, Write(extra[t], p));
    } else {
      OptCountAppend(extra, OptRecord([SubnetOption(p)]));
    }
  }

  // ---- The cache key ----

  /** What a query asks about the subnet: to remove it, or a prefix of its own. */
  datatype SubnetChoice = SubnetChoice(remove: bool, own: Prefix, configured: Prefix)

  ghost predicate WellFormedChoice(c: SubnetChoice) {
    WellFormed(c.own) && WellFormed(c.configured)
  }

  /** The message that is sent. */
  function Prepared(extra: Extra, c: SubnetChoice): Extra {
    if c.remove then WithoutSubnet(extra)
    else
      var subnet := if IsValid(c.own) then c.own else c.configured;
      if IsValid(subnet) && subnet.address.Some? then WithSubnet(extra, subnet) else extra
  }

  /** The subnet in the cache key, chosen a second time. */
  function KeySubnet(extra: Extra, c: SubnetChoice): Prefix {
    if c.remove then NO_PREFIX
    else
      var own := c.own;
      var configured := if !IsValid(own) then c.configured else own;
      if !IsValid(configured) then SubnetFromMessage(extra) else configured
  }

  /**
   * The key is the same from the raw and from the prepared query, and its subnet is the one the
   * sent message carries, except when the chosen prefix has an IPv4-mapped address.
   */
  lemma KeyNamesTheSubnetSent(extra: Extra, c: SubnetChoice)
    requires WellFormedChoice(c)
    ensures KeySubnet(Prepared(extra, c), c) == KeySubnet(extra, c)
    ensures KeySubnet(extra, c) == SubnetFromMessage(Prepared(extra, c)) <==> !SendsMapped(c)
  {
    if c.remove {
      ReadAfterRemove(extra);
    } else if IsValid(c.own) {
      RoundTripUnlessMapped(extra, c.own);
    } else if IsValid(c.configured) {
      RoundTripUnlessMapped(extra, c.configured);
    }
  }

  /** The query is given a prefix with an IPv4-mapped address, its own or, without one, the client's. */
  predicate SendsMapped(c: SubnetChoice) {
    && !c.remove
    && (if IsValid(c.own) then HasMappedAddress(c.own) else IsValid(c.configured) && HasMappedAddress(c.configured))
  }

  predicate HasMappedAddress(p: Prefix) {
    p.address.Some? && IsMapped(p.address.value.bytes)
  }

  // ---- Messages in memory ----

  /** An OPT record object; messages refer to it. */
  class OptObject {
    var options: seq<EdnsOption>

    constructor (options: seq<EdnsOption>)
      ensures this.options == options
    {
      this.options := options;
    }
  }

  datatype Slot = OptSlot(opt: OptObject) | PlainSlot(data: string)

  ghost function OptsIn(extra: seq<Slot>): set<OptObject> {
    set i | 0 <= i < |extra| && extra[i].OptSlot? :: extra[i].opt
  }

  ghost predicate Separate(extra: seq<Slot>) {
    forall i, j | 0 <= i < j < |extra| && extra[i].OptSlot? && extra[j].OptSlot? :: extra[i].opt != extra[j].opt
  }

  ghost function RecordAt(slot: Slot): Record
    reads if slot.OptSlot? then {slot.opt} else {}
  {
    match slot
    case OptSlot(opt) => OptRecord(opt.options)
    case PlainSlot(data) => OtherRecord(data)
  }

  ghost function ValueOf(extra: seq<Slot>): Extra
    reads OptsIn(extra)
  {
    seq(|extra|, i requires 0 <= i < |extra| reads OptsIn(extra) =>
      assert extra[i].OptSlot? ==> extra[i].opt in OptsIn(extra); RecordAt(extra[i]))
  }

  /** A deep copy: new objects, the same contents. */
  method Copy(extra: seq<Slot>) returns (copy: seq<Slot>)
    ensures |copy| == |extra| && fresh(OptsIn(copy)) && Separate(copy)
    ensures ValueOf(copy) == ValueOf(extra)
  {
    copy := [];
    var i := 0;
    while i < |extra|
      invariant 0 <= i <= |extra| && |copy| == i
      invariant fresh(OptsIn(copy)) && Separate(copy)
      invariant forall j | 0 <= j < i :: RecordAt(copy[j]) == RecordAt(extra[j])
    {
      ghost var before := copy;
      match extra[i] {
        case OptSlot(opt) =>
          var o := new OptObject(opt.options);
          copy := copy + [OptSlot(o)];
        case PlainSlot(data) =>
          copy := copy + [PlainSlot(data)];
      }
      assert forall j | 0 <= j < i :: copy[j] == before[j] && (before[j].OptSlot? ==> before[j].opt in OptsIn(before));
      i := i + 1;
    }
    forall j | 0 <= j < |extra| ensures ValueOf(copy)[j] == ValueOf(extra)[j] {
      assert RecordAt(copy[j]) == RecordAt(extra[j]);
    }
  }

  /**
   * Puts the subnet into a message without touching the message given: a new OPT record is added
   * to a shallow copy, an existing one is changed in a deep copy.
   */
  method SetClientSubnet(extra: seq<Slot>, p: Prefix) returns (r: seq<Slot>)
    requires IsValid(p) && p.address.Some?
    ensures ValueOf(r) == WithSubnet(ValueOf(extra), p)
    ensures ValueOf(extra) == old(ValueOf(extra))
  {
    ghost var value := ValueOf(extra);
    var t := FindTarget(extra);
    WithSubnetIs(value, p);
    TargetIsOpt(extra, value);
    hide WithSubnet, Write, Target, RecordAt;
    if t == |extra| {
      var o := new OptObject([SubnetOption(p)]);
      r := extra + [OptSlot(o)];
      AppendedValue(extra, o);
    } else {
      SlotOf(extra, t);
      r := Copy(extra);
      assert ValueOf(r) == value;
      SlotOf(r, t);
      WriteInPlace(r, t, p);
    }
    assert ValueOf(extra) == value;
  }

  lemma WithSubnetIs(value: Extra, p: Prefix)
    requires IsValid(p) && p.address.Some?
    ensures Target(value) == |value| ==> WithSubnet(value, p) == value + [OptRecord([SubnetOption(p)])]
    ensures Target(value) < |value| ==> WithSubnet(value, p) == value[Target(value) := Write(value[Target(value)], p)]
  {
  }

  lemma AppendedValue(extra: seq<Slot>, o: OptObject)
    ensures ValueOf(extra + [OptSlot(o)]) == ValueOf(extra) + [OptRecord(o.options)]
  {
  }

  lemma TargetIsOpt(extra: seq<Slot>, value: Extra)
    requires value == ValueOf(extra)
    ensures Target(value) < |extra| ==> extra[Target(value)].OptSlot?
  {
    if Target(value) < |extra| {
      assert value[Target(value)] == RecordAt(extra[Target(value)]);
    }
  }

  lemma SlotOf(extra: seq<Slot>, t: nat)
    requires t < |extra|
    ensures extra[t].OptSlot? ==> extra[t].opt in OptsIn(extra)
    ensures |ValueOf(extra)| == |extra| && ValueOf(extra)[t].OptRecord? == extra[t].OptSlot?
  {
    assert ValueOf(extra)[t] == RecordAt(extra[t]);
  }

  /** The scan of the source: the record variable holds the last record looked at, if it is an OPT record. */
  method FindTarget(extra: seq<Slot>) returns (t: nat)
    ensures t == Target(ValueOf(extra)) <= |extra|
  {
    ghost var value := ValueOf(extra);
    var current := |extra|;
    var i := 0;
    while i < |extra|
      invariant 0 <= i <= |extra|
      invariant forall j | 0 <= j < i :: !HasSubnet(value[j])
      invariant current == if i > 0 && value[i - 1].OptRecord? then i - 1 else |extra|
    {
      assert value[i] == RecordAt(extra[i]);
      if extra[i].OptSlot? {
        current := i;
        if FirstSubnet(extra[i].opt.options) < |extra[i].opt.options| {
          FirstCarrierIs(value, i);
          return i;
        }
      } else {
        current := |extra|;
      }
      i := i + 1;
    }
    FirstCarrierIs(value, |extra|);
    return current;
  }

  /** Writes the option into the OPT record at position t. */
  method WriteInPlace(extra: seq<Slot>, t: nat, p: Prefix)
    requires Separate(extra) && t < |extra| && extra[t].OptSlot? && IsValid(p) && p.address.Some?
    modifies extra[t].opt
    ensures ValueOf(extra) == old(ValueOf(extra))[t := Write(old(ValueOf(extra))[t], p)]
  {
    var opt := extra[t].opt;
    assert ValueOf(extra)[t] == RecordAt(extra[t]);
    var i := FirstSubnet(opt.options);
    if i < |opt.options| {
      opt.options := opt.options[i := SubnetOption(p)];
    } else {
      opt.options := opt.options + [SubnetOption(p)];
    }
    forall j | 0 <= j < |extra|
      ensures ValueOf(extra)[j] == old(ValueOf(extra))[t := Write(old(ValueOf(extra))[t], p)][j]
    {
      assert ValueOf(extra)[j] == RecordAt(extra[j]);
    }
  }

  /** Takes every Subnet option out of a copy; a message without one is returned as it is. */
  method RemoveClientSubnet(extra: seq<Slot>) returns (r: seq<Slot>)
    ensures ValueOf(r) == WithoutSubnet(ValueOf(extra))
    ensures ValueOf(extra) == old(ValueOf(extra))
  {
    ghost var value := ValueOf(extra);
    var subnet := exists i | 0 <= i < |extra| && extra[i].OptSlot? ::
      FirstSubnet(extra[i].opt.options) < |extra[i].opt.options|;
    if !subnet {
      forall i | 0 <= i < |value| ensures WithoutSubnet(value)[i] == value[i] {
        assert value[i] == RecordAt(extra[i]);
        if value[i].OptRecord? { StrippedIsSame(value[i].options); }
      }
      return extra;
    }
    r := Copy(extra);
    StripInPlace(r);
  }

  /** Takes the Subnet options out of every OPT record of the message. */
  method StripInPlace(extra: seq<Slot>)
    requires Separate(extra)
    modifies OptsIn(extra)
    ensures ValueOf(extra) == WithoutSubnet(old(ValueOf(extra)))
  {
    ghost var value := ValueOf(extra);
    assert forall j | 0 <= j < |extra| :: RecordAt(extra[j]) == value[j];
    var i := 0;
    while i < |extra|
      invariant 0 <= i <= |extra|
      invariant forall j | 0 <= j < |extra| ::
        RecordAt(extra[j]) == if j < i then WithoutSubnet(value)[j] else value[j]
    {
      if extra[i].OptSlot? {
        assert extra[i].opt in OptsIn(extra);
        assert RecordAt(extra[i]) == value[i];
        extra[i].opt.options := Stripped(extra[i].opt.options);
      }
      i := i + 1;
    }
  }

  lemma {:induction false} StrippedIsSame(options: seq<EdnsOption>)
    requires FirstSubnet(options) == |options|
    ensures Stripped(options) == options
  {
    if options != [] {
      StrippedIsSame(options[1..]);
    }
  }
}

/** Link-layer stripping: from a captured frame to the IP bytes inside it. */
module Link {
  import opened Core

  type byte = x: int | 0 <= x < 0x100

  datatype LinkType = Ethernet | LinuxSll | LinuxSll2 | RawIp | Null

  datatype SkipReason = NonTcp | Malformed

  datatype Stripped = Ip(bytes: seq<byte>) | Skip(reason: SkipReason)

  const ETHERTYPE_IPV4: u16 := 0x0800
  const ETHERTYPE_IPV6: u16 := 0x86DD
  const VLAN_8021Q: u16 := 0x8100
  const VLAN_8021AD: u16 := 0x88A8

  /** Two hardware addresses precede the first ethertype. */
  const ADDRESSES: nat := 12

  predicate IsIp(ethertype: u16) { ethertype == ETHERTYPE_IPV4 || ethertype == ETHERTYPE_IPV6 }

  predicate IsVlan(ethertype: u16) { ethertype == VLAN_8021Q || ethertype == VLAN_8021AD }

  function Word(high: byte, low: byte): (w: u16)
    ensures w / 0x100 == high && w % 0x100 == low
  {
    var h: int, l: int := high, low;
    h * 0x100 + l
  }

  function Be16(b: seq<byte>, off: nat): Option<u16> {
    if off + 2 <= |b| then Some(Word(b[off], b[off + 1])) else None
  }

  // ------------------------------------------------------------- the encoder

  /** One 802.1Q or 802.1ad tag: its ethertype and the control information after it. */
  datatype Tag = Tag(ethertype: u16, control: u16)

  type Tags = tags: seq<Tag> | forall t | t in tags :: IsVlan(t.ethertype) witness []

  function Put16(v: u16): (b: seq<byte>)
    ensures |b| == 2 && Be16(b, 0) == Some(v)
  {
    [v / 0x100, v % 0x100]
  }

  function PutTags(tags: Tags): seq<byte> {
    if |tags| == 0 then [] else Put16(tags[0].ethertype) + Put16(tags[0].control) + PutTags(tags[1..])
  }

  /** What follows the hardware addresses: the tags, an ethertype, and the payload. */
  function Encapsulate(tags: Tags, ethertype: u16, payload: seq<byte>): seq<byte> {
    PutTags(tags) + Put16(ethertype) + payload
  }

  // ------------------------------------------------------------ the stripper

  /** Skips tags from `off` on until another ethertype, or the end, decides. */
  function StripFrom(frame: seq<byte>, off: nat): Stripped
    decreases |frame| - off
  {
    match Be16(frame, off)
    case None => Skip(Malformed)
    case Some(ethertype) =>
      if IsIp(ethertype) then Ip(frame[off + 2..])
      else if IsVlan(ethertype) then StripFrom(frame, off + 4)
      else Skip(NonTcp)
  }

  method StripEthernet(frame: seq<byte>) returns (r: Stripped)
    ensures r == StripFrom(frame, ADDRESSES)
  {
    var off := ADDRESSES;
    while true
      invariant StripFrom(frame, ADDRESSES) == StripFrom(frame, off)
      decreases |frame| - off
    {
      var ethertype := Be16(frame, off);
      if ethertype.None? {
        return Skip(Malformed);
      }
      if IsIp(ethertype.value) {
        return Ip(frame[off + 2..]);
      }
      if !IsVlan(ethertype.value) {
        return Skip(NonTcp);
      }
      off := off + 4;
    }
  }

  // ------------------------------------------------------- what it recognises

  /** The bytes a stripper sees after the addresses, parsed as far as they go. */
  datatype Parse =
    | Typed(tags: Tags, ethertype: u16, rest: seq<byte>)
    | Cut(tags: Tags, rest: seq<byte>)

  /** Nothing but tags lie before the deciding ethertype; a cut frame ends before it, and may
      end within a tag's control information. */
  ghost predicate Parses(b: seq<byte>, p: Parse) {
    match p
    case Typed(tags, ethertype, rest) => !IsVlan(ethertype) && b == Encapsulate(tags, ethertype, rest)
    case Cut(tags, rest) =>
      b == PutTags(tags) + rest && (|rest| < 2 || (|rest| < 4 && IsVlan(Be16(rest, 0).value)))
  }

  function Verdict(p: Parse): Stripped {
    match p
    case Cut(_, _) => Skip(Malformed)
    case Typed(_, ethertype, rest) => if IsIp(ethertype) then Ip(rest) else Skip(NonTcp)
  }

  /** The first tag of a parse comes first in the bytes. */
  lemma FirstTag(b: seq<byte>, p: Parse)
    requires Parses(b, p) && |p.tags| > 0
    ensures |b| >= 4 && Be16(b, 0) == Some(p.tags[0].ethertype)
    ensures Parses(b[4..], p.(tags := p.tags[1..]))
  {
    var t, more := p.tags[0], PutTags(p.tags[1..]);
    var tail := if p.Cut? then p.rest else Put16(p.ethertype) + p.rest;
    var head := Put16(t.ethertype) + Put16(t.control);
    assert b == head + (more + tail);
    assert b[..2] == Put16(t.ethertype);
    assert Be16(b, 0) == Be16(b[..2], 0);
    assert b[4..] == more + tail;
    assert p.Typed? ==> more + tail == (more + Put16(p.ethertype)) + p.rest;
  }

  /** Whatever the bytes parse as decides the result. */
  lemma {:induction false} ParseDecides(frame: seq<byte>, off: nat, p: Parse)
    requires off <= |frame| && Parses(frame[off..], p)
    ensures StripFrom(frame, off) == Verdict(p)
    decreases |frame| - off
  {
    var b := frame[off..];
    if |p.tags| > 0 {
      FirstTag(b, p);
      assert Be16(frame, off) == Be16(b, 0);
      assert frame[off + 4..] == b[4..];
      ParseDecides(frame, off + 4, p.(tags := p.tags[1..]));
    } else if p.Typed? {
      assert b == Put16(p.ethertype) + p.rest;
      assert Be16(frame, off) == Some(p.ethertype);
    } else {
      assert b == p.rest;
      assert |b| >= 2 ==> Be16(frame, off) == Be16(b, 0);
    }
  }

  /** Every byte string parses. */
  lemma {:induction false} EverythingParses(frame: seq<byte>, off: nat) returns (p: Parse)
    requires off <= |frame|
    ensures Parses(frame[off..], p)
    decreases |frame| - off
  {
    var b := frame[off..];
    if |b| < 2 {
      p := Cut([], b);
    } else {
      var e := Be16(b, 0).value;
      assert b == Put16(e) + b[2..];
      if !IsVlan(e) {
        p := Typed([], e, b[2..]);
      } else if |b| < 4 {
        p := Cut([], b);
      } else {
        var t := Tag(e, Be16(b, 2).value);
        assert b == Put16(t.ethertype) + Put16(t.control) + b[4..];
        p := EverythingParses(frame, off + 4);
        assert b[4..] == frame[off + 4..];
        var tags: Tags := [t] + p.tags;
        assert tags[1..] == p.tags;
        p := p.(tags := tags);
      }
    }
  }

  /** Stripping undoes encapsulation: any payload comes back whole from behind any addresses
      and any stack of tags. */
  lemma StripUndoesEncapsulation(addresses: seq<byte>, tags: Tags, ethertype: u16, payload: seq<byte>)
    requires |addresses| == ADDRESSES && IsIp(ethertype)
    ensures StripFrom(addresses + Encapsulate(tags, ethertype, payload), ADDRESSES) == Ip(payload)
  {
    var frame := addresses + Encapsulate(tags, ethertype, payload);
    assert frame[ADDRESSES..] == Encapsulate(tags, ethertype, payload);
    ParseDecides(frame, ADDRESSES, Typed(tags, ethertype, payload));
  }

  /** The result is a payload exactly when the frame encapsulates that payload. */
  lemma IpExactly(frame: seq<byte>, payload: seq<byte>)
    ensures StripFrom(frame, ADDRESSES) == Ip(payload)
       <==> |frame| >= ADDRESSES
            && exists tags: Tags, ethertype: u16 ::
                 IsIp(ethertype) && frame[ADDRESSES..] == Encapsulate(tags, ethertype, payload)
  {
    if |frame| >= ADDRESSES {
      var p := EverythingParses(frame, ADDRESSES);
      ParseDecides(frame, ADDRESSES, p);
      forall tags: Tags, ethertype: u16 |
        IsIp(ethertype) && frame[ADDRESSES..] == Encapsulate(tags, ethertype, payload)
        ensures StripFrom(frame, ADDRESSES) == Ip(payload)
      {
        ParseDecides(frame, ADDRESSES, Typed(tags, ethertype, payload));
      }
    }
  }

  /** A frame is passed over as non-IP exactly when its tags end in some other ethertype. */
  lemma NonTcpExactly(frame: seq<byte>)
    ensures StripFrom(frame, ADDRESSES) == Skip(NonTcp)
       <==> |frame| >= ADDRESSES
            && exists tags: Tags, ethertype: u16, rest: seq<byte> ::
                 !IsIp(ethertype) && !IsVlan(ethertype)
                 && frame[ADDRESSES..] == Encapsulate(tags, ethertype, rest)
  {
    if |frame| >= ADDRESSES {
      var p := EverythingParses(frame, ADDRESSES);
      ParseDecides(frame, ADDRESSES, p);
      forall tags: Tags, ethertype: u16, rest: seq<byte> |
        !IsIp(ethertype) && !IsVlan(ethertype) && frame[ADDRESSES..] == Encapsulate(tags, ethertype, rest)
        ensures StripFrom(frame, ADDRESSES) == Skip(NonTcp)
      {
        ParseDecides(frame, ADDRESSES, Typed(tags, ethertype, rest));
      }
    }
  }

  // -------------------------------------------------------- other link types

  /** Cooked captures carry one ethertype at a fixed place. */
  function StripAfterEthertype(frame: seq<byte>, etOff: nat, ipOff: nat): Stripped {
    match Be16(frame, etOff)
    case None => Skip(Malformed)
    case Some(ethertype) =>
      if !IsIp(ethertype) then Skip(NonTcp)
      else if ipOff <= |frame| then Ip(frame[ipOff..]) else Skip(Malformed)
  }

  function Strip(link: LinkType, frame: seq<byte>): Stripped {
    match link
    case RawIp => Ip(frame)
    case Null => if 4 <= |frame| then Ip(frame[4..]) else Skip(Malformed)
    case LinuxSll2 => StripAfterEthertype(frame, 0, 20)
    case LinuxSll => StripAfterEthertype(frame, 14, 16)
    case Ethernet => StripFrom(frame, ADDRESSES)
  }

  /** On every link type the IP bytes are what remains of the frame after some prefix. */
  lemma {:induction false} IpIsSuffix(link: LinkType, frame: seq<byte>)
    requires Strip(link, frame).Ip?
    ensures var n := |frame| - |Strip(link, frame).bytes|;
            0 <= n && Strip(link, frame).bytes == frame[n..]
  {
    if link == Ethernet {
      EthernetIsSuffix(frame, ADDRESSES);
    }
  }

  lemma {:induction false} EthernetIsSuffix(frame: seq<byte>, off: nat)
    requires StripFrom(frame, off).Ip?
    ensures var n := |frame| - |StripFrom(frame, off).bytes|;
            off + 2 <= n && StripFrom(frame, off).bytes == frame[n..]
    decreases |frame| - off
  {
    if IsVlan(Be16(frame, off).value) {
      EthernetIsSuffix(frame, off + 4);
    }
  }

  // ------------------------------------------------------- the headers, plainly

  /** The two bytes that announce IP version 4 or 6. */
  ghost predicate NamesIp(b: seq<byte>, at: nat) {
    at + 2 <= |b| && (b[at..at + 2] == [0x08, 0x00] || b[at..at + 2] == [0x86, 0xDD])
  }

  /** The two bytes that open a tag of either kind. */
  ghost predicate OpensTag(b: seq<byte>, at: nat) {
    at + 2 <= |b| && (b[at..at + 2] == [0x81, 0x00] || b[at..at + 2] == [0x88, 0xA8])
  }

  /** Twelve bytes of addresses and `n` tags of four bytes each lie before the type. */
  ghost predicate HasTags(b: seq<byte>, n: nat) {
    forall i: nat | i < n :: OpensTag(b, 12 + 4 * i)
  }

  /** The bytes that may stand before an IP packet on each kind of link. */
  ghost predicate IsHeader(link: LinkType, header: seq<byte>) {
    match link
    case RawIp => header == []
    case Null => |header| == 4
    case LinuxSll2 => |header| == 20 && NamesIp(header, 0)
    case LinuxSll => |header| == 16 && NamesIp(header, 14)
    case Ethernet => exists n: nat :: |header| == 14 + 4 * n && HasTags(header, n) && NamesIp(header, 12 + 4 * n)
  }

  /** The type is complete, and is neither IP nor, on Ethernet, a tag. */
  ghost predicate NamesOther(link: LinkType, frame: seq<byte>) {
    match link
    case RawIp => false
    case Null => false
    case LinuxSll2 => |frame| >= 2 && !NamesIp(frame, 0)
    case LinuxSll => |frame| >= 16 && !NamesIp(frame, 14)
    case Ethernet => exists n: nat ::
        HasTags(frame, n) && |frame| >= 14 + 4 * n && !NamesIp(frame, 12 + 4 * n) && !OpensTag(frame, 12 + 4 * n)
  }

  lemma TypesPlainly(b: seq<byte>, at: nat)
    ensures Be16(b, at).Some? <==> at + 2 <= |b|
    ensures NamesIp(b, at) <==> Be16(b, at).Some? && IsIp(Be16(b, at).value)
    ensures OpensTag(b, at) <==> Be16(b, at).Some? && IsVlan(Be16(b, at).value)
  {
    if at + 2 <= |b| {
      assert b[at..at + 2] == [b[at], b[at + 1]];
    }
  }

  /** The stripper walks over any tags in front of it. */
  lemma {:induction false} TagsComeOff(frame: seq<byte>, n: nat)
    requires HasTags(frame, n)
    ensures StripFrom(frame, 12) == StripFrom(frame, 12 + 4 * n)
  {
    if n > 0 {
      TagsComeOff(frame, n - 1);
      assert OpensTag(frame, 12 + 4 * (n - 1));
      TypesPlainly(frame, 12 + 4 * (n - 1));
    }
  }

  /** There is a first place where no tag opens. */
  lemma {:induction false} CountTags(frame: seq<byte>, k: nat) returns (n: nat)
    requires HasTags(frame, k)
    ensures HasTags(frame, n) && !OpensTag(frame, 12 + 4 * n)
    decreases |frame| - 4 * k
  {
    if OpensTag(frame, 12 + 4 * k) { n := CountTags(frame, k + 1); } else { n := k; }
  }

  /** A payload is what follows a header of the link, and nothing else is. */
  lemma HeadersComeOff(link: LinkType, frame: seq<byte>, payload: seq<byte>)
    ensures Strip(link, frame) == Ip(payload)
       <==> exists header: seq<byte> :: IsHeader(link, header) && frame == header + payload
  {
    if Strip(link, frame) == Ip(payload) {
      var header := HeaderOf(link, frame, payload);
    }
    forall header: seq<byte> | IsHeader(link, header) && frame == header + payload
      ensures Strip(link, frame) == Ip(payload)
    {
      HeaderComesOff(link, header, payload);
    }
  }

  lemma HeaderComesOff(link: LinkType, header: seq<byte>, payload: seq<byte>)
    requires IsHeader(link, header)
    ensures Strip(link, header + payload) == Ip(payload)
  {
    var frame := header + payload;
    assert frame[|header|..] == payload;
    if link == Ethernet {
      var n: nat :| |header| == 14 + 4 * n && HasTags(header, n) && NamesIp(header, 12 + 4 * n);
      SameTags(header, frame, n);
      TagsComeOff(frame, n);
      TypesPlainly(frame, 12 + 4 * n);
    } else if link == LinuxSll {
      assert frame[14..16] == header[14..16];
      TypesPlainly(frame, 14);
    } else if link == LinuxSll2 {
      assert frame[0..2] == header[0..2];
      TypesPlainly(frame, 0);
    } else if link == RawIp {
      assert frame == payload;
    }
  }

  lemma HeaderOf(link: LinkType, frame: seq<byte>, payload: seq<byte>) returns (header: seq<byte>)
    requires Strip(link, frame) == Ip(payload)
    ensures IsHeader(link, header) && frame == header + payload
  {
    match link
    case RawIp => header := [];
    case Null => header := frame[..4];
    case LinuxSll2 =>
      header := frame[..20];
      TypesPlainly(frame, 0);
      assert header[0..2] == frame[0..2];
    case LinuxSll =>
      header := frame[..16];
      TypesPlainly(frame, 14);
      assert header[14..16] == frame[14..16];
    case Ethernet =>
      var n := CountTags(frame, 0);
      TagsComeOff(frame, n);
      TypesPlainly(frame, 12 + 4 * n);
      header := frame[..14 + 4 * n];
      SameTags(frame, header, n);
      assert header + payload == frame;
  }

  lemma SameType(a: seq<byte>, b: seq<byte>, len: nat, at: nat)
    requires at + 2 <= len <= |a| && len <= |b| && a[..len] == b[..len]
    ensures a[at..at + 2] == b[at..at + 2]
  {
    assert a[at..at + 2] == a[..len][at..at + 2];
    assert b[at..at + 2] == b[..len][at..at + 2];
  }

  /** Two byte strings that agree up to and including the type have the same tags and type. */
  lemma SameTags(a: seq<byte>, b: seq<byte>, n: nat)
    requires 14 + 4 * n <= |a| && 14 + 4 * n <= |b| && a[..14 + 4 * n] == b[..14 + 4 * n]
    ensures HasTags(a, n) ==> HasTags(b, n)
    ensures NamesIp(a, 12 + 4 * n) ==> NamesIp(b, 12 + 4 * n)
  {
    SameType(a, b, 14 + 4 * n, 12 + 4 * n);
    if HasTags(a, n) {
      forall i: nat | i < n ensures OpensTag(b, 12 + 4 * i) {
        assert OpensTag(a, 12 + 4 * i);
        SameType(a, b, 14 + 4 * n, 12 + 4 * i);
      }
    }
  }

  /** A frame is passed over as carrying something else exactly when it names something else. */
  lemma OthersArePassedOver(link: LinkType, frame: seq<byte>)
    ensures Strip(link, frame) == Skip(NonTcp) <==> NamesOther(link, frame)
  {
    match link
    case RawIp =>
    case Null =>
    case LinuxSll2 => TypesPlainly(frame, 0);
    case LinuxSll => TypesPlainly(frame, 14);
    case Ethernet =>
      var m := CountTags(frame, 0);
      TagsComeOff(frame, m);
      TypesPlainly(frame, 12 + 4 * m);
      if NamesOther(link, frame) {
        var n: nat :|
          HasTags(frame, n) && |frame| >= 14 + 4 * n && !NamesIp(frame, 12 + 4 * n) && !OpensTag(frame, 12 + 4 * n);
        TagsComeOff(frame, n);
        TypesPlainly(frame, 12 + 4 * n);
      }
  }
}

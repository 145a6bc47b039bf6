/**
 * What a read shows after an encode: under a type converter that gives back what it was given
 * and whose earlier trial variants reject it, decoding the encoded records reproduces the
 * configuration, except that display names equal to the generated id are dropped and ICMP
 * numerals come back in canonical form.
 */
module RoundTrip {
  import opened Wrappers
  import opened Numerals
  import opened ServiceEntries
  import opened EntryEncoding
  import opened EntryDecoding

  /** An optional ICMP value survives printing and parsing: unset stays unset, a number stays that number. */
  lemma OptionalRoundTrip(o: Option<Int64>)
    ensures ParseOptional(PrintOptional(o)) == Ok(o)
  {
    if o.Some? {
      AtoiItoa(o.value);
    }
  }

  /** A configured ICMP numeral as it reads back: "" stays "", a parsable one is reprinted. */
  function Reprint(s: string): string {
    match ParseOptional(s)
    case Ok(o) => PrintOptional(o)
    case Err(_) => s
  }

  /** Reprinting leaves "" and canonical numerals alone and makes every parsable numeral canonical. */
  lemma ReprintCanonical(s: string)
    ensures s == "" || Canonical(s) ==> Reprint(s) == s
    ensures !InvalidNumeral(s) ==> Reprint(s) == "" || Canonical(Reprint(s))
  {
    if s != "" && Canonical(s) {
      CanonicalIsFixed(s);
    }
  }

  /** The element a read shows for configured element `f` encoded under id `id`. */
  function Normalize(f: FlatEntry, id: string): (g: FlatEntry)
    ensures g.KindOf() == f.KindOf()
  {
    var name := FilterDisplayName(f.displayName, id);
    match f
    case IcmpFlat(_, description, protocol, icmpType, icmpCode) =>
      IcmpFlat(name, description, protocol, Reprint(icmpType), Reprint(icmpCode))
    case L4PortSetFlat(_, description, protocol, sourcePorts, destinationPorts) =>
      L4PortSetFlat(name, description, protocol, sourcePorts, destinationPorts)
    case IgmpFlat(_, description) => IgmpFlat(name, description)
    case EtherTypeFlat(_, description, etherType) => EtherTypeFlat(name, description, etherType)
    case IpProtocolFlat(_, description, protocolNumber) => IpProtocolFlat(name, description, protocolNumber)
    case AlgFlat(_, description, algorithm, destinationPort, sourcePorts) =>
      AlgFlat(name, description, algorithm, destinationPort, sourcePorts)
  }

  function NormalizeAll(fs: seq<FlatEntry>, ids: seq<string>): (gs: seq<FlatEntry>)
    requires |fs| <= |ids|
    ensures |gs| == |fs|
  {
    seq(|fs|, i requires 0 <= i < |fs| => Normalize(fs[i], ids[i]))
  }

  /** An element the round trip leaves alone: its name is not its id, its ICMP numerals are canonical. */
  ghost predicate Stable(f: FlatEntry, id: string) {
    && (f.displayName != id || f.displayName == "")
    && (f.IcmpFlat? ==> (f.icmpType == "" || Canonical(f.icmpType)) && (f.icmpCode == "" || Canonical(f.icmpCode)))
  }

  lemma NormalizeStable(f: FlatEntry, id: string)
    requires Stable(f, id)
    ensures Normalize(f, id) == f
  {
    if f.IcmpFlat? {
      ReprintCanonical(f.icmpType);
      ReprintCanonical(f.icmpCode);
    }
  }

  /**
   * The converter's side of the round trip: a typed record it converts comes back unchanged
   * from its own variant's binding type, and every variant tried before that one rejects it.
   */
  ghost predicate Faithful<W>(conv: Converter<W>) {
    forall e: ServiceEntry, k: Kind {:trigger conv.toVapi(e, k)} ::
      e.body.KindOf() == k && conv.toVapi(e, k).Ok? ==>
        conv.toGolang(conv.toVapi(e, k).value, k) == Ok(e) &&
        FirstAccepting(conv, conv.toVapi(e, k).value, k)
  }

  /** One element: the wire record its encode produced reads back as its normal form. */
  lemma EntryRoundTrip<W>(conv: Converter<W>, f: FlatEntry, id: string, w: W)
    requires Faithful(conv)
    requires EncodeEntry(conv, f, id) == Ok(w)
    ensures Classify(conv, w) == Ok(Normalize(f, id))
  {
    var e, k := FromSchema(f, id).value, f.KindOf();
    assert conv.toVapi(e, k) == Ok(w);
    ClassifyFirstMatch(conv, w, k);
    assert conv.toGolang(w, k) == Ok(e);
    if f.IcmpFlat? {
      FromSchemaFields(f, id);
    }
  }

  /** A successful encode pass reads back as the grouped normal forms of the configured elements. */
  lemma DecodeEncode<W>(conv: Converter<W>, conf: Config, ids: seq<string>)
    requires |conf.Entries()| <= |ids|
    requires Faithful(conv)
    requires Encode(conv, conf, ids).failure.None?
    ensures Decode(conv, Encode(conv, conf, ids).records) == Ok(Group(NormalizeAll(conf.Entries(), ids)))
  {
    var fs, rs := conf.Entries(), Encode(conv, conf, ids).records;
    var gs := NormalizeAll(fs, ids);
    forall i | 0 <= i < |rs|
      ensures Classify(conv, rs[i]) == Ok(gs[i])
    {
      EntryRoundTrip(conv, fs[i], ids[i], rs[i]);
    }
    assert ClassifyAll(conv, rs).value == gs;
  }

  /** Appending a collection of variant k' adds all of it to variant k' and nothing to any other. */
  lemma PickBlock(a: seq<FlatEntry>, b: seq<FlatEntry>, k': Kind, k: Kind)
    requires AllOfKind(b, k')
    ensures Pick(a + b, k) == Pick(a, k) + if k' == k then b else []
  {
    PickConcat(a, b, k);
    PickOfKind(b, k);
  }

  /** Appending a block of variant k adds all of it to variant k's list. */
  lemma PickTake(a: seq<FlatEntry>, b: seq<FlatEntry>, k: Kind)
    requires AllOfKind(b, k)
    ensures Pick(a + b, k) == Pick(a, k) + b
  {
    PickBlock(a, b, k, k);
  }

  /** Appending a block of another variant leaves variant k's list as it was. */
  lemma PickSkip(a: seq<FlatEntry>, b: seq<FlatEntry>, k': Kind, k: Kind)
    requires AllOfKind(b, k') && k' != k
    ensures Pick(a + b, k) == Pick(a, k)
  {
    PickBlock(a, b, k', k);
  }

  /** A collection of another variant contributes nothing to variant k's list. */
  lemma PickNone(a: seq<FlatEntry>, k': Kind, k: Kind)
    requires AllOfKind(a, k') && k' != k
    ensures Pick(a, k) == []
  {
    PickOfKind(a, k);
  }

  /** Collection k is what picking variant k out of all configured elements gives. */
  lemma PickEntries(conf: Config, k: Kind)
    requires conf.WellKinded()
    ensures Pick(conf.Entries(), k) == conf.Get(k)
  {
    var icmp, l4, igmp, ether, ip, alg := conf.icmp, conf.l4PortSet, conf.igmp, conf.etherType, conf.ipProtocol, conf.alg;
    assert AllOfKind(conf.Get(Icmp), Icmp) && AllOfKind(conf.Get(L4PortSet), L4PortSet);
    assert AllOfKind(conf.Get(Igmp), Igmp) && AllOfKind(conf.Get(EtherType), EtherType);
    assert AllOfKind(conf.Get(IpProtocol), IpProtocol) && AllOfKind(conf.Get(Alg), Alg);
    var s1 := icmp + l4;
    var s2 := s1 + igmp;
    var s3 := s2 + ether;
    var s4 := s3 + ip;
    assert conf.Entries() == s4 + alg;
    match k
    case Icmp =>
      PickOfKind(icmp, k);
      PickSkip(icmp, l4, L4PortSet, k); PickSkip(s1, igmp, Igmp, k); PickSkip(s2, ether, EtherType, k);
      PickSkip(s3, ip, IpProtocol, k); PickSkip(s4, alg, Alg, k);
    case L4PortSet =>
      PickNone(icmp, Icmp, k); PickTake(icmp, l4, k);
      PickSkip(s1, igmp, Igmp, k); PickSkip(s2, ether, EtherType, k);
      PickSkip(s3, ip, IpProtocol, k); PickSkip(s4, alg, Alg, k);
    case Igmp =>
      PickNone(icmp, Icmp, k); PickSkip(icmp, l4, L4PortSet, k); PickTake(s1, igmp, k);
      PickSkip(s2, ether, EtherType, k); PickSkip(s3, ip, IpProtocol, k); PickSkip(s4, alg, Alg, k);
    case EtherType =>
      PickNone(icmp, Icmp, k); PickSkip(icmp, l4, L4PortSet, k); PickSkip(s1, igmp, Igmp, k);
      PickTake(s2, ether, k); PickSkip(s3, ip, IpProtocol, k); PickSkip(s4, alg, Alg, k);
    case IpProtocol =>
      PickNone(icmp, Icmp, k); PickSkip(icmp, l4, L4PortSet, k); PickSkip(s1, igmp, Igmp, k);
      PickSkip(s2, ether, EtherType, k); PickTake(s3, ip, k); PickSkip(s4, alg, Alg, k);
    case Alg =>
      PickNone(icmp, Icmp, k); PickSkip(icmp, l4, L4PortSet, k); PickSkip(s1, igmp, Igmp, k);
      PickSkip(s2, ether, EtherType, k); PickSkip(s3, ip, IpProtocol, k); PickTake(s4, alg, k);
  }

  /** Grouping the encode order's elements gives the configuration back. */
  lemma GroupEntries(conf: Config)
    requires conf.WellKinded()
    ensures Group(conf.Entries()) == conf
  {
    PickEntries(conf, Icmp);
    PickEntries(conf, L4PortSet);
    PickEntries(conf, Igmp);
    PickEntries(conf, EtherType);
    PickEntries(conf, IpProtocol);
    PickEntries(conf, Alg);
  }

  /** When every element is stable under its id, a read after an encode shows the configuration as it was. */
  lemma DecodeEncodeIdentity<W>(conv: Converter<W>, conf: Config, ids: seq<string>)
    requires |conf.Entries()| <= |ids|
    requires conf.WellKinded()
    requires Faithful(conv)
    requires Encode(conv, conf, ids).failure.None?
    requires forall i :: 0 <= i < |conf.Entries()| ==> Stable(conf.Entries()[i], ids[i])
    ensures Decode(conv, Encode(conv, conf, ids).records) == Ok(conf)
  {
    DecodeEncode(conv, conf, ids);
    NormalizeAllStable(conf.Entries(), ids);
    GroupEntries(conf);
  }

  /** A sequence of stable elements is its own normal form. */
  lemma NormalizeAllStable(fs: seq<FlatEntry>, ids: seq<string>)
    requires |fs| <= |ids|
    requires forall i :: 0 <= i < |fs| ==> Stable(fs[i], ids[i])
    ensures NormalizeAll(fs, ids) == fs
  {
    forall i | 0 <= i < |fs| ensures NormalizeAll(fs, ids)[i] == fs[i] {
      NormalizeStable(fs[i], ids[i]);
    }
  }
}

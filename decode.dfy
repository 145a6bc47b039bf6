/**
 * The decode direction of the service-entry codec: each returned wire record is tried against
 * the variants in TRIAL_ORDER, the first conversion that succeeds decides its variant, its
 * fields are copied into a flat element, and the elements are grouped into the six
 * collections in the order the records came in. A record no variant accepts fails the read.
 */
module EntryDecoding {
  import opened Wrappers
  import opened Numerals
  import opened ServiceEntries

  /** The display name to show in configuration: one the server defaulted to the id is dropped. */
  function FilterDisplayName(name: string, id: string): (r: string)
    ensures r == "" <==> (name == id || name == "")
    ensures r == name || r == ""
  {
    if name == id then "" else name
  }

  /** Filtering twice changes nothing more. */
  lemma FilterDisplayNameIdempotent(name: string, id: string)
    ensures FilterDisplayName(FilterDisplayName(name, id), id) == FilterDisplayName(name, id)
  {
  }

  /** An optional ICMP type or code as configuration shows it: "" when unset. */
  function PrintOptional(o: Option<Int64>): (s: string)
    ensures s == "" <==> o.None?
  {
    match o
    case None => ""
    case Some(v) => Itoa(v)
  }

  /**
   * The flat element for a record that `ConvertToGolang` returned for binding type `k`.
   * A record of another variant fails the type assertion, a missing id or display name is a
   * nil dereference, and an ALG record without destination ports fails on element 0; all
   * three are runtime panics.
   */
  function ToSchema(e: ServiceEntry, k: Kind): (r: Result<FlatEntry, Error>)
    ensures r.Ok? <==> e.body.KindOf() == k && e.id.Some? && e.displayName.Some? &&
                       (k == Alg ==> |e.body.destinationPorts| > 0)
    ensures r.Err? ==> r.error.Panic?
    ensures r.Ok? ==> r.value.KindOf() == k
    ensures r.Ok? ==> r.value.displayName == FilterDisplayName(e.displayName.value, e.id.value)
    ensures r.Ok? ==> r.value.description == e.description.GetOr("")
  {
    if e.body.KindOf() != k then Err(Panic("interface conversion"))
    else if e.displayName.None? || e.id.None? then Err(Panic("nil pointer dereference"))
    else
      var name := FilterDisplayName(e.displayName.value, e.id.value);
      var description := e.description.GetOr("");
      match e.body
      case IcmpBody(protocol, icmpType, icmpCode) =>
        Ok(IcmpFlat(name, description, protocol, PrintOptional(icmpType), PrintOptional(icmpCode)))
      case L4PortSetBody(l4Protocol, sourcePorts, destinationPorts) =>
        Ok(L4PortSetFlat(name, description, l4Protocol, sourcePorts, destinationPorts))
      case IgmpBody => Ok(IgmpFlat(name, description))
      case EtherTypeBody(etherType) => Ok(EtherTypeFlat(name, description, etherType))
      case IpProtocolBody(protocolNumber) => Ok(IpProtocolFlat(name, description, protocolNumber))
      case AlgBody(alg, destinationPorts, sourcePorts) =>
        if |destinationPorts| == 0 then Err(Panic("index out of range"))
        else Ok(AlgFlat(name, description, alg, destinationPorts[0], sourcePorts))
  }

  /**
   * How a decoded record's variant fields land in the flat element: ICMP type and code are
   * printed, `""` when unset; the ALG entry's `destination_port` is element 0 of the record's
   * destination-port list; every other field is copied unchanged.
   */
  lemma ToSchemaFields(e: ServiceEntry, k: Kind)
    requires ToSchema(e, k).Ok?
    ensures var r := ToSchema(e, k).value;
      && (k == Icmp ==> r.protocol == e.body.protocol &&
                        r.icmpType == PrintOptional(e.body.icmpType) &&
                        r.icmpCode == PrintOptional(e.body.icmpCode))
      && (k == L4PortSet ==> r.protocol == e.body.l4Protocol && r.sourcePorts == e.body.sourcePorts &&
                             r.destinationPorts == e.body.destinationPorts)
      && (k == EtherType ==> r.etherType == e.body.etherType)
      && (k == IpProtocol ==> r.protocolNumber == e.body.protocolNumber)
      && (k == Alg ==> r.algorithm == e.body.alg && r.destinationPort == e.body.destinationPorts[0] &&
                       r.sourcePorts == e.body.sourcePorts)
  {
  }

  /** Variant `k` accepts `w` and every variant tried before `k` rejects it. */
  ghost predicate FirstAccepting<W>(conv: Converter<W>, w: W, k: Kind) {
    conv.toGolang(w, k).Ok? &&
    forall k' :: TrialRank(k') < TrialRank(k) ==> conv.toGolang(w, k').Err?
  }

  /** The trial chain over one returned record. */
  function Classify<W>(conv: Converter<W>, w: W): (r: Result<FlatEntry, Error>)
    ensures r.Ok? ==> FirstAccepting(conv, w, r.value.KindOf())
  {
    match conv.toGolang(w, Icmp)
    case Ok(e) => ToSchema(e, Icmp)
    case Err(_) =>
      match conv.toGolang(w, L4PortSet)
      case Ok(e) => ToSchema(e, L4PortSet)
      case Err(_) =>
        match conv.toGolang(w, EtherType)
        case Ok(e) => ToSchema(e, EtherType)
        case Err(_) =>
          match conv.toGolang(w, IpProtocol)
          case Ok(e) => ToSchema(e, IpProtocol)
          case Err(_) =>
            match conv.toGolang(w, Alg)
            case Ok(e) => ToSchema(e, Alg)
            case Err(_) =>
              match conv.toGolang(w, Igmp)
              case Ok(e) => ToSchema(e, Igmp)
              case Err(e) => Err(e)
  }

  /** The first variant in trial order whose conversion succeeds decides the flat element. */
  lemma ClassifyFirstMatch<W>(conv: Converter<W>, w: W, k: Kind)
    requires FirstAccepting(conv, w, k)
    ensures Classify(conv, w) == ToSchema(conv.toGolang(w, k).value, k)
  {
    match k
    case Icmp =>
    case L4PortSet => assert conv.toGolang(w, Icmp).Err? by { assert TrialRank(Icmp) < TrialRank(k); }
    case EtherType =>
      assert TrialRank(Icmp) < TrialRank(L4PortSet) < TrialRank(k);
    case IpProtocol =>
      assert TrialRank(Icmp) < TrialRank(L4PortSet) < TrialRank(EtherType) < TrialRank(k);
    case Alg =>
      assert TrialRank(Icmp) < TrialRank(L4PortSet) < TrialRank(EtherType) < TrialRank(IpProtocol) < TrialRank(k);
    case Igmp =>
      assert TrialRank(Icmp) < TrialRank(L4PortSet) < TrialRank(EtherType) < TrialRank(IpProtocol) < TrialRank(Alg) < TrialRank(k);
  }

  /** A record that no variant accepts fails with the error of the last trial, IGMP's. */
  lemma ClassifyNoMatch<W>(conv: Converter<W>, w: W)
    requires forall k :: conv.toGolang(w, k).Err?
    ensures Classify(conv, w) == Err(conv.toGolang(w, Igmp).error)
  {
    assert conv.toGolang(w, Icmp).Err? && conv.toGolang(w, L4PortSet).Err? && conv.toGolang(w, EtherType).Err?;
    assert conv.toGolang(w, IpProtocol).Err? && conv.toGolang(w, Alg).Err?;
  }

  /** Classifying every record, stopping at the first that fails. */
  function ClassifyAll<W>(conv: Converter<W>, ws: seq<W>): (r: Result<seq<FlatEntry>, Error>)
    ensures r.Ok? <==> forall i :: 0 <= i < |ws| ==> Classify(conv, ws[i]).Ok?
    ensures r.Ok? ==> |r.value| == |ws| && forall i :: 0 <= i < |ws| ==> Classify(conv, ws[i]) == Ok(r.value[i])
    ensures forall n :: 0 <= n < |ws| && Classify(conv, ws[n]).Err? &&
                        (forall j :: 0 <= j < n ==> Classify(conv, ws[j]).Ok?) ==>
                        r == Err(Classify(conv, ws[n]).error)
    decreases |ws|
  {
    if ws == [] then Ok([])
    else
      match Classify(conv, ws[0])
      case Err(e) => Err(e)
      case Ok(f) =>
        var rest := ClassifyAll(conv, ws[1..]);
        assert forall i :: 1 <= i < |ws| ==> ws[1..][i - 1] == ws[i];
        match rest
        case Err(e) => Err(e)
        case Ok(fs) => Ok([f] + fs)
  }

  /** The elements of variant `k`, in their original order. */
  function Pick(fs: seq<FlatEntry>, k: Kind): (r: seq<FlatEntry>)
    ensures |r| <= |fs|
    ensures AllOfKind(r, k)
  {
    if fs == [] then []
    else Pick(fs[..|fs| - 1], k) + (if fs[|fs| - 1].KindOf() == k then [fs[|fs| - 1]] else [])
  }

  /** Appending one element appends it to its own variant's list only. */
  lemma PickAppend(fs: seq<FlatEntry>, f: FlatEntry)
    ensures forall k :: Pick(fs + [f], k) == Pick(fs, k) + (if f.KindOf() == k then [f] else [])
  {
    assert (fs + [f])[..|fs|] == fs;
  }

  lemma {:induction false} PickConcat(a: seq<FlatEntry>, b: seq<FlatEntry>, k: Kind)
    ensures Pick(a + b, k) == Pick(a, k) + Pick(b, k)
    decreases |b|
  {
    if b != [] {
      var b' := b[..|b| - 1];
      assert (a + b)[..|a + b| - 1] == a + b';
      PickConcat(a, b', k);
    } else {
      assert a + b == a;
    }
  }

  lemma {:induction false} PickOfKind(fs: seq<FlatEntry>, k: Kind)
    ensures AllOfKind(fs, k) ==> Pick(fs, k) == fs
    ensures (forall i :: 0 <= i < |fs| ==> fs[i].KindOf() != k) ==> Pick(fs, k) == []
  {
    if fs != [] {
      var prefix, last := fs[..|fs| - 1], fs[|fs| - 1];
      assert Pick(fs, k) == Pick(prefix, k) + (if last.KindOf() == k then [last] else []);
      if AllOfKind(fs, k) {
        assert AllOfKind(prefix, k) by {
          forall i | 0 <= i < |prefix| ensures prefix[i].KindOf() == k { assert prefix[i] == fs[i]; }
        }
        PickOfKind(prefix, k);
        assert prefix + [last] == fs;
      } else if forall i :: 0 <= i < |fs| ==> fs[i].KindOf() != k {
        assert forall i :: 0 <= i < |prefix| ==> prefix[i].KindOf() != k by {
          forall i | 0 <= i < |prefix| ensures prefix[i].KindOf() != k { assert prefix[i] == fs[i]; }
        }
        PickOfKind(prefix, k);
      }
    }
  }

  /** Every element lands in exactly one collection. */
  lemma {:induction false} PickPartitions(fs: seq<FlatEntry>)
    ensures |Pick(fs, Icmp)| + |Pick(fs, L4PortSet)| + |Pick(fs, Igmp)| + |Pick(fs, EtherType)| +
            |Pick(fs, IpProtocol)| + |Pick(fs, Alg)| == |fs|
  {
    if fs != [] {
      PickPartitions(fs[..|fs| - 1]);
    }
  }

  /** The six collections the decoded elements make up. */
  function Group(fs: seq<FlatEntry>): (c: Config)
    ensures c.WellKinded()
  {
    Config(Pick(fs, Icmp), Pick(fs, L4PortSet), Pick(fs, Igmp),
           Pick(fs, EtherType), Pick(fs, IpProtocol), Pick(fs, Alg))
  }

  /** Adding one element to one of six parts adds it to their union. */
  lemma UnionStep(a1: multiset<FlatEntry>, a2: multiset<FlatEntry>, a3: multiset<FlatEntry>,
                  a4: multiset<FlatEntry>, a5: multiset<FlatEntry>, a6: multiset<FlatEntry>,
                  c1: multiset<FlatEntry>, c2: multiset<FlatEntry>, c3: multiset<FlatEntry>,
                  c4: multiset<FlatEntry>, c5: multiset<FlatEntry>, c6: multiset<FlatEntry>, x: FlatEntry)
    requires c1 + c2 + c3 + c4 + c5 + c6 == multiset{x}
    ensures (a1 + c1) + (a2 + c2) + (a3 + c3) + (a4 + c4) + (a5 + c5) + (a6 + c6) ==
            a1 + a2 + a3 + a4 + a5 + a6 + multiset{x}
  {
  }

  /** What appending `x` adds to variant k's list, as a multiset. */
  function Added(x: FlatEntry, k: Kind): multiset<FlatEntry> {
    if x.KindOf() == k then multiset{x} else multiset{}
  }

  /** The six variant lists picked out of `fs`, as one multiset. */
  ghost function PickedUnion(fs: seq<FlatEntry>): multiset<FlatEntry> {
    multiset(Pick(fs, Icmp)) + multiset(Pick(fs, L4PortSet)) + multiset(Pick(fs, Igmp)) +
    multiset(Pick(fs, EtherType)) + multiset(Pick(fs, IpProtocol)) + multiset(Pick(fs, Alg))
  }

  /** One more element adds exactly that element to the six lists together. */
  lemma PickedUnionStep(fs: seq<FlatEntry>)
    requires fs != []
    ensures PickedUnion(fs) == PickedUnion(fs[..|fs| - 1]) + multiset{fs[|fs| - 1]}
  {
    var prefix, last := fs[..|fs| - 1], fs[|fs| - 1];
    forall k ensures multiset(Pick(fs, k)) == multiset(Pick(prefix, k)) + Added(last, k) {
    }
    assert Added(last, Icmp) + Added(last, L4PortSet) + Added(last, Igmp) + Added(last, EtherType) +
           Added(last, IpProtocol) + Added(last, Alg) == multiset{last};
    UnionStep(multiset(Pick(prefix, Icmp)), multiset(Pick(prefix, L4PortSet)), multiset(Pick(prefix, Igmp)),
              multiset(Pick(prefix, EtherType)), multiset(Pick(prefix, IpProtocol)), multiset(Pick(prefix, Alg)),
              Added(last, Icmp), Added(last, L4PortSet), Added(last, Igmp), Added(last, EtherType),
              Added(last, IpProtocol), Added(last, Alg), last);
  }

  /** No element, no picked element. */
  lemma PickedUnionEmpty()
    ensures PickedUnion([]) == multiset{}
  {
    var e: seq<FlatEntry> := [];
    assert Pick(e, Icmp) == Pick(e, L4PortSet) == Pick(e, Igmp) == [];
    assert Pick(e, EtherType) == Pick(e, IpProtocol) == Pick(e, Alg) == [];
  }

  /** Picking the six variants out of `fs` splits it: every element goes to exactly one list. */
  lemma {:induction false} PickMultiset(fs: seq<FlatEntry>)
    ensures PickedUnion(fs) == multiset(fs)
  {
    if fs == [] {
      PickedUnionEmpty();
    } else {
      PickMultiset(fs[..|fs| - 1]);
      PickedUnionStep(fs);
      MultisetSnoc(fs);
    }
  }

  /** A sequence's multiset is its prefix's plus its last element. */
  lemma MultisetSnoc(fs: seq<FlatEntry>)
    requires fs != []
    ensures multiset(fs) == multiset(fs[..|fs| - 1]) + multiset{fs[|fs| - 1]}
  {
    assert fs == fs[..|fs| - 1] + [fs[|fs| - 1]];
  }

  /** Collection k of the grouping is variant k's elements in their original order. */
  lemma GroupGet(fs: seq<FlatEntry>)
    ensures forall k :: Group(fs).Get(k) == Pick(fs, k)
  {
    forall k ensures Group(fs).Get(k) == Pick(fs, k) {
      match k
      case Icmp =>
      case L4PortSet =>
      case Igmp =>
      case EtherType =>
      case IpProtocol =>
      case Alg =>
    }
  }

  /** Grouping loses and duplicates nothing: the six collections hold exactly the elements grouped. */
  lemma GroupMultiset(fs: seq<FlatEntry>)
    ensures multiset(Group(fs).Entries()) == multiset(fs)
  {
    PickMultiset(fs);
  }

  /** The decode pass over the records a Service read returned. */
  function Decode<W>(conv: Converter<W>, ws: seq<W>): (r: Result<Config, Error>)
    ensures r.Ok? <==> forall i :: 0 <= i < |ws| ==> Classify(conv, ws[i]).Ok?
    ensures r.Ok? ==> r.value.WellKinded()
    ensures r.Ok? ==> |r.value.icmp| + |r.value.l4PortSet| + |r.value.igmp| + |r.value.etherType| +
                      |r.value.ipProtocol| + |r.value.alg| == |ws|
  {
    match ClassifyAll(conv, ws)
    case Err(e) => Err(e)
    case Ok(fs) => PickPartitions(fs); Ok(Group(fs))
  }

  /**
   * A successful read's six lists are exactly the classified records: each list holds its
   * variant's records in input order, and together they hold every record once.
   */
  lemma DecodeContents<W>(conv: Converter<W>, ws: seq<W>)
    requires Decode(conv, ws).Ok?
    ensures var fs, c := ClassifyAll(conv, ws).value, Decode(conv, ws).value;
      && multiset(c.Entries()) == multiset(fs)
      && (forall k :: c.Get(k) == Pick(fs, k))
  {
    var fs := ClassifyAll(conv, ws).value;
    assert Decode(conv, ws).value == Group(fs);
    GroupMultiset(fs);
    GroupGet(fs);
  }

  /** A record no variant accepts fails the whole read, after every earlier record decoded. */
  lemma DecodeRejectsUnknown<W>(conv: Converter<W>, ws: seq<W>, n: nat)
    requires n < |ws|
    requires forall k :: conv.toGolang(ws[n], k).Err?
    requires forall j :: 0 <= j < n ==> Classify(conv, ws[j]).Ok?
    ensures Decode(conv, ws) == Err(conv.toGolang(ws[n], Igmp).error)
  {
    ClassifyNoMatch(conv, ws[n]);
  }
}

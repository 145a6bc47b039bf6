/**
 * The encode direction of the service-entry codec: each configured element becomes a typed
 * SDK record with a fresh id and its variant's resource type, which the type converter turns
 * into a wire record; the records of the six collections are concatenated in ENCODE_ORDER and
 * the first failure ends the pass.
 */
module EntryEncoding {
  import opened Wrappers
  import opened Numerals
  import opened ServiceEntries

  /** A non-empty string that `Atoi` rejects. */
  predicate InvalidNumeral(s: string) {
    s != "" && Atoi(s).None?
  }

  /** An optional ICMP type or code as configured: "" is unset, anything else must parse. */
  function ParseOptional(s: string): (r: Result<Option<Int64>, Error>)
    ensures r == Ok(None) <==> s == ""
    ensures r.Err? <==> InvalidNumeral(s)
    ensures r.Err? ==> r.error == NumError(s)
    ensures s != "" && Atoi(s).Some? ==> r == Ok(Some(Atoi(s).value))
  {
    if s == "" then Ok(None)
    else
      match Atoi(s)
      case Some(v) => Ok(Some(v))
      case None => Err(NumError(s))
  }

  /** An ICMP element whose type or code cannot be parsed. */
  predicate HasInvalidNumeral(f: FlatEntry) {
    f.IcmpFlat? && (InvalidNumeral(f.icmpType) || InvalidNumeral(f.icmpCode))
  }

  /**
   * The typed record built for configured element `f` under the fresh id `id`. Only an ICMP
   * element can fail, and only on an unparsable type (checked first) or code.
   */
  function FromSchema(f: FlatEntry, id: string): (r: Result<ServiceEntry, Error>)
    ensures r.Err? <==> HasInvalidNumeral(f)
    ensures r.Err? ==> r.error == NumError(if InvalidNumeral(f.icmpType) then f.icmpType else f.icmpCode)
    ensures r.Ok? ==> r.value.id == Some(id) && r.value.resourceType == ResourceType(f.KindOf())
    ensures r.Ok? ==> r.value.displayName == Some(f.displayName) && r.value.description == Some(f.description)
    ensures r.Ok? ==> r.value.body.KindOf() == f.KindOf()
  {
    var header := (body: Body) => ServiceEntry(Some(id), Some(f.displayName), Some(f.description),
                                               ResourceType(f.KindOf()), body);
    match f
    case IcmpFlat(_, _, protocol, icmpType, icmpCode) =>
      (match ParseOptional(icmpType)
       case Err(e) => Err(e)
       case Ok(t) =>
         match ParseOptional(icmpCode)
         case Err(e) => Err(e)
         case Ok(c) => Ok(header(IcmpBody(protocol, t, c))))
    case L4PortSetFlat(_, _, protocol, sourcePorts, destinationPorts) =>
      Ok(header(L4PortSetBody(protocol, sourcePorts, destinationPorts)))
    case IgmpFlat(_, _) => Ok(header(IgmpBody))
    case EtherTypeFlat(_, _, etherType) => Ok(header(EtherTypeBody(etherType)))
    case IpProtocolFlat(_, _, protocolNumber) => Ok(header(IpProtocolBody(protocolNumber)))
    case AlgFlat(_, _, algorithm, destinationPort, sourcePorts) =>
      Ok(header(AlgBody(algorithm, [destinationPort], sourcePorts)))
  }

  /** How each variant's configured fields land in the typed record. */
  lemma FromSchemaFields(f: FlatEntry, id: string)
    requires FromSchema(f, id).Ok?
    ensures var b := FromSchema(f, id).value.body;
      match f
      case IcmpFlat(_, _, protocol, icmpType, icmpCode) =>
        b == IcmpBody(protocol, ParseOptional(icmpType).value, ParseOptional(icmpCode).value)
      case L4PortSetFlat(_, _, protocol, src, dst) => b == L4PortSetBody(protocol, src, dst)
      case IgmpFlat(_, _) => b == IgmpBody
      case EtherTypeFlat(_, _, etherType) => b == EtherTypeBody(etherType)
      case IpProtocolFlat(_, _, protocol) => b == IpProtocolBody(protocol)
      case AlgFlat(_, _, alg, port, src) => b == AlgBody(alg, [port], src) && |b.destinationPorts| == 1
  {
  }

  /**
   * One element through FromSchema and then `ConvertToVapi` with its variant's binding type:
   * an unparsable ICMP numeral fails before the converter is consulted.
   */
  function EncodeEntry<W>(conv: Converter<W>, f: FlatEntry, id: string): (r: Result<W, Error>)
    ensures HasInvalidNumeral(f) ==> r.Err? && r.error.NumError?
    ensures !HasInvalidNumeral(f) ==> r == conv.toVapi(FromSchema(f, id).value, f.KindOf())
  {
    match FromSchema(f, id)
    case Err(e) => Err(e)
    case Ok(entry) => conv.toVapi(entry, f.KindOf())
  }

  /** What an encode pass returns: the records built so far, and the error that stopped it. */
  datatype Encoded<W> = Encoded(records: seq<W>, failure: Option<Error>)

  /**
   * `records` and `failure` are what encoding `fs` (element i under id `ids[i]`) yields:
   * the records of a prefix of `fs`, all of `fs` when there is no failure, and otherwise
   * the element right after the prefix fails with `failure`.
   */
  ghost predicate EncodedAs<W>(conv: Converter<W>, fs: seq<FlatEntry>, ids: seq<string>,
                               records: seq<W>, failure: Option<Error>)
    requires |fs| <= |ids|
  {
    && |records| <= |fs|
    && (forall i :: 0 <= i < |records| ==> EncodeEntry(conv, fs[i], ids[i]) == Ok(records[i]))
    && (failure.None? ==> |records| == |fs|)
    && (failure.Some? ==> |records| < |fs| &&
                          EncodeEntry(conv, fs[|records|], ids[|records|]) == Err(failure.value))
  }

  /** Encoding a sequence of elements, stopping at the first failure. */
  function EncodeAll<W>(conv: Converter<W>, fs: seq<FlatEntry>, ids: seq<string>): (r: Encoded<W>)
    requires |fs| <= |ids|
    ensures EncodedAs(conv, fs, ids, r.records, r.failure)
    decreases |fs|
  {
    if fs == [] then Encoded([], None)
    else
      match EncodeEntry(conv, fs[0], ids[0])
      case Err(e) => Encoded([], Some(e))
      case Ok(w) =>
        var rest := EncodeAll(conv, fs[1..], ids[1..]);
        assert forall i :: 1 <= i < |rest.records| + 1 ==> fs[1..][i - 1] == fs[i] && ids[1..][i - 1] == ids[i];
        Encoded([w] + rest.records, rest.failure)
  }

  /** EncodedAs pins the outcome down: it is exactly what EncodeAll computes. */
  lemma EncodedAsUnique<W>(conv: Converter<W>, fs: seq<FlatEntry>, ids: seq<string>,
                           records: seq<W>, failure: Option<Error>)
    requires |fs| <= |ids|
    requires EncodedAs(conv, fs, ids, records, failure)
    ensures EncodeAll(conv, fs, ids) == Encoded(records, failure)
  {
    var r := EncodeAll(conv, fs, ids);
    assert |r.records| == |records|;
    assert r.records == records;
  }

  /** A pass that failed inside `a` has the same outcome on any extension of `a`. */
  lemma EncodedAsExtend<W>(conv: Converter<W>, a: seq<FlatEntry>, b: seq<FlatEntry>, ids: seq<string>,
                           ra: seq<W>, e: Error)
    requires |a| + |b| <= |ids|
    requires EncodedAs(conv, a, ids, ra, Some(e))
    ensures EncodedAs(conv, a + b, ids, ra, Some(e))
  {
    var fs := a + b;
    assert forall i :: 0 <= i < |a| ==> fs[i] == a[i];
  }

  /** Where collection `k` starts in `conf.Entries()`: the sizes of the collections before it. */
  function Offset(conf: Config, k: Kind): nat {
    match k
    case Icmp => 0
    case L4PortSet => |conf.icmp|
    case Igmp => |conf.icmp| + |conf.l4PortSet|
    case EtherType => |conf.icmp| + |conf.l4PortSet| + |conf.igmp|
    case IpProtocol => |conf.icmp| + |conf.l4PortSet| + |conf.igmp| + |conf.etherType|
    case Alg => |conf.icmp| + |conf.l4PortSet| + |conf.igmp| + |conf.etherType| + |conf.ipProtocol|
  }

  /**
   * Each collection occupies one contiguous block of `conf.Entries()`, in its own traversal
   * order; the blocks follow ENCODE_ORDER and together cover every configured element.
   */
  lemma EntriesLayout(conf: Config, k: Kind, i: nat)
    requires i < |conf.Get(k)|
    ensures Offset(conf, k) + i < |conf.Entries()|
    ensures conf.Entries()[Offset(conf, k) + i] == conf.Get(k)[i]
    ensures |conf.Entries()| == Offset(conf, Alg) + |conf.alg|
    ensures forall n :: 0 < n < |ENCODE_ORDER| ==>
      Offset(conf, ENCODE_ORDER[n]) == Offset(conf, ENCODE_ORDER[n - 1]) + |conf.Get(ENCODE_ORDER[n - 1])|
  {
    var s1 := conf.icmp + conf.l4PortSet;
    var s2 := s1 + conf.igmp;
    var s3 := s2 + conf.etherType;
    var s4 := s3 + conf.ipProtocol;
    match k
    case Icmp => assert s4[i] == s3[i] == s2[i] == s1[i];
    case L4PortSet => assert s4[Offset(conf, k) + i] == s3[Offset(conf, k) + i] == s2[Offset(conf, k) + i];
    case Igmp => assert s4[Offset(conf, k) + i] == s3[Offset(conf, k) + i];
    case EtherType =>
    case IpProtocol =>
    case Alg =>
  }

  /** The encode pass over a whole configuration, each element getting the next supplied id. */
  function Encode<W>(conv: Converter<W>, conf: Config, ids: seq<string>): (r: Encoded<W>)
    requires |conf.Entries()| <= |ids|
    ensures r.failure.None? ==> |r.records| == |conf.icmp| + |conf.l4PortSet| + |conf.igmp| +
                                               |conf.etherType| + |conf.ipProtocol| + |conf.alg|
    ensures r.failure.Some? ==> |r.records| < |conf.icmp| + |conf.l4PortSet| + |conf.igmp| +
                                              |conf.etherType| + |conf.ipProtocol| + |conf.alg|
  {
    EncodeAll(conv, conf.Entries(), ids)
  }

  /**
   * A successful pass yields one record per configured element: the record of element i of
   * collection k sits at Offset(conf, k) + i and was built with id ids[Offset(conf, k) + i].
   */
  lemma EncodeLayout<W>(conv: Converter<W>, conf: Config, ids: seq<string>, k: Kind, i: nat)
    requires |conf.Entries()| <= |ids|
    requires Encode(conv, conf, ids).failure.None?
    requires i < |conf.Get(k)|
    ensures var records := Encode(conv, conf, ids).records;
      |records| == |conf.icmp| + |conf.l4PortSet| + |conf.igmp| + |conf.etherType| + |conf.ipProtocol| + |conf.alg| &&
      Offset(conf, k) + i < |records| &&
      EncodeEntry(conv, conf.Get(k)[i], ids[Offset(conf, k) + i]) == Ok(records[Offset(conf, k) + i])
  {
    EntriesLayout(conf, k, i);
  }

  /**
   * When the type converter accepts every typed record, an encode pass fails exactly when
   * some ICMP element carries an unparsable type or code, and then with a NumError.
   */
  lemma EncodeFailsOnInvalidNumeral<W>(conv: Converter<W>, conf: Config, ids: seq<string>)
    requires |conf.Entries()| <= |ids|
    requires forall e, k :: conv.toVapi(e, k).Ok?
    ensures Encode(conv, conf, ids).failure.Some? <==>
      exists j :: 0 <= j < |conf.Entries()| && HasInvalidNumeral(conf.Entries()[j])
    ensures Encode(conv, conf, ids).failure.Some? ==> Encode(conv, conf, ids).failure.value.NumError?
  {
    var fs, r := conf.Entries(), Encode(conv, conf, ids);
    if r.failure.Some? {
      assert HasInvalidNumeral(fs[|r.records|]);
    } else {
      forall j | 0 <= j < |fs| ensures !HasInvalidNumeral(fs[j]) {
        assert EncodeEntry(conv, fs[j], ids[j]).Ok?;
      }
    }
  }

  /**
   * Whatever the type converter does, an ICMP element with an unparsable type or code makes
   * the encode pass fail, at that element or at an earlier one.
   */
  lemma InvalidNumeralFailsEncode<W>(conv: Converter<W>, conf: Config, ids: seq<string>, j: nat)
    requires |conf.Entries()| <= |ids|
    requires j < |conf.Entries()| && HasInvalidNumeral(conf.Entries()[j])
    ensures Encode(conv, conf, ids).failure.Some?
    ensures |Encode(conv, conf, ids).records| <= j
  {
  }
}

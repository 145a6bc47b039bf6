/**
 * The entities of an NSX policy Service's entry list: the six entry variants, the flat
 * per-element maps the Terraform configuration holds for each of them, the typed SDK records
 * (`model.ICMPTypeServiceEntry` and its siblings), the SDK's type converter, and the errors
 * the codec can end in.
 */
module ServiceEntries {
  import opened Wrappers
  import opened Numerals

  /** The closed set of entry variants. */
  datatype Kind = Icmp | L4PortSet | Igmp | EtherType | IpProtocol | Alg

  /** The order in which the configuration's collections are encoded and written back. */
  const ENCODE_ORDER: seq<Kind> := [Icmp, L4PortSet, Igmp, EtherType, IpProtocol, Alg]

  /** The order in which a returned record is tried against the variants. */
  const TRIAL_ORDER: seq<Kind> := [Icmp, L4PortSet, EtherType, IpProtocol, Alg, Igmp]

  /** Position of `k` in the encode and write-back order. */
  function EncodeRank(k: Kind): (n: nat)
    ensures n < |ENCODE_ORDER| && ENCODE_ORDER[n] == k
  {
    match k
    case Icmp => 0
    case L4PortSet => 1
    case Igmp => 2
    case EtherType => 3
    case IpProtocol => 4
    case Alg => 5
  }

  /** Position of `k` in the trial order. */
  function TrialRank(k: Kind): (n: nat)
    ensures n < |TRIAL_ORDER| && TRIAL_ORDER[n] == k
  {
    match k
    case Icmp => 0
    case L4PortSet => 1
    case EtherType => 2
    case IpProtocol => 3
    case Alg => 4
    case Igmp => 5
  }

  /** The `ServiceEntry_RESOURCE_TYPE_*` discriminator the SDK defines for each variant. */
  function ResourceType(k: Kind): string {
    match k
    case Icmp => "ICMPTypeServiceEntry"
    case L4PortSet => "L4PortSetServiceEntry"
    case Igmp => "IGMPTypeServiceEntry"
    case EtherType => "EtherTypeServiceEntry"
    case IpProtocol => "IPProtocolServiceEntry"
    case Alg => "ALGTypeServiceEntry"
  }

  /** The Terraform attribute that holds each variant's collection. */
  function Key(k: Kind): string {
    match k
    case Icmp => "icmp_entry"
    case L4PortSet => "l4_port_set_entry"
    case Igmp => "igmp_entry"
    case EtherType => "ether_type_entry"
    case IpProtocol => "ip_protocol_entry"
    case Alg => "algorithm_entry"
  }

  /**
   * One element of a configured collection, with the schema's keys as fields. ICMP type and
   * code are decimal strings, "" when unset; `protocolNumber` is the ip_protocol_entry's
   * `protocol` key.
   */
  datatype FlatEntry =
    | IcmpFlat(displayName: string, description: string, protocol: string, icmpType: string, icmpCode: string)
    | L4PortSetFlat(displayName: string, description: string, protocol: string,
                    sourcePorts: seq<string>, destinationPorts: seq<string>)
    | IgmpFlat(displayName: string, description: string)
    | EtherTypeFlat(displayName: string, description: string, etherType: Int64)
    | IpProtocolFlat(displayName: string, description: string, protocolNumber: Int64)
    | AlgFlat(displayName: string, description: string, algorithm: string,
              destinationPort: string, sourcePorts: seq<string>)
  {
    function KindOf(): Kind {
      match this
      case IcmpFlat(_, _, _, _, _) => Icmp
      case L4PortSetFlat(_, _, _, _, _) => L4PortSet
      case IgmpFlat(_, _) => Igmp
      case EtherTypeFlat(_, _, _) => EtherType
      case IpProtocolFlat(_, _, _) => IpProtocol
      case AlgFlat(_, _, _, _, _) => Alg
    }
  }

  predicate AllOfKind(fs: seq<FlatEntry>, k: Kind) {
    forall i :: 0 <= i < |fs| ==> fs[i].KindOf() == k
  }

  /** The six entry collections of a Service's configuration, each in its traversal order. */
  datatype Config = Config(icmp: seq<FlatEntry>, l4PortSet: seq<FlatEntry>, igmp: seq<FlatEntry>,
                           etherType: seq<FlatEntry>, ipProtocol: seq<FlatEntry>, alg: seq<FlatEntry>)
  {
    function Get(k: Kind): seq<FlatEntry> {
      match k
      case Icmp => icmp
      case L4PortSet => l4PortSet
      case Igmp => igmp
      case EtherType => etherType
      case IpProtocol => ipProtocol
      case Alg => alg
    }

    /** This configuration with collection `k` replaced by `items`. */
    function With(k: Kind, items: seq<FlatEntry>): (c: Config)
      ensures c.Get(k) == items
      ensures forall k' :: k' != k ==> c.Get(k') == Get(k')
    {
      match k
      case Icmp => this.(icmp := items)
      case L4PortSet => this.(l4PortSet := items)
      case Igmp => this.(igmp := items)
      case EtherType => this.(etherType := items)
      case IpProtocol => this.(ipProtocol := items)
      case Alg => this.(alg := items)
    }

    /** All configured elements, collection by collection in ENCODE_ORDER. */
    function Entries(): seq<FlatEntry> {
      icmp + l4PortSet + igmp + etherType + ipProtocol + alg
    }

    /** Every collection holds elements of its own variant, as the schema guarantees. */
    predicate WellKinded() {
      forall k :: AllOfKind(Get(k), k)
    }
  }

  /** The variant-specific fields of a typed SDK entry record. */
  datatype Body =
    | IcmpBody(protocol: string, icmpType: Option<Int64>, icmpCode: Option<Int64>)
    | L4PortSetBody(l4Protocol: string, sourcePorts: seq<string>, destinationPorts: seq<string>)
    | IgmpBody
    | EtherTypeBody(etherType: Int64)
    | IpProtocolBody(protocolNumber: Int64)
    | AlgBody(alg: string, destinationPorts: seq<string>, sourcePorts: seq<string>)
  {
    function KindOf(): Kind {
      match this
      case IcmpBody(_, _, _) => Icmp
      case L4PortSetBody(_, _, _) => L4PortSet
      case IgmpBody => Igmp
      case EtherTypeBody(_) => EtherType
      case IpProtocolBody(_) => IpProtocol
      case AlgBody(_, _, _) => Alg
    }
  }

  /** A typed SDK entry record; its pointer fields are the `Option`s. */
  datatype ServiceEntry = ServiceEntry(id: Option<string>, displayName: Option<string>,
                                       description: Option<string>, resourceType: string, body: Body)

  datatype Error =
    | NumError(num: string)           // strconv.Atoi rejected `num`
    | BindingError(message: string)   // the first error the SDK type converter reported
    | EntriesConversion(cause: Error) // "Error during Service entries conversion: %v"
    | MissingId                       // "Error obtaining service id"
    | SchemaError(key: string)        // the schema engine refused to store attribute `key`
    | Panic(reason: string)           // a Go runtime panic

  /**
   * The SDK's type converter in REST mode, over wire records of type `W`:
   * `toVapi(e, k)` is `ConvertToVapi(e, <k>BindingType())` and
   * `toGolang(w, k)` is `ConvertToGolang(w, <k>BindingType())`.
   * Which records it accepts is the library's business; the model keeps it abstract.
   */
  datatype Converter<!W> = Converter(toVapi: (ServiceEntry, Kind) -> Result<W, Error>,
                                    toGolang: (W, Kind) -> Result<ServiceEntry, Error>)

  /** A Service object as handed to the policy API client. */
  datatype Service<W> = Service(displayName: string, description: string,
                                serviceEntries: seq<W>, revision: Option<Int64>)
}

/**
 * The policy Service resource's use of the codec, in the imperative form it has in the
 * provider: the encode pass's loops that grow the entry list, the read's loop that sorts
 * returned records into six lists and its sequence of attribute writes, and the create and
 * update paths that stop on a conversion error before the API client is called.
 */
module PolicyService {
  import opened Wrappers
  import opened Numerals
  import opened ServiceEntries
  import opened EntryEncoding
  import opened EntryDecoding

  /**
   * One collection's loop of the encode pass. `before` is what the loops over `done` built;
   * each element of `items` gets the next id and its wire record is appended, and the loop
   * returns at the first failure with what was built so far. `all` is the whole pass's
   * element sequence, of which `done + items` is a prefix.
   */
  method EncodeCollection<W>(conv: Converter<W>, ghost all: seq<FlatEntry>, ghost done: seq<FlatEntry>,
                             items: seq<FlatEntry>, ghost rest: seq<FlatEntry>, ids: seq<string>, before: seq<W>)
    returns (entries: seq<W>, err: Option<Error>)
    requires all == done + items + rest && |all| <= |ids|
    requires EncodedAs(conv, done, ids, before, None)
    ensures EncodedAs(conv, done + items, ids, entries, err)
    ensures err.Some? ==> EncodeAll(conv, all, ids) == Encoded(entries, err)
  {
    entries := before;
    var i := 0;
    while i < |items|
      invariant i <= |items|
      invariant |entries| == |before| + i
      invariant EncodedAs(conv, done + items[..i], ids, entries, None)
    {
      assert (done + items)[|entries|] == items[i];
      var entry := FromSchema(items[i], ids[|entries|]);
      if entry.Err? {
        EncodeFailed(conv, all, done, items, rest, ids, i, entries, entry.error);
        return entries, Some(entry.error);
      }
      var value := conv.toVapi(entry.value, items[i].KindOf());
      if value.Err? {
        EncodeFailed(conv, all, done, items, rest, ids, i, entries, value.error);
        return entries, Some(value.error);
      }
      EncodeNext(conv, done, items, ids, i, entries, value.value);
      entries := entries + [value.value];
      i := i + 1;
    }
    assert items[..i] == items;
    err := None;
  }

  /** An element that encodes extends a pass over the elements before it by its record. */
  lemma EncodeNext<W>(conv: Converter<W>, done: seq<FlatEntry>, items: seq<FlatEntry>, ids: seq<string>,
                      i: nat, entries: seq<W>, w: W)
    requires i < |items| && |done| + |items| <= |ids| && |entries| == |done| + i
    requires EncodedAs(conv, done + items[..i], ids, entries, None)
    requires EncodeEntry(conv, items[i], ids[|entries|]) == Ok(w)
    ensures EncodedAs(conv, done + items[..i + 1], ids, entries + [w], None)
  {
    var a, b := done + items[..i], done + items[..i + 1];
    assert forall j :: 0 <= j < |a| ==> b[j] == a[j];
    assert b[|a|] == items[i];
  }

  /**
   * An element that fails ends the loop, and the whole pass, with the records before it: no
   * later element or collection changes the outcome.
   */
  lemma EncodeFailed<W>(conv: Converter<W>, all: seq<FlatEntry>, done: seq<FlatEntry>, items: seq<FlatEntry>,
                        rest: seq<FlatEntry>, ids: seq<string>, i: nat, entries: seq<W>, e: Error)
    requires all == done + items + rest && |all| <= |ids|
    requires i < |items| && |entries| == |done| + i
    requires EncodedAs(conv, done + items[..i], ids, entries, None)
    requires EncodeEntry(conv, items[i], ids[|entries|]) == Err(e)
    ensures EncodedAs(conv, done + items, ids, entries, Some(e))
    ensures EncodeAll(conv, all, ids) == Encoded(entries, Some(e))
  {
    var a := done + items[..i];
    assert forall j :: 0 <= j < |a| ==> (done + items)[j] == a[j];
    assert (done + items)[|entries|] == items[i];
    EncodedAsExtend(conv, done + items, rest, ids, entries, e);
    EncodedAsUnique(conv, all, ids, entries, Some(e));
  }

  /**
   * The encode pass: the six collections' loops in ENCODE_ORDER, returning the entries built
   * so far and the first error.
   */
  method GetEntriesFromSchema<W>(conv: Converter<W>, conf: Config, ids: seq<string>)
    returns (entries: seq<W>, err: Option<Error>)
    requires |conf.Entries()| <= |ids|
    ensures Encoded(entries, err) == Encode(conv, conf, ids)
  {
    ghost var all := conf.Entries();
    ghost var d1, d2, d3, d4, d5 := EntriesSplits(conf);
    entries, err := EncodeCollection(conv, all, [], conf.icmp,
                                     conf.l4PortSet + conf.igmp + conf.etherType + conf.ipProtocol + conf.alg,
                                     ids, []);
    if err.Some? { return; }
    entries, err := EncodeCollection(conv, all, d1, conf.l4PortSet,
                                     conf.igmp + conf.etherType + conf.ipProtocol + conf.alg, ids, entries);
    if err.Some? { return; }
    entries, err := EncodeCollection(conv, all, d2, conf.igmp, conf.etherType + conf.ipProtocol + conf.alg,
                                     ids, entries);
    if err.Some? { return; }
    entries, err := EncodeCollection(conv, all, d3, conf.etherType, conf.ipProtocol + conf.alg, ids, entries);
    if err.Some? { return; }
    entries, err := EncodeCollection(conv, all, d4, conf.ipProtocol, conf.alg, ids, entries);
    if err.Some? { return; }
    entries, err := EncodeCollection(conv, all, d5, conf.alg, [], ids, entries);
    if err.Some? { return; }
    EncodedAsUnique(conv, all, ids, entries, err);
  }

  /**
   * The elements the encode loops have gone through before each collection (`d1` before the
   * L4 port sets, ..., `d5` before the ALG entries), and how each splits the whole sequence.
   */
  lemma EntriesSplits(conf: Config)
    returns (d1: seq<FlatEntry>, d2: seq<FlatEntry>, d3: seq<FlatEntry>, d4: seq<FlatEntry>, d5: seq<FlatEntry>)
    ensures d1 == [] + conf.icmp && d2 == d1 + conf.l4PortSet && d3 == d2 + conf.igmp
    ensures d4 == d3 + conf.etherType && d5 == d4 + conf.ipProtocol
    ensures conf.Entries() == [] + conf.icmp + (conf.l4PortSet + conf.igmp + conf.etherType + conf.ipProtocol + conf.alg)
    ensures conf.Entries() == d1 + conf.l4PortSet + (conf.igmp + conf.etherType + conf.ipProtocol + conf.alg)
    ensures conf.Entries() == d2 + conf.igmp + (conf.etherType + conf.ipProtocol + conf.alg)
    ensures conf.Entries() == d3 + conf.etherType + (conf.ipProtocol + conf.alg)
    ensures conf.Entries() == d4 + conf.ipProtocol + conf.alg
    ensures conf.Entries() == d5 + conf.alg + [] && conf.Entries() == d5 + conf.alg
  {
    d1 := [] + conf.icmp;
    d2 := d1 + conf.l4PortSet;
    d3 := d2 + conf.igmp;
    d4 := d3 + conf.etherType;
    d5 := d4 + conf.ipProtocol;
    assert d1 == conf.icmp;
  }

  /**
   * The read's loop over the returned records: classify each one and append its flat element
   * to its variant's list; the first record that fails ends the read with its error.
   */
  method ClassifyEntries<W>(conv: Converter<W>, wires: seq<W>) returns (r: Result<Config, Error>)
    ensures r == Decode(conv, wires)
  {
    var icmp, l4PortSet, igmp, etherType, ipProtocol, alg := [], [], [], [], [], [];
    ghost var done: seq<FlatEntry> := [];
    for i := 0 to |wires|
      invariant |done| == i
      invariant forall j :: 0 <= j < i ==> Classify(conv, wires[j]) == Ok(done[j])
      invariant icmp == Pick(done, Icmp) && l4PortSet == Pick(done, L4PortSet) && igmp == Pick(done, Igmp)
      invariant etherType == Pick(done, EtherType) && ipProtocol == Pick(done, IpProtocol) && alg == Pick(done, Alg)
    {
      var entry := Classify(conv, wires[i]);
      if entry.Err? {
        return Err(entry.error);
      }
      var elem := entry.value;
      PickAppend(done, elem);
      ghost var prev := done;
      done := done + [elem];
      assert forall j :: 0 <= j < i + 1 ==> Classify(conv, wires[j]) == Ok(done[j]) by {
        forall j | 0 <= j < i + 1 ensures Classify(conv, wires[j]) == Ok(done[j]) {
          if j < i {
            assert done[j] == prev[j];
          }
        }
      }
      match elem.KindOf() {
        case Icmp => icmp := icmp + [elem];
        case L4PortSet => l4PortSet := l4PortSet + [elem];
        case EtherType => etherType := etherType + [elem];
        case IpProtocol => ipProtocol := ipProtocol + [elem];
        case Alg => alg := alg + [elem];
        case Igmp => igmp := igmp + [elem];
      }
    }
    assert ClassifyAll(conv, wires).value == done;
    r := Ok(Config(icmp, l4PortSet, igmp, etherType, ipProtocol, alg));
  }

  /** The Terraform resource state the read writes its six collections into. */
  class ResourceData {
    var id: string
    var entries: Config
    /** The collections whose writes the schema engine refuses for reasons outside this model. */
    const refused: set<Kind>

    constructor (id: string, entries: Config, refused: set<Kind>)
      ensures this.id == id && this.entries == entries && this.refused == refused
    {
      this.id := id;
      this.entries := entries;
      this.refused := refused;
    }

    /**
     * `d.Set(Key(k), items)`: a list whose elements do not have the collection's shape, or a
     * refused collection, is an error and leaves the state as it was; otherwise the list
     * replaces the collection's previous contents.
     */
    method Set(k: Kind, items: seq<FlatEntry>) returns (err: Option<Error>)
      modifies this`entries
      ensures err.None? <==> k !in refused && AllOfKind(items, k)
      ensures err.Some? ==> err == Some(SchemaError(Key(k))) && entries == old(entries)
      ensures err.None? ==> entries == old(entries).With(k, items)
    {
      if k in refused || !AllOfKind(items, k) {
        return Some(SchemaError(Key(k)));
      }
      entries := entries.With(k, items);
      err := None;
    }
  }

  /** The index in ENCODE_ORDER of the first refused collection, |ENCODE_ORDER| if none is. */
  function FirstRefused(refused: set<Kind>, from: nat): (n: nat)
    requires from <= |ENCODE_ORDER|
    ensures from <= n <= |ENCODE_ORDER|
    ensures forall j :: from <= j < n ==> ENCODE_ORDER[j] !in refused
    ensures n < |ENCODE_ORDER| ==> ENCODE_ORDER[n] in refused
    decreases |ENCODE_ORDER| - from
  {
    if from == |ENCODE_ORDER| || ENCODE_ORDER[from] in refused then from
    else FirstRefused(refused, from + 1)
  }

  /**
   * The state after the first `n` writes of ENCODE_ORDER over `prior`: each collection written
   * so far holds its contents in `c`, every other one its contents in `prior`.
   */
  function Overwrite(prior: Config, c: Config, n: nat): (r: Config)
    ensures forall k :: r.Get(k) == if EncodeRank(k) < n then c.Get(k) else prior.Get(k)
  {
    Config(if 0 < n then c.icmp else prior.icmp,
           if 1 < n then c.l4PortSet else prior.l4PortSet,
           if 2 < n then c.igmp else prior.igmp,
           if 3 < n then c.etherType else prior.etherType,
           if 4 < n then c.ipProtocol else prior.ipProtocol,
           if 5 < n then c.alg else prior.alg)
  }

  /** Before any write the state is the prior one; after all six it is `c`: nothing is merged. */
  lemma OverwriteEnds(prior: Config, c: Config)
    ensures Overwrite(prior, c, 0) == prior
    ensures Overwrite(prior, c, |ENCODE_ORDER|) == c
  {
  }

  /** Writing one more collection of ENCODE_ORDER is one more `With` on the state so far. */
  lemma OverwriteStep(prior: Config, c: Config, j: nat)
    requires j < |ENCODE_ORDER|
    ensures Overwrite(prior, c, j + 1) == Overwrite(prior, c, j).With(ENCODE_ORDER[j], c.Get(ENCODE_ORDER[j]))
  {
  }

  /** The outcome of writing the six collections of `c` in ENCODE_ORDER over `prior`. */
  ghost predicate WrittenBack(prior: Config, c: Config, refused: set<Kind>, state: Config, err: Option<Error>) {
    var n := FirstRefused(refused, 0);
    state == Overwrite(prior, c, n) &&
    err == (if n < |ENCODE_ORDER| then Some(SchemaError(Key(ENCODE_ORDER[n]))) else None)
  }

  /** The first `j` writes of ENCODE_ORDER were all accepted and are what the state holds. */
  ghost predicate WrittenSoFar(prior: Config, c: Config, refused: set<Kind>, state: Config, j: nat)
    requires j <= |ENCODE_ORDER|
  {
    j <= FirstRefused(refused, 0) && state == Overwrite(prior, c, j)
  }

  /** Once all six writes were accepted, the read succeeded and the state is the decoded configuration. */
  lemma WrittenAll(prior: Config, c: Config, refused: set<Kind>, state: Config)
    requires WrittenSoFar(prior, c, refused, state, |ENCODE_ORDER|)
    ensures WrittenBack(prior, c, refused, state, None)
    ensures state == c
  {
    OverwriteEnds(prior, c);
  }

  /**
   * One `if err := d.Set(key, items); err != nil { return err }` of the read, as the `j`-th write
   * of ENCODE_ORDER after `j` accepted ones: a refusal ends the read with the outcome
   * `WrittenBack` describes, naming this collection and leaving the state unchanged; an
   * accepted write extends the written prefix by one collection.
   */
  method WriteStep(d: ResourceData, c: Config, j: nat, ghost prior: Config) returns (err: Option<Error>)
    requires c.WellKinded()
    requires j < |ENCODE_ORDER| && WrittenSoFar(prior, c, d.refused, d.entries, j)
    modifies d`entries
    ensures err.Some? <==> FirstRefused(d.refused, 0) == j
    ensures err.Some? ==> err == Some(SchemaError(Key(ENCODE_ORDER[j]))) && d.entries == old(d.entries)
    ensures err.Some? ==> WrittenBack(prior, c, d.refused, d.entries, err)
    ensures err.None? ==> WrittenSoFar(prior, c, d.refused, d.entries, j + 1)
  {
    var k := ENCODE_ORDER[j];
    assert AllOfKind(c.Get(k), k);
    err := d.Set(k, c.Get(k));
    if err.None? {
      OverwriteStep(prior, c, j);
    }
  }

  /** The read's six attribute writes, in ENCODE_ORDER, stopping at the first that fails. */
  method WriteEntries(d: ResourceData, c: Config) returns (err: Option<Error>)
    requires c.WellKinded()
    modifies d`entries
    ensures WrittenBack(old(d.entries), c, d.refused, d.entries, err)
    ensures err.None? ==> d.entries == c
  {
    ghost var prior := d.entries;
    OverwriteEnds(prior, c);
    assert WrittenSoFar(prior, c, d.refused, d.entries, 0);
    err := WriteStep(d, c, 0, prior);
    if err.Some? { return; }
    err := WriteStep(d, c, 1, prior);
    if err.Some? { return; }
    err := WriteStep(d, c, 2, prior);
    if err.Some? { return; }
    err := WriteStep(d, c, 3, prior);
    if err.Some? { return; }
    err := WriteStep(d, c, 4, prior);
    if err.Some? { return; }
    err := WriteStep(d, c, 5, prior);
    if err.Some? { return; }
    WrittenAll(prior, c, d.refused, d.entries);
  }

  /**
   * The entry part of a Service read over the records the API returned: an empty resource id
   * is an error; otherwise decode the records and, if that succeeds, write the six collections.
   */
  method Read<W>(d: ResourceData, conv: Converter<W>, wires: seq<W>) returns (err: Option<Error>)
    modifies d`entries
    ensures d.id == "" ==> err == Some(MissingId) && d.entries == old(d.entries)
    ensures d.id != "" && Decode(conv, wires).Err? ==>
      err == Some(Decode(conv, wires).error) && d.entries == old(d.entries)
    ensures d.id != "" && Decode(conv, wires).Ok? ==>
      WrittenBack(old(d.entries), Decode(conv, wires).value, d.refused, d.entries, err)
  {
    if d.id == "" {
      return Some(MissingId);
    }
    var decoded := ClassifyEntries(conv, wires);
    if decoded.Err? {
      return Some(decoded.error);
    }
    err := WriteEntries(d, decoded.value);
  }

  /** The call a create or update makes: the Service's id and the object sent for it. */
  datatype Request<W> = Request(id: string, service: Service<W>)

  /**
   * A create up to its API call: the Service object for the PATCH to `id`, or the conversion
   * error it returns, wrapped, before the client is called.
   */
  method Create<W>(conv: Converter<W>, conf: Config, ids: seq<string>, id: string,
                   displayName: string, description: string) returns (r: Result<Request<W>, Error>)
    requires |conf.Entries()| <= |ids|
    ensures var encoded := Encode(conv, conf, ids);
      r == match encoded.failure
           case Some(e) => Err(EntriesConversion(e))
           case None => Ok(Request(id, Service(displayName, description, encoded.records, None)))
  {
    var entries, errc := GetEntriesFromSchema(conv, conf, ids);
    if errc.Some? {
      return Err(EntriesConversion(errc.value));
    }
    return Ok(Request(id, Service(displayName, description, entries, None)));
  }

  /**
   * An update up to its API call: an empty resource id is an error, a conversion error is
   * returned wrapped, and otherwise the object carries the entries and the last-read revision.
   */
  method Update<W>(conv: Converter<W>, conf: Config, ids: seq<string>, id: string,
                   displayName: string, description: string, revision: Int64)
    returns (r: Result<Request<W>, Error>)
    requires |conf.Entries()| <= |ids|
    ensures id == "" ==> r == Err(MissingId)
    ensures id != "" ==>
      var encoded := Encode(conv, conf, ids);
      r == match encoded.failure
           case Some(e) => Err(EntriesConversion(e))
           case None => Ok(Request(id, Service(displayName, description, encoded.records, Some(revision))))
  {
    if id == "" {
      return Err(MissingId);
    }
    var entries, errc := GetEntriesFromSchema(conv, conf, ids);
    if errc.Some? {
      return Err(EntriesConversion(errc.value));
    }
    return Ok(Request(id, Service(displayName, description, entries, Some(revision))));
  }

  /**
   * A delete, given the outcome of its API call: an empty resource id is an error, and
   * otherwise the delete reports success even when the call failed, since the handled
   * error is discarded.
   */
  function Delete(id: string, deleteErr: Option<Error>): (r: Option<Error>)
    ensures id == "" ==> r == Some(MissingId)
    ensures id != "" ==> r.None?
  {
    if id == "" then Some(MissingId) else None
  }
}

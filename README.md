# Policy Service entry codec

A model of the service-entry codec of the Terraform NSX-T provider's policy Service resource
(`nsxt/resource_nsxt_policy_service.go`). The codec turns the six flat configuration
collections of a Service into the server's single list of typed service entries, and back:

- `icmp_entry`, `l4_port_set_entry`, `igmp_entry`, `ether_type_entry`, `ip_protocol_entry`
  and `algorithm_entry` are the six collections.
- **Encode** builds, for every configured element and in that collection order, a typed
  record with a fresh id and its variant's resource type. ICMP type and code are optional
  numerals, where `""` means unset. It converts the record to wire form and appends it.
  The first error ends the pass with the records built so far.
- **Decode** tries each returned record against the variants in the order ICMP, L4 port set,
  Ether type, IP protocol, ALG, IGMP. The first conversion that succeeds decides the record's
  variant. The record's fields go into a flat element, with display names filtered and ICMP
  numerals printed. The elements are grouped into six lists, keeping the order the records
  came in. The six lists are then written to the resource state one after the other, and the
  first refused write stops the read.
- **Create** and **Update** stop with "Error during Service entries conversion" when the
  encode fails, before the create PATCH or the update request is sent. Update first rejects
  an empty resource id.
- **Delete** rejects an empty resource id; otherwise it reports success even when the delete
  call fails.

Files:

- `wrappers.dfy`: `Option` and `Result`.
- `numerals.dfy`: Go's `strconv.Atoi` and `strconv.Itoa` on 64-bit integers.
- `entries.dfy`: the six variants, the flat configuration elements, the typed SDK records,
  the error values and the type converter.
- `encode.dfy`: the per-element encode and its specification on whole configurations.
- `decode.dfy`: the per-record decode, first-match classification and grouping.
- `roundtrip.dfy`: what a read shows after an encode.
- `service.dfy`: the imperative form of the resource's functions: encode loops, the read loop
  and its attribute writes, and Create and Update up to their API calls.

Foreign parts become parameters:

- The SDK type converter is a `Converter` value with two total functions.
  - `toVapi(entry, kind)` stands for `ConvertToVapi`.
  - `toGolang(record, kind)` stands for `ConvertToGolang`.
  - Wire records are a type parameter.
- The ids that `newUUID` would generate are a supplied sequence. Element i of the pass gets
  id i.
- The Terraform resource state is the class `ResourceData`. Its `refused` set stands for the
  collections whose `d.Set` the schema engine refuses.

## Model

| member | source | states |
|---|---|---|
| Numerals.Atoi | nsxt/resource_nsxt_policy_service.go:200-200 | only an optional sign followed by at least one digit, and nothing else, is accepted |
| Numerals.AtoiSignedDigits | nsxt/resource_nsxt_policy_service.go:199-211 | every optional sign followed by one or more digits is accepted exactly when its value fits in 64 bits, and then yields that value; with the contract of Atoi this fixes Atoi on every input |
| Numerals.Itoa | nsxt/resource_nsxt_policy_service.go:483-492 | the printed string starts with `-` exactly for negative values, and the digits after it denote the magnitude without a leading zero; AtoiItoa is its inverse partner |
| Numerals.NatToString | nsxt/resource_nsxt_policy_service.go:484-484 | the printed digits are nonempty, have no leading zero and denote the value |
| Numerals.AtoiItoa | nsxt/resource_nsxt_policy_service.go:483-492 | parsing the decimal string printed for any 64-bit value gives that value back |
| Numerals.CanonicalIsFixed | nsxt/resource_nsxt_policy_service.go:199-214 | a canonically printed numeral parses and reprints to itself |
| Numerals.AtoiExamples | nsxt/resource_nsxt_policy_service.go:200-200 | Atoi accepts a leading `+`, leading zeros and `-0`; it rejects the empty string, a bare sign, blanks and trailing letters |
| EntryEncoding.ParseOptional | nsxt/resource_nsxt_policy_service.go:196-214 | `""` and only `""` is unset; a non-empty string is its parsed value, or the NumError for that string when Atoi rejects it |
| EntryEncoding.FromSchema | nsxt/resource_nsxt_policy_service.go:192-383 | only an ICMP element can fail, exactly when its type or code is unparsable, with the type's error first; otherwise the record has the given id, the variant's resource type, the configured display name and description, and a body of the same variant |
| EntryEncoding.FromSchemaFields | nsxt/resource_nsxt_policy_service.go:222-372 | each variant's configured fields are copied into its body unchanged; the ALG destination port becomes a list of exactly one element |
| EntryEncoding.EncodeEntry | nsxt/resource_nsxt_policy_service.go:196-237 | an unparsable ICMP type or code fails with a NumError before the converter is called; otherwise the result is the converter's result on the typed record for the variant's binding type |
| EntryEncoding.EncodeAll | nsxt/resource_nsxt_policy_service.go:194-238 | the records built are those of a prefix of the elements, element i under id i; with no failure the prefix is every element, otherwise the next element's failure is the error |
| EntryEncoding.EncodedAsUnique | nsxt/resource_nsxt_policy_service.go:190-382 | the prefix-and-failure description determines the outcome of the pass uniquely |
| EntryEncoding.EncodedAsExtend | nsxt/resource_nsxt_policy_service.go:190-382 | a pass that failed is unaffected by elements after the failure |
| EntryEncoding.EntriesLayout | nsxt/resource_nsxt_policy_service.go:192-382 | the collections occupy consecutive blocks in the order icmp, l4, igmp, ether, ip, alg, each in its own traversal order, covering every element |
| EntryEncoding.Encode | nsxt/resource_nsxt_policy_service.go:187-383 | a successful pass returns exactly one record per configured element across all six collections; a failed one returns fewer |
| EntryEncoding.EncodeLayout | nsxt/resource_nsxt_policy_service.go:190-382 | a successful encode has one record per configured element, and element i of collection k is encoded at the start of k's block plus i |
| EntryEncoding.EncodeFailsOnInvalidNumeral | nsxt/resource_nsxt_policy_service.go:199-214 | if the converter accepts every typed record, the encode fails exactly when some ICMP element has an unparsable type or code, and the error is a NumError |
| EntryEncoding.InvalidNumeralFailsEncode | nsxt/resource_nsxt_policy_service.go:199-211 | for any converter, an unparsable ICMP type or code fails the encode at that element or an earlier one |
| EntryDecoding.FilterDisplayName | nsxt/resource_nsxt_policy_service.go:401-406 | the result is `""` exactly when the name equals the id or is empty; otherwise it is the name unchanged |
| EntryDecoding.FilterDisplayNameIdempotent | nsxt/resource_nsxt_policy_service.go:401-406 | filtering an already filtered name changes nothing |
| EntryDecoding.PrintOptional | nsxt/resource_nsxt_policy_service.go:483-492 | an unset value prints as `""`, and only an unset value does |
| EntryDecoding.ToSchema | nsxt/resource_nsxt_policy_service.go:478-537 | the flat element has the trial's variant, the filtered display name and the description; a mismatched variant, a nil id or display name, or an empty ALG destination list is a panic |
| EntryDecoding.ToSchemaFields | nsxt/resource_nsxt_policy_service.go:480-536 | ICMP type and code are printed, `""` when unset; the ALG `destination_port` is element 0 of the record's destination-port list; every other variant field is copied unchanged |
| ServiceEntries.TrialRank | nsxt/resource_nsxt_policy_service.go:476-541 | the trial order is ICMP, L4 port set, Ether type, IP protocol, ALG, IGMP |
| ServiceEntries.EncodeRank | nsxt/resource_nsxt_policy_service.go:192-382 | the encode and write-back order is ICMP, L4 port set, IGMP, Ether type, IP protocol, ALG |
| EntryDecoding.Classify | nsxt/resource_nsxt_policy_service.go:476-547 | a decoded record's variant is the first in trial order whose conversion succeeds |
| EntryDecoding.ClassifyFirstMatch | nsxt/resource_nsxt_policy_service.go:476-547 | when variant k is the first to accept a record, the record decodes as k's conversion of it |
| EntryDecoding.ClassifyNoMatch | nsxt/resource_nsxt_policy_service.go:532-541 | a record no variant accepts fails with the IGMP trial's error |
| EntryDecoding.ClassifyAll | nsxt/resource_nsxt_policy_service.go:475-547 | the read loop succeeds exactly when every record decodes, and then yields the elements pointwise; otherwise it yields the first failing record's error |
| EntryDecoding.Pick | nsxt/resource_nsxt_policy_service.go:469-547 | a variant's list holds only elements of that variant |
| EntryDecoding.PickAppend | nsxt/resource_nsxt_policy_service.go:476-547 | a decoded element is appended to its own variant's list and to no other |
| EntryDecoding.PickConcat | nsxt/resource_nsxt_policy_service.go:469-547 | appending to the variant lists distributes over concatenation of the input |
| EntryDecoding.PickOfKind | nsxt/resource_nsxt_policy_service.go:469-547 | a list of one variant is kept entirely by that variant and not at all by any other |
| EntryDecoding.PickPartitions | nsxt/resource_nsxt_policy_service.go:469-547 | the lengths of the six lists sum to the number of elements |
| EntryDecoding.Group | nsxt/resource_nsxt_policy_service.go:469-547 | each of the six lists holds only its own variant |
| EntryDecoding.DecodeRejectsUnknown | nsxt/resource_nsxt_policy_service.go:532-541 | a record no variant accepts, after records that all decoded, fails the whole decode with the IGMP trial's error |
| EntryDecoding.Decode | nsxt/resource_nsxt_policy_service.go:475-547 | the decode succeeds exactly when every record classifies; then each list holds only its own variant and the six lengths sum to the number of records |
| EntryDecoding.DecodeContents | nsxt/resource_nsxt_policy_service.go:475-547 | after a successful decode, each list is its variant's classified records in input order, and the six lists together hold exactly the classified records (equal as multisets), none lost or duplicated |
| EntryDecoding.PickMultiset | nsxt/resource_nsxt_policy_service.go:469-547 | the six variant lists picked out of the decoded elements together hold exactly those elements, each once |
| EntryDecoding.GroupMultiset | nsxt/resource_nsxt_policy_service.go:469-547 | the six grouped collections, concatenated, are a permutation of the decoded elements |
| EntryDecoding.GroupGet | nsxt/resource_nsxt_policy_service.go:469-547 | collection k of the grouping is exactly variant k's elements in their original order |
| RoundTrip.OptionalRoundTrip | nsxt/resource_nsxt_policy_service.go:483-492 | parsing the printed form of an optional ICMP value gives back the same optional value |
| RoundTrip.ReprintCanonical | nsxt/resource_nsxt_policy_service.go:483-492 | a read shows `""` and canonical numerals as configured, and any parsable numeral in canonical form |
| RoundTrip.Normalize | nsxt/resource_nsxt_policy_service.go:476-537 | the element a read shows for an encoded element has the same variant |
| RoundTrip.NormalizeStable | nsxt/resource_nsxt_policy_service.go:476-495 | an element whose name is not its id and whose ICMP numerals are canonical reads back unchanged |
| RoundTrip.EntryRoundTrip | nsxt/resource_nsxt_policy_service.go:222-495 | under a faithful converter, the wire record encoded for an element decodes to that element's normal form |
| RoundTrip.DecodeEncode | nsxt/resource_nsxt_policy_service.go:187-547 | under a faithful converter, decoding a successful encode gives the normal forms of the configured elements, grouped by variant |
| RoundTrip.PickBlock | nsxt/resource_nsxt_policy_service.go:469-547 | appending a block of one variant adds all of it to that variant's list and nothing to the others |
| RoundTrip.PickEntries | nsxt/resource_nsxt_policy_service.go:190-547 | picking variant k out of the encode order's elements gives collection k back |
| RoundTrip.GroupEntries | nsxt/resource_nsxt_policy_service.go:190-547 | grouping the encode order's elements gives the configuration back |
| RoundTrip.DecodeEncodeIdentity | nsxt/resource_nsxt_policy_service.go:187-547 | under a faithful converter, when every element is stable a read after a successful encode shows exactly the configuration |
| PolicyService.EncodeFailed | nsxt/resource_nsxt_policy_service.go:199-236 | an element that fails ends its loop and the whole pass with the records built before it |
| PolicyService.EncodeCollection | nsxt/resource_nsxt_policy_service.go:193-238 | one collection's loop extends the pass by that collection's elements; on failure its result is the whole pass's result |
| PolicyService.GetEntriesFromSchema | nsxt/resource_nsxt_policy_service.go:187-383 | the six loops return exactly the records and error of the encode specification |
| PolicyService.ClassifyEntries | nsxt/resource_nsxt_policy_service.go:466-547 | the read loop's six lists, or its error, are exactly the decode specification's |
| PolicyService.ResourceData.Set | nsxt/resource_nsxt_policy_service.go:549-552 | a write is refused exactly when its collection is refused or has the wrong shape, and then the state is unchanged; otherwise that collection, and only it, is replaced |
| PolicyService.FirstRefused | nsxt/resource_nsxt_policy_service.go:549-577 | the index in write order of the first refused collection: every earlier one is accepted |
| PolicyService.Overwrite | nsxt/resource_nsxt_policy_service.go:549-577 | after the first n writes in order, each written collection holds its new contents and every other its old |
| PolicyService.OverwriteEnds | nsxt/resource_nsxt_policy_service.go:549-579 | before any write the state is the prior one; after all six writes it is the decoded configuration, with nothing merged |
| PolicyService.WrittenAll | nsxt/resource_nsxt_policy_service.go:549-579 | once all six writes are accepted the read succeeds and the state is exactly the decoded configuration |
| PolicyService.OverwriteStep | nsxt/resource_nsxt_policy_service.go:549-577 | each write in order extends the written prefix by one collection |
| PolicyService.WriteStep | nsxt/resource_nsxt_policy_service.go:549-577 | one write of the read: it fails exactly when its collection is the first refused one, and then names that collection and leaves the state unchanged; an accepted write extends the written prefix by one collection |
| PolicyService.WriteEntries | nsxt/resource_nsxt_policy_service.go:549-579 | the collections before the first refused one are written in order, the error names the refused collection, and with no refusal the state is the decoded configuration |
| PolicyService.Read | nsxt/resource_nsxt_policy_service.go:449-579 | an empty id or a failed decode leaves the state unchanged with that error; otherwise the decoded lists are written in order until the first refusal |
| PolicyService.Create | nsxt/resource_nsxt_policy_service.go:418-430 | a failed encode returns the wrapped conversion error and sends no create PATCH; otherwise the PATCH carries the encoded records, the display name and the description |
| PolicyService.Delete | nsxt/resource_nsxt_policy_service.go:614-630 | an empty id is the "Error obtaining service id" error; with an id the delete reports success whatever the call returned |
| PolicyService.Update | nsxt/resource_nsxt_policy_service.go:586-606 | an empty id is an error; a failed encode returns the wrapped conversion error and sends no update request; otherwise the request also carries the revision |

## Left out

- The REST calls (`client.Patch`, `client.Get`, `client.Update`, `client.Delete`), `resourceNsxtPolicyServiceExists` and the error handlers: network I/O through an SDK that is not part of this model. Create and Update are modelled up to the request they would send.
- The id check of a Create (`getOrGenerateID` with `resourceNsxtPolicyServiceExists`, nsxt/resource_nsxt_policy_service.go:412-416): with a configured `nsx_id` it may query the server with `client.Get` before the encode runs. The model starts Create after that check, with the id as a parameter.
- The delete call itself: its outcome is the `deleteErr` parameter of `PolicyService.Delete`, and the error handler's result is discarded, as the source does.
- The Terraform schema declaration and its validators (`validateStringIntBetween`, `validatePortRange`, `validateSinglePort`), and `getOrGenerateID`: these are not part of this model. A Create's id is a parameter.
- The internals of the SDK type converter: foreign code. The model only assumes two total functions, and the round trip lemmas assume the `RoundTrip.Faithful` hypothesis about them.
- The randomness of `newUUID`: ids are a supplied sequence with at least one id per configured element.
- Tags (`getPolicyTagsFromSchema`, `setPolicyTagsInSchema`), logging, and the read's writes of `display_name`, `description`, `nsx_id`, `path` and `revision`. These are not part of the entry codec.
- `ConvertToVapi` and `ConvertToGolang` return a list of errors and the source keeps the first. The model returns one error, standing for that first one.
- Numerals.Atoi: syntax errors and range errors are both `None`. The `*NumError` kind is not modelled.
- EntryDecoding.ToSchema: Go's runtime panics (a failed type assertion, a nil `Id` or `DisplayName`, and `DestinationPorts[0]` on an empty list) are modelled as `Panic` error values rather than as aborts.
- A nil `Description` on a returned record is read as `""`. This is how the resource state stores a nil string pointer; the schema engine is not modelled.
- PolicyService.ResourceData.Set: the schema engine's reasons to refuse a write are abstracted as the `refused` set plus a shape check. A refused write is assumed to leave the collection unchanged.
- The configuration's sets are modelled as sequences in their traversal order. Set semantics, such as hashing and duplicates, are not modelled.
- The schema rule that an ICMP code needs an ICMP type is a validator and is not enforced.
- The model fixes Go's `int` at 64 bits, so the `int` to `int64` conversions are identities.
- Numerals.Atoi: on a 32-bit build Go's `Atoi` rejects values above 2^31-1 and `int(*IcmpType)` truncates; the model does not capture this. It makes no difference for configured values, which `validateStringIntBetween(0, 255)` at lines 56 and 62 keeps in range.

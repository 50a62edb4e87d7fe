# Flowgre, verified

Flowgre makes, validates, records, replays and relays NetFlow v9 (RFC 3954) and IPFIX (RFC 7011)
packets. This project models its packet code and its pipelines in Dafny and proves what they promise.
`dafny verify dfyconfig.toml` checks everything.

## How it is organised

- **Bytes and repetition.** `bytes.dfy`, `sums.dfy`, `wrappers.dfy`, and `codec.dfy`: reading a list of
  self-delimiting items accepts exactly the encodings of well-formed lists, for any item layout.
- **NetFlow v9.** `netflow_grammar.dfy` says what a packet is and how it is laid out;
  `netflow_counts.dfy` says how many records it may be read as; `netflow_validator.dfy` is the validator
  with its offsets, template table and deferred list, proved against the two;
  `netflow_readings.dfy`, `netflow_bytes.dfy`, `netflow_properties.dfy` and `netflow_order.dfy` say
  what the verdict comes to, without the table and on bytes, and what it depends on;
  `netflow_export.dfy` is the generator and serializer, `netflow_serialized.dfy` the round trip for
  any well-formed structure, `netflow_generated.dfy` what the validator makes of generated packets,
  and `netflow_wire.dfy` their bytes.
- **IPFIX.** `ipfix_grammar.dfy`, `ipfix_validator.dfy`, `ipfix_bytes.dfy`, `ipfix_export.dfy`,
  `ipfix_serialized.dfy`, `ipfix_generated.dfy`, `ipfix_wire.dfy`, in the same roles;
  `ipfix_reservations.dfy`: what concurrent users of a sequence counter are handed.
- **Flow records.** `flow_records.dfy`: records as a template's reader cuts them.
- **Load generation.** `barrage.dfy` and `barrage_wire.dfy`: a worker's whole run, on either protocol,
  and its packets and statistics byte by byte.
  `collector.dfy`: totals and history of the workers' statistics.
- **Pipelines.** `flow_packets.dfy` (what counts as a flow packet, the version dispatch),
  `record_store.dfy` (the recorder's database as a log that survives restarts),
  `record_pipeline.dfy`, `replay.dfy`, `proxy.dfy` with `subsequences.dfy` and `proxy_progress.dfy`:
  goroutines and bounded channels as steps, one payload in hand a goroutine, with histories of what
  passed. For each: what every run keeps, that runs end and do not get stuck, and runs that do the
  whole work. `end_to_end.dfy`: a barrage recorded, replayed and relayed.
- **Addresses.** `bits.dfy` and `ip_ranges.dfy`: byte and bit loops against intervals of numbers.

Go code that updates variables in loops is a method with loops here, and its structs with methods are
classes; one long Go function may be several methods. A Go error is a `Result` or an optional message
(messages are shortened and carry no offsets). The clock, random draws, socket outcomes and the order
in which goroutines and map iterations proceed are parameters or arbitrary choices, so the results hold
for all of them. Integers are unbounded; conversions to `uint16`, `uint32` and `uint64` counters are
written out as remainders. Hidden definitions (`hide`) only keep proofs short.

## Where the code decides

- `fieldSpecifierSize` tests the top bit of the first two bytes of a specifier, which is where
  section 3.2 of RFC 7011 puts the enterprise bit; its comment speaks of the element length
  (`ipfix/ipfix.go:535-541`). The model follows the code.
- The verdict on a NetFlow packet can depend on the order of its FlowSets when two sets redefine a
  template ID with different record sizes: `OrderCanMatter` is an example, `OrderDecides` the exact condition.
- A generated NetFlow packet whose data set holds no flows serializes but is not valid
  (`netflow/netflow.go:277-279`): `GeneratedAccepted` states exactly when a generated packet is.
- Five bounds checks of the NetFlow validator against the packet end never fail, because the set end was
  checked before (`netflow/netflow.go:164`, `:181`, `:210`, `:238`, `:252`); the reads they guard are
  proved in range.
- Without workers a replay sends nothing and finishes only if the database fits the channel (`NoWorkersEnd`).
- `RandomIPv6` can fail on a valid prefix: the library's containment test refuses results that stand for
  IPv4 addresses (`RefusesSome`).

## Model

| member | source | states |
|---|---|---|
| Codec.ManySound | netflow/netflow.go:163-199 | Reading records until too few bytes are left gives well-formed records whose encodings, with the rest, are the bytes read |
| Codec.ManyComplete | netflow/netflow.go:163-199 | The encoding of any list of well-formed records, with a short enough tail, is read back as that list and tail |
| Codec.TimesSound | netflow/netflow.go:179-191 | Reading a given number of items gives that many well-formed items, laid out as read |
| Codec.TimesComplete | netflow/netflow.go:179-191 | The encoding of well-formed items is read back whatever bytes follow |
| NetFlowGrammar.ReaderIsGrammar | netflow/netflow.go:94-305 | A byte string reads as a packet exactly when the packet is well formed and is laid out as these bytes, so reading is unique |
| NetFlowGrammar.TemplateCodes | netflow/netflow.go:160-199 | Template records are read back and only they are read: ID at least 256, no zero-length field |
| NetFlowGrammar.OptionsCodes | netflow/netflow.go:200-271 | The same for options template records with their scope and option lengths |
| NetFlowGrammar.FlowSetCodes | netflow/netflow.go:114-158 | The same for whole FlowSets: at least one record, at most 3 (options: 5) zero padding bytes, non-empty data |
| NetFlowGrammar.HeaderRoundTrip | netflow/template.go:13-20 | Every header is read back from its 20 bytes |
| NetFlowCounts.FitsIsRange | netflow/netflow.go:61-79 | The record counts a data length admits with at most three padding bytes are exactly those between two bounds: no gap |
| NetFlowCounts.ChoiceExists | netflow/netflow.go:333-356 | Some choice of admitted counts sums to a total exactly when the total lies between the summed bounds, the upper one dropped as soon as a set has no known template |
| NetFlowCounts.CountedUpTo | netflow/netflow.go:280-331 | Counting sets when met and deferred ones at the end counts every set with its own range, each once |
| NetFlowCounts.CountedDecides | netflow/netflow.go:280-356 | The closed form over met and deferred sets holds exactly when some choice of counts explains the FlowCount |
| NetFlowCounts.AllowedPermuted | netflow/netflow.go:316-331 | The totals allowed depend on which ranges there are, not on their order |
| NetFlowValidator.CountDataRecordsRange | netflow/netflow.go:61-79 | The two results bound exactly the counts that some padding of 0 to 3 bytes explains; -1 twice when there is none |
| NetFlowValidator.CountDataRecords | netflow/netflow.go:83-89 | The result is the only admitted count, or -1 exactly when there is none or more than one |
| NetFlowValidator.SumFieldLengths | netflow/netflow.go:178-191 | Succeeds exactly when no specifier has length zero, and then sums their lengths |
| NetFlowValidator.CheckTemplate | netflow/netflow.go:167-195 | One template record: refused only if the set cannot be read, else its ID, record size and end |
| NetFlowValidator.CheckTemplates | netflow/netflow.go:160-199 | The loop over a Template FlowSet succeeds exactly when the grammar reads its records, counts them and defines their sizes in order |
| NetFlowValidator.CheckOptionsRecord | netflow/netflow.go:214-265 | One options template record, likewise, its size summing scope and option fields |
| NetFlowValidator.CheckOptionsTemplates | netflow/netflow.go:200-271 | The loop over an Options Template FlowSet, likewise |
| NetFlowValidator.CheckPadding | netflow/netflow.go:299-305 | Succeeds exactly when all remaining bytes are zero |
| NetFlowValidator.CheckTemplateContent | netflow/netflow.go:154-305 | Content of a template set: accepted exactly when the grammar accepts it, with its record count and definitions |
| NetFlowValidator.CheckFlowSet | netflow/netflow.go:114-309 | One turn of the outer loop: totals, table and deferred list stay those of the sets met; a refusal means the packet cannot be accepted |
| NetFlowValidator.SettleDeferred | netflow/netflow.go:315-331 | The deferred sets are counted with the final table; unresolved ones count at least one and lift the upper bound |
| NetFlowValidator.Decision | netflow/netflow.go:333-356 | The final comparison of FlowCount with the totals accepts exactly the valid packets, whether or not data is unresolved |
| NetFlowValidator.NoZeroTotal | netflow/netflow.go:340-342 | A packet with sets can never be explained by a FlowCount of zero |
| NetFlowValidator.OneReading | netflow/netflow.go:94-110 | Acceptance is: the bytes have a reading, it has the version, and it is a valid packet |
| NetFlowValidator.IsValidNetFlow | netflow/netflow.go:94-359 | For every byte string and version: returns true exactly when the bytes lay out a well-formed packet of that version whose FlowCount some choice of record counts explains; never reads out of range and always ends |
| NetFlowProperties.WellFormedVerdict | netflow/netflow.go:94-359 | On a well-formed packet only version and counts decide |
| NetFlowProperties.PaddingDecides | netflow/netflow.go:280-356 | With all record sizes known, a well-formed packet is accepted exactly when some choice of 0 to 3 padding bytes per Data FlowSet, each leaving whole records, makes the records sum to the FlowCount |
| NetFlowReadings.TableKnowsLast | netflow/netflow.go:192 | The size the template table knows for an ID is that of its last definition, scope fields included, in template and options template sets alike; none if there is none |
| NetFlowReadings.ReadingDecides | netflow/netflow.go:94-359 | Without a template table: a well-formed packet is accepted exactly when some counts explain its FlowCount, data being whole records of the last size defined before it, else of the last in the packet, up to three bytes of padding |
| NetFlowReadings.OptionsAndData | netflow/netflow.go:200-297 | For every options template and every data for it, in either order: accepted exactly when the data is FlowCount - 1 whole records as long as scope and option fields together, up to three bytes of padding |
| NetFlowReadings.TemplateAndData | netflow/netflow.go:160-297 | The same for every template with fields |
| NetFlowBytes.AcceptedHeader | netflow/netflow.go:94-141 | Accepted bytes are at least 25, start with the version and a FlowCount that is not zero, and go on with a set of ID 0, 1 or from 256 that fits |
| NetFlowBytes.DataAlone | netflow/netflow.go:272-297 | Byte by byte, data alone: accepted exactly with version 9, a FlowCount, an ID from 256 on and at least one byte |
| NetFlowBytes.TemplateAlone | netflow/netflow.go:160-199 | Byte by byte, one template: accepted exactly with version 9, FlowCount 1, an ID from 256 on, no empty field and zero padding of less than four bytes |
| NetFlowBytes.TemplateTooLong | netflow/netflow.go:173-176 | A template with more fields than its set has bytes for is refused |
| NetFlowBytes.OptionsAlone | netflow/netflow.go:200-271 | Byte by byte, one options template, likewise, its scope and option lengths multiples of four |
| NetFlowOrder.KnownAlike | netflow/netflow.go:281-295 | Where sets leave alike, no prefix of them knows a size that counts differently from the final table's |
| NetFlowOrder.OnceLeavesAlike | netflow/netflow.go:192 | Sets that define each template ID at most once leave alike |
| NetFlowOrder.OrderDoesNotMatter | netflow/netflow.go:280-331 | Any reordering of the FlowSets keeps the verdict, if any two template sets that define an ID leave it with the same size or both with sizes no data set can hold |
| NetFlowOrder.OrderDoesNotMatterOnce | netflow/netflow.go:280-331 | Any reordering keeps the verdict if no template ID is defined twice: immediate and deferred counting come to the same |
| NetFlowOrder.OrderCanMatter | netflow/netflow.go:192 | Two packets with the same FlowSets in different order, one accepted and one not: redefinition with another size matters |
| NetFlowOrder.TellingPacket | netflow/netflow.go:280-331 | For any two template sets that do not leave alike: a data set and two orders of all sets, one accepted and one not |
| NetFlowOrder.FullCount | netflow/netflow.go:340-356 | When template records alone reach 65535, order never matters |
| NetFlowOrder.OrderDecides | netflow/netflow.go:280-356 | The exact condition, on the template sets alone: the verdict is the same for every data, header and order if and only if the sets leave alike or hold at least 65535 records |
| NetFlowProperties.UpdateTimeStamp | netflow/netflow.go:362-388 | Fails exactly on payloads shorter than the header, else yields the refreshed payload |
| NetFlowProperties.RefreshKeepsBytes | netflow/netflow.go:362-388 | A refresh sets the time field and leaves every other byte and the length as they were |
| NetFlowProperties.RefreshKeepsVerdict | netflow/netflow.go:362-388 | A refresh never changes the validator's verdict, for any payload, time and version |
| FlowRecords.PaddingFor | netflow/dataflowset.go:92-98 | Fewer than four bytes, and they reach the 32-bit boundary |
| FlowRecords.FlowsSize | netflow/dataflowset.go:86-98 | Records of one layout take as many bytes as records times record size |
| FlowRecords.FlowsReadBack | netflow/packet.go:82-87 | Records written one after the other are cut back into exactly the same fields, in order, whatever follows |
| FlowRecords.FlowAt | netflow/packet.go:82-87 | Field j of record f stands at f records and the fields before it |
| FlowRecords.DataSetBytes | netflow/packet.go:72-96 | A data set byte by byte: ID 256, its length, every field of every record in its place, zeros to a multiple of four |
| NetFlowExport.WriteTemplate | netflow/packet.go:39-59 | Appends exactly the record's layout to the buffer |
| NetFlowExport.WriteTemplateFlowSet | netflow/packet.go:29-68 | Appends a template set: header, records, padding |
| NetFlowExport.WriteDataFlowSet | netflow/packet.go:72-96 | Appends a data set: header, flow records, padding |
| NetFlowExport.ToBytes | netflow/packet.go:21-99 | The buffer is header, template sets and data sets, in that order |
| NetFlowExport.Session.NextSeq | netflow/session.go:31-33 | Advances the counter by one modulo 2^32 and returns the new value |
| NetFlowExport.GenerateHeader | netflow/template.go:41-56 | The header has version 9, the count, the uptime and second of the clock, the next number and the source, truncated to their widths |
| NetFlowExport.UptimeCounts | netflow/template.go:45 | The uptime is the whole milliseconds since the session started, plus 1000, modulo 2^32 |
| NetFlowExport.SecondsCount | netflow/template.go:41-56 | The header time is the whole seconds of the clock modulo 2^32 |
| NetFlowExport.RawTemplateSize | netflow/template.go:136-148 | The computed size is the size of the set's bytes before padding |
| NetFlowExport.DataSize | netflow/dataflowset.go:86-100 | The size is that of the set's bytes padded to 32 bits, and the padding is what that takes |
| NetFlowExport.GenerateTemplateFlowSet | netflow/template.go:107-133 | One template with ID 256 and the profile's fields, its length exact, no padding needed |
| NetFlowExport.GenerateDataFlowSet | netflow/dataflowset.go:27-69 | Fails exactly when a draw fails or the padded set passes 65535 bytes; else holds the flows drawn in order with their exact length |
| NetFlowExport.GenerateNetflow | netflow/netflow.go:18-30 | Template and data in one packet, the header counting flows plus one; a failure leaves the session's number as it was |
| NetFlowExport.GenerateDataNetflow | netflow/netflow.go:33-43 | The data-only packet, counting its flows; a failure leaves the session's number as it was |
| NetFlowExport.GenerateTemplateNetflow | netflow/netflow.go:46-53 | The template-only packet, counting one record |
| NetFlowSerialized.SerializedLayout | netflow/packet.go:21-99 | With any number of sets whose length fields and field counts are right, the bytes written are the layout of the packet they stand for |
| NetFlowSerialized.SerializedSize | netflow/packet.go:21-99 | The bytes written number the header's and the length fields of all sets together |
| NetFlowSerialized.SerializedReadsBack | netflow/packet.go:21-99 | Such a packet with well-formed sets reads back as exactly what was serialized |
| NetFlowGenerated.TemplateMatchesLayout | netflow/profile_generic.go:29-50 | For each profile, the template lists the struct's fields in order with their widths, none zero |
| NetFlowGenerated.RecordSizes | netflow/profile_extended.go:21-59 | Records take 74, 21 and 47 bytes in the generic, minimal and extended profiles, in struct and template alike |
| NetFlowGenerated.GeneratedSets | netflow/netflow.go:18-53 | Length fields and field counts of a generated packet are right, and it stands for its profile's template set and its flows |
| NetFlowGenerated.OnlyGeneratedCount | netflow/netflow.go:61-79 | For records longer than three bytes, a padded data length admits only the count it was made from |
| NetFlowGenerated.GeneratedCounts | netflow/netflow.go:18-53 | The generated counts explain the header; with the template in the packet they are the only ones the validator admits |
| NetFlowGenerated.GeneratedAccepted | netflow/netflow.go:18-53 | A generated packet is accepted exactly when it has no data set or its data set has a flow, and then reads as the sets it was made from |
| NetFlowGenerated.DrawnIsGenerated | netflow/netflow.go:18-43 | What the generator returns for any draws of a profile is a generated packet holding exactly the flows drawn |
| NetFlowGenerated.NetflowIsAccepted | netflow/netflow.go:18-30 | What GenerateNetflow returns is accepted exactly when flows were asked for, reads as what was serialized, and admits only one template and that many records |
| NetFlowGenerated.FlowCountDecides | netflow/netflow.go:333-356 | With another FlowCount in its header a generated packet is refused if it holds its template; without the template any FlowCount but zero is accepted |
| NetFlowGenerated.MostFlows | netflow/dataflowset.go:27-69 | Generating data fails exactly when a draw does or there are more than 885, 3120 or 1394 flows of the generic, minimal or extended profile |
| NetFlowWire.HeaderOnBytes | netflow/packet.go:21-27 | Version, count, uptime, second, number and source at bytes 0, 2, 4, 8, 12 and 16 |
| NetFlowWire.GeneratedOnBytes | netflow/packet.go:21-99 | Behind the header of a generated packet: a template set with ID, length, template 256 and kind and length of every field, then the data set with every field in its place, and no more |
| NetFlowWire.KindsInOrder | netflow/profile_generic.go:29-50 | The field types of each profile stand in the order of its record struct |
| NetFlowWire.FieldsAreStandard | netflow/profile_extended.go:21-39 | Every field of a template is as long as section 8 of RFC 3954 makes its type |
| NetFlowWire.KindsAreDistinct | netflow/profile_minimal.go:21-31 | No type is repeated in a template |
| NetFlowGenerated.GeneratedFlowsReadBack | netflow/dataflowset.go:27-69 | A reader of the template gets back exactly the flows put in, then the padding |
| IpfixGrammar.ReaderIsGrammar | ipfix/ipfix.go:628-722 | A byte string reads as a message exactly when the message is well formed and laid out as these bytes |
| IpfixGrammar.SpecifierCodes | ipfix/ipfix.go:536-545 | Specifiers of 4 and 8 bytes are read back and only they are read |
| IpfixGrammar.TemplateCodes | ipfix/ipfix.go:549-578 | Template records and withdrawals are read back and only they are read |
| IpfixGrammar.OptionsCodes | ipfix/ipfix.go:582-625 | Options template records, with scope counts between 1 and the field count, and withdrawals, likewise |
| IpfixGrammar.SetCodes | ipfix/ipfix.go:651-712 | Whole sets, likewise: at least one record and fewer than 4 trailing bytes in template sets, opaque data |
| IpfixGrammar.SplitIsUnique | ipfix/ipfix.go:628-722 | Two well-formed messages with the same bytes are the same: the split into sets, records and specifiers is unique |
| IpfixBytes.SpecifierTakes | ipfix/ipfix.go:536-545 | A specifier whose first byte is 128 or more takes eight bytes, any other four, with element, length and enterprise number where they are |
| IpfixBytes.SpecifiersRead | ipfix/ipfix.go:566-576 | Any number of specifiers are read exactly when they fit, each taking four or eight bytes by its first bit |
| IpfixBytes.AcceptedHeader | ipfix/ipfix.go:628-645 | Accepted bytes start with version 10 and their own number |
| IpfixBytes.HeaderAlone | ipfix/ipfix.go:718-722 | A header of 16 bytes alone is a message |
| IpfixBytes.DataAlone | ipfix/ipfix.go:650-712 | Byte by byte, one set that is no template set: accepted exactly with an ID from 256 on, whatever it holds |
| IpfixBytes.WithdrawalAlone | ipfix/ipfix.go:556-560 | A record of four bytes without fields is a withdrawal, in either kind of template set |
| IpfixBytes.TemplateAlone | ipfix/ipfix.go:549-578 | Byte by byte, one template: accepted exactly with an ID from 256 on and specifiers that fit |
| IpfixBytes.OneFieldAlone | ipfix/ipfix.go:536-578 | A template of one field with its first bit set is accepted exactly when four enterprise bytes follow |
| IpfixBytes.OptionsAlone | ipfix/ipfix.go:582-625 | Byte by byte, one options template: at least one scope field and no more than there are fields |
| IpfixValidator.SpecifierParts | ipfix/ipfix.go:536-545 | A specifier is readable exactly when the size taken from its top bit fits, and it then takes that size |
| IpfixValidator.WalkSpecifiers | ipfix/ipfix.go:566-576 | The walk succeeds exactly when all specifiers can be read, and ends where they end |
| IpfixValidator.ValidateTemplateRecord | ipfix/ipfix.go:549-578 | An error exactly when no template record can be read there, else the bytes it takes |
| IpfixValidator.ValidateOptionsTemplateRecord | ipfix/ipfix.go:582-625 | The same for options template records |
| IpfixValidator.ValidateRecords | ipfix/ipfix.go:680-710 | The record loop succeeds exactly when the grammar reads the set's records, and counts them |
| IpfixValidator.ValidateSet | ipfix/ipfix.go:650-716 | One turn of the outer loop reads exactly one set, or the message is none |
| IpfixValidator.IsValidIPFIX | ipfix/ipfix.go:628-722 | For every byte string: returns true exactly when it lays out a well-formed message; never reads out of range and always ends |
| IpfixValidator.UpdateTimeStamp | ipfix/ipfix.go:725-736 | Fails exactly on payloads shorter than the header; else a copy with four bytes replaced |
| IpfixValidator.RefreshKeepsBytes | ipfix/ipfix.go:725-736 | A refresh sets the time field and leaves every other byte and the length as they were |
| IpfixValidator.RefreshKeepsVerdict | ipfix/ipfix.go:725-736 | A refresh never changes the verdict |
| IpfixExport.WriteFields | ipfix/ipfix.go:458-461 | Appends exactly the specifiers |
| IpfixExport.WriteTemplateFlowSet | ipfix/ipfix.go:452-466 | Appends a template set's layout |
| IpfixExport.WriteOptionsTemplateFlowSet | ipfix/ipfix.go:468-482 | Appends an options template set's layout |
| IpfixExport.WriteDataFlowSet | ipfix/ipfix.go:484-493 | Appends a data set's layout |
| IpfixExport.WriteOptionsDataFlowSet | ipfix/ipfix.go:495-504 | Appends an options data set's layout |
| IpfixExport.ToBytes | ipfix/ipfix.go:448-531 | Fails exactly past 65535 bytes; else all sets in order behind a header that carries the whole length |
| IpfixExport.EstimatedSize | ipfix/ipfix.go:421-436 | The header and the length fields of all sets together |
| IpfixExport.LengthsAreSizes | ipfix/ipfix.go:421-436 | Where every length field is right, the estimate is the size of the serialized sets |
| IpfixExport.DataRecordCount | ipfix/ipfix.go:408-417 | Counts the records of data and options data sets and nothing else |
| IpfixExport.IPFIXSequence.Reserve | ipfix/ipfix.go:753-755 | Returns the counter and advances it by the record count modulo 2^32 |
| IpfixReservations.RangesAreDisjoint | ipfix/ipfix.go:741-760 | The ranges handed out to any calls share no number exactly while at most 2^32 numbers are handed out |
| IpfixReservations.RangesCover | ipfix/ipfix.go:741-760 | Every counted number is in some range handed out |
| IpfixReservations.RangeIsCounted | ipfix/ipfix.go:741-760 | Every number handed out is a counted one |
| IpfixReservations.AnyMayBeNext | ipfix/ipfix.go:753-755 | Any thread with a call left may make the next addition |
| IpfixReservations.MergedSum | ipfix/ipfix.go:753-755 | What is counted is what the threads have reserved, whatever the interleaving |
| IpfixReservations.ReserveConcurrently | ipfix/ipfix.go:741-760 | Threads with calls of their own, in any interleaving of their atomic additions and at any point of it: the numbers they have are exactly the counted ones, and no two share one exactly while at most 2^32 are reserved |
| IpfixGenerated.TemplateMatchesLayout | ipfix/profile_generic.go:32-54 | The template lists the struct's 19 fields in order with their widths |
| IpfixGenerated.LayoutSize | ipfix/ipfix.go:219-239 | A flow record takes 83 bytes |
| IpfixGenerated.GenerateTemplateFlowSet | ipfix/ipfix.go:98-127 | The template set is the constant one, length included |
| IpfixGenerated.GenerateOptionsTemplateFlowSet | ipfix/ipfix.go:147-177 | The options template set is the constant one, with one scope field |
| IpfixGenerated.GenerateOptionsDataFlowSet | ipfix/ipfix.go:193-215 | One record holding the source ID truncated to 32 bits |
| IpfixGenerated.GenerateDataFlowSet | ipfix/ipfix.go:341-394 | Succeeds exactly when no draw fails and the padded set fits 65535 bytes; then holds the flows drawn, in order |
| IpfixGenerated.MostFlows | ipfix/ipfix.go:341-394 | A data message carries up to 789 flows, with the template up to 788 |
| IpfixGenerated.SecondsCount | ipfix/ipfix.go:65-73 | The export time is the whole seconds of the clock modulo 2^32 |
| IpfixGenerated.GeneratedIsSized | ipfix/ipfix.go:421-436 | The length field of every generated set is the size of its bytes, so the estimate is exact |
| IpfixGenerated.GenerateTemplateIPFIX | ipfix/ipfix.go:764-778 | A template message carries the current count and leaves it |
| IpfixGenerated.GenerateOptionsDataIPFIX | ipfix/ipfix.go:781-791 | An options data message carries the count and advances it by one |
| IpfixGenerated.GenerateDataIPFIX | ipfix/ipfix.go:794-813 | Succeeds exactly when it can be sent; only then is its range reserved; a failure leaves the counter as it was |
| IpfixGenerated.GenerateIPFIX | ipfix/ipfix.go:816-837 | The same for a message with template and data |
| IpfixSerialized.SerializedSets | ipfix/ipfix.go:448-504 | For any number of sets of each kind with right IDs, lengths and counts, the bytes written are the layout of the sets they stand for, all well formed |
| IpfixSerialized.SerializedReadsBack | ipfix/ipfix.go:448-531 | Such a message, if it fits, is accepted and reads back as exactly what was serialized |
| IpfixGenerated.GeneratedIsWf | ipfix/ipfix.go:764-837 | Every generated message is of that kind |
| IpfixGenerated.GeneratedAccepted | ipfix/ipfix.go:628-722 | Every generated message that fits is accepted, and reads back with its number, domain and sets |
| IpfixGenerated.GeneratedFlowsReadBack | ipfix/ipfix.go:341-394 | A reader of the template gets back exactly the flows put in, then the padding |
| IpfixWire.HeaderOnBytes | ipfix/ipfix.go:448-531 | Version 10, the length of the whole, time, sequence number and domain at bytes 0, 2, 4, 8 and 12 |
| IpfixWire.TemplateSetOnBytes | ipfix/ipfix.go:98-127 | The template set byte by byte: set 2, template 256, kind and length of its 19 fields |
| IpfixWire.OptionsTemplateSetIs | ipfix/ipfix.go:147-177 | The 16 bytes of the options template set |
| IpfixWire.OptionsDataSetIs | ipfix/ipfix.go:193-215 | The options data set is for template 257 and holds the domain in four bytes |
| IpfixWire.GeneratedOnBytes | ipfix/ipfix.go:448-504 | The sets of a generated message in order and no more, the data set with every field in its place |
| IpfixWire.FieldsAreStandard | ipfix/profile_generic.go:32-54 | The elements stand in the order of the record struct, each as long as its information element or its reduced size |
| Barrage.FollowsIsValid | barrage/barrage.go:75-149 | A message in its right place of a run can be serialized and is accepted by its protocol's validator |
| Barrage.Generator.ForWorker | barrage/generator.go:66-110 | Each worker starts with counters of its own, at zero |
| Barrage.Generator.GenerateTemplate | barrage/generator.go:40-48 | The template message carries the right number and nothing but the template, and adds no data records |
| Barrage.Generator.GenerateOptionsData | barrage/generator.go:51-91 | IPFIX only: the options data message carries the right number and counts as one data record |
| Barrage.Generator.GenerateData | barrage/generator.go:56-105 | The data message carries the right number and exactly the flows drawn; a failure leaves both counters, and below 25 flows only a failed draw fails |
| Barrage.FewFlowsFit | barrage/barrage.go:130-142 | Fewer than 25 flows of any profile always fit a data set |
| Barrage.StatNext | barrage/barrage.go:125-146 | Cumulative statistics advance by one send in 64-bit arithmetic |
| Barrage.FailsIs | barrage/barrage.go:114-140 | An event ends the loop exactly if it is a cancellation, an undelivered packet, or a data tick whose draws fail |
| Barrage.Answer | barrage/barrage.go:119-134 | A message is made for an event exactly when it is a template tick or a data tick whose draws succeed; it is what the event asks for, under the right number, and a failure leaves the counters |
| Barrage.Work | barrage/barrage.go:47-150 | A whole run, for any start and any events: nothing without a socket, else templates first, then for IPFIX options data, then exactly one message an event until one fails, the last one maybe undelivered, and none after; every message carries the number of data records (NetFlow: packets) before it, is accepted, and says what its event asks; every statistic is the cumulative total |
| BarrageWire.StatsAddUp | barrage/barrage.go:125-147 | Each statistic adds up, modulo 2^64, one flow a template and the flows drawn a data packet, one cycle a data packet, and the lengths of the packets |
| BarrageWire.NetFlowOnWire | barrage/barrage.go:75-149 | Packet i of a NetFlow worker has version 9, number i + 1 and the source in its bytes |
| BarrageWire.IpfixOnWire | barrage/barrage.go:75-149 | Message i of an IPFIX worker has in its bytes the number of data records in all messages before it, its own length and the source |
| BarrageWire.NetFlowAnswers | barrage/barrage.go:75-149 | The first packet is the template, every other holds the template or exactly the flows its event drew, stamped with the second, byte by byte |
| BarrageWire.IpfixAnswers | barrage/barrage.go:75-149 | The first message holds both templates, the second the source, every other what its event asks, stamped with the second, byte by byte |
| Collector.SumRemove | stats/collector.go:78-82 | The sum over the worker map is the same whichever worker is taken first |
| Collector.SumUpdate | stats/collector.go:75-82 | Replacing one worker's figures changes the sum by the difference, so nothing is counted twice |
| Collector.TotalsAreUnique | stats/collector.go:77-82 | The totals are determined by the map, whatever its iteration order |
| Collector.TotalsAdd | stats/collector.go:77-82 | In any listing of the workers, each of the three totals adds up its own figure of every worker modulo 2^64 |
| Collector.Collector.Update | stats/collector.go:74-85 | The map has the new figures, the totals are its sums modulo 2^64, and the history gains a snapshot of both |
| Collector.Collector.AppendSnapshot | stats/collector.go:102-116 | The history becomes the most recent 300 of itself and the new snapshot |
| Collector.Collector.Run | stats/collector.go:57-116 | After n updates the history is exactly the last min(300, n) of all snapshots in order, the newest last with the present totals and map, each with its own worker map and sums |
| Collector.MapHoldsLast | stats/collector.go:75 | The map holds exactly the workers that reported, each with its last report |
| Collector.MergedIsCumulative | barrage/barrage.go:125-147 | Reports that grow worker by worker grow in whatever order the channel merges them |
| Collector.ReportsGrow | barrage/barrage.go:125-147 | What one worker reports never decreases while its counters have not wrapped |
| Collector.TotalsNeverDecrease | stats/collector.go:74-85 | Totals never decrease from a snapshot to a later one, for any workers and any merge of their reports, absent 64-bit wrap |
| FlowPackets.CheckFlow | record/record.go:195-207 | NetFlow v9 first, then IPFIX: true exactly on packets of either |
| FlowPackets.VersionOfFlow | replay/replay.go:27-32 | A flow packet's version field tells its protocol, no packet is of both, and its header is complete |
| FlowPackets.FlowByVersion | record/record.go:195-207 | The first two bytes decide: 9 and an accepted NetFlow packet, or 10 and an accepted IPFIX message, and nothing else |
| FlowPackets.UpdateTimestamp | replay/replay.go:36-46 | Refreshes by version; fails exactly when there is no refreshed form |
| FlowPackets.RefreshIsStamp | replay/replay.go:36-46 | A refresh is exactly: the same bytes but for 8 to 11 of a version 9 payload of 20 bytes or more, or 4 to 7 of a version 10 one of 16 or more, which read as the time |
| FlowPackets.RefreshKeepsFlow | replay/replay.go:36-46 | Every flow packet can be refreshed and stays a packet of the same protocol |
| RecordStore.BigEndianOrder | record/record.go:154-155 | Between 4-byte keys, byte order is numeric order |
| RecordStore.OneOrder | replay/replay.go:121 | A set of keys has one ascending visiting order |
| RecordStore.NextRecordID | record/record.go:95-122 | One more than the largest 4-byte key, 1 without any; an error exactly when the last number is taken |
| RecordStore.StoreFrom | record/record.go:144-168 | Stores payloads under consecutive keys until stopped, failing or out of numbers, with an error in exactly the latter two cases |
| RecordStore.RunDBIngest | record/record.go:124-169 | One recorder run on any database: appends after its largest key, and says when it fails |
| RecordStore.NothingOverwritten | record/record.go:154-166 | A run changes no stored record and adds as many as it wrote, whatever keys the database holds |
| RecordStore.AppendIsRead | record/record.go:154-166 | After a run the visiting order is the old one and then the new keys, and so are the payloads read |
| RecordStore.NumbersSuffice | record/record.go:163-166 | While the numbers last, runs store everything that arrives |
| RecordStore.WrittenIs | record/record.go:144-168 | What a run writes is what arrives up to the first failure or stop, as far as there are numbers |
| RecordStore.Openable | record/record.go:95-122 | Every database, whatever its keys, has exactly one visiting order and one first free number, which is what a recorder starts from |
| RecordStore.RecordRuns | record/record.go:95-169 | Over any number of restarts: consecutive keys, nothing overwritten, and reading gives the old payloads and then everything stored in order of arrival, up to exhaustion at 2^32 - 1 |
| RecordPipeline.StepKeeps | record/record.go:36-224 | Every step of listener, parser, writer, failure or cancellation keeps the account of payloads |
| RecordPipeline.RunConserves | record/record.go:230-242 | In every state of every run: stored, in hand and queued payloads, those before the parser filtered, are the flow packets received in order; counters agree; channels stay within 1024 |
| RecordPipeline.StoredIsPrefix | record/record.go:230-242 | What is stored is always a prefix of the flow packets received, and all of them once nothing is on its way |
| RecordPipeline.RunStores | record/record.go:124-169 | In every state of every run the database is what it was plus what was stored under consecutive keys, and a writer that used number 2^32 - 1 has stopped |
| RecordPipeline.RunIsRead | record/record.go:230-242 | In every state of every run, reading the database gives the old payloads and then the first flow packets received, and leaves the next recorder its first free number |
| RecordPipeline.RunsEnd | record/record.go:36-224 | No run is longer than six steps a payload received and four more |
| RecordPipeline.Progress | record/record.go:36-224 | Before cancellation some goroutine can go on by itself exactly when a payload is on its way or no number is left; after it, exactly when some goroutine has not returned |
| RecordPipeline.RestIsComplete | record/record.go:230-242 | When no goroutine can go on and nothing was cancelled, the database reads as its old payloads and then every flow packet received, in order |
| RecordPipeline.Records | record/record.go:230-242 | Whatever is received, some run stores exactly the flow packets of it, if the numbers last |
| RecordPipeline.Cancels | record/record.go:230-242 | Any run can be cancelled, and then every goroutine returns |
| RecordPipeline.SendsWait | record/record.go:231-232 | Handing a payload on waits exactly while the channel holds 1024 |
| RecordPipeline.MayFail | record/record.go:60-160 | Listening and writing may fail at any time; it ends the recorder and leaves the database as it was |
| Replay.DbReader | replay/replay.go:94-171 | Emits a copy of each record in key order: byte for byte, or if asked with the time of the moment in the four time bytes of its version and no other byte changed; an error exactly at a record that cannot be refreshed |
| Replay.FlowsEmit | replay/replay.go:127-138 | Every stored flow packet can be sent, refreshed or not, and what is sent for it is a packet of the same protocol |
| Replay.FlowsAreReadable | replay/replay.go:127-138 | A database can be replayed as it is, and refreshed if it holds flow packets |
| Replay.RecordThenReplay | replay/replay.go:94-171 | Recording over any number of restarts and replaying is the identity on payloads and order |
| Replay.StepKeeps | replay/replay.go:49-171 | Every step of reader and workers keeps the account of payloads |
| Replay.RunKeeps | replay/replay.go:177-203 | In every state of every run, cancelled or not: sent, held and queued payloads are exactly those read out, copies of the first records; with one worker in order |
| Replay.ExactlyOnce | replay/replay.go:177-203 | A run with a worker that ends without cancellation or failure has sent a copy of every record exactly once, with one worker in key order |
| Replay.RunsEnd | replay/replay.go:177-203 | No run is longer than four steps a record, one a worker and two more |
| Replay.Progress | replay/replay.go:177-203 | No deadlock: until all goroutines have returned, one can go on without failing, given a worker and records that can be sent |
| Replay.Completes | replay/replay.go:177-203 | An undisturbed run can always go on until every goroutine has returned |
| Replay.Sends | replay/replay.go:177-203 | For every readable database and any number of workers there is a run that sends every record once |
| Replay.Cancels | replay/replay.go:177-203 | Any run can be cancelled, and then every goroutine returns |
| Replay.MayFail | replay/replay.go:67-149 | A read or a send may fail at any time; it ends its goroutine and cancels the others |
| Replay.NoWorkers | replay/replay.go:178-190 | Without workers nothing is sent, and a run that ends had a database of at most 1024 records |
| Replay.NoWorkersEnd | replay/replay.go:178-190 | Without workers some undisturbed run ends exactly when the database fits the channel |
| Replay.ReadsIt | replay/replay.go:94-126 | Every database can be read by a replay, as it is or refreshed |
| Replay.RecordedSurvives | replay/replay.go:36-46 | Every payload a recorder wrote, in any state of any run of it, survives the timestamp update and stays a packet of its protocol |
| Replay.RecordedIsReadable | replay/replay.go:94-149 | A database that could be replayed can be replayed after any recorder, so Progress applies to it |
| Replay.RecordedIsSent | replay/replay.go:94-171 | What a recorder wrote, in any state of any run of it, any number of workers send exactly once, refreshed or not, with the records there were before; one worker in the order received |
| Replay.RecordedIsSentInOrder | replay/replay.go:94-171 | Unrefreshed and with one worker, what is sent is the old payloads and then what the recorder stored |
| Proxy.StepKeeps | proxy/proxy.go:61-248 | Every step of listener, parser, replicator and workers, drops included, keeps the account of every stage |
| Proxy.Relayed | proxy/proxy.go:268-310 | In every state of every run: what a target was sent and has queued is a subsequence of the flow packets received; queues hold at most 1024; valid plus invalid counts are the payloads parsed |
| Proxy.NothingElseIsLost | proxy/proxy.go:87-112 | Without drops on its own way a target has received or still awaits exactly the flow packets received, whatever other targets drop |
| Proxy.FirstAreKept | proxy/proxy.go:164-173 | A payload is dropped only at a full queue, so among the first 1024 received none is |
| ProxyProgress.RunsEnd | proxy/proxy.go:61-310 | A run takes at most three steps a target and six more for each payload received, and one a goroutine and one to cancel |
| ProxyProgress.Progress | proxy/proxy.go:61-310 | Before cancellation some goroutine can go on by itself exactly when a payload is in a hand or a queue; after it, exactly when some goroutine has not returned |
| ProxyProgress.RestIsComplete | proxy/proxy.go:87-112 | When no goroutine can go on and nothing was cancelled, a target nothing was dropped for was sent every flow packet received, in order |
| ProxyProgress.Relays | proxy/proxy.go:268-310 | Whatever is received, some run sends exactly its flow packets to every one of any number of targets |
| ProxyProgress.Cancels | proxy/proxy.go:268-310 | Any run can be cancelled, and then every goroutine returns |
| ProxyProgress.PushOrDrop | proxy/proxy.go:164-173 | The listener puts a payload into its queue below 1024 and drops it at 1024; it never waits |
| ProxyProgress.MayFail | proxy/proxy.go:66-163 | Listening and sending may fail at any time; the failure cancels the others |
| EndToEnd.BarrageIsRecorded | record/record.go:230-242 | What a barrage worker sends, once a recorder that received it is at rest, is stored whole and in order |
| EndToEnd.BarrageIsReplayed | replay/replay.go:177-203 | Replayed by one worker without a refresh, it is sent as it came |
| EndToEnd.SomeReplay | record/record.go:230-242 | From an empty database, for any barrage of fewer than 2^32 - 1 packets, some recorder and some replay send exactly its packets in order |
| EndToEnd.BarrageIsRelayed | proxy/proxy.go:268-310 | Relayed by a proxy at rest that dropped nothing on the way, it is sent to the target as it came |
| Bits.OrFills | utils/ip.go:87 | Bitwise or fills clear low bits by addition |
| Bits.AndHigh | utils/ip.go:78 | Bitwise and with a shifted mask drops the low bits and masks the rest |
| IpRanges.PrefixIsInterval | utils/ip.go:53-198 | An address is in a prefix exactly when its number is in the interval of 2^(bits - ones) numbers from the network's |
| IpRanges.NetworkIs | utils/ip.go:53-198 | An address is a network address exactly when its number is a multiple of 2^(bits - ones) |
| IpRanges.LastIsLargest | utils/ip.go:173-198 | Setting all host bits gives network + 2^(bits - ones) - 1, the largest address of the prefix |
| IpRanges.Contains | utils/ip.go:78 | The library's test: the masked bytes of the network and of the shortest form of the address agree |
| IpRanges.ContainsIsInPrefix | utils/ip.go:78 | With the network's mask that comparison is membership in the prefix |
| IpRanges.IPToNum | utils/ip.go:92-100 | 0 for no address, the last four bytes of a 16-byte one, else the first four, as a number |
| IpRanges.NumToIP | utils/ip.go:103-107 | The four bytes of a number, read back as it |
| IpRanges.GetLastIP | utils/ip.go:85-89 | First + 2^(32 - ones) - 1, with no 32-bit overflow |
| IpRanges.RandomIP | utils/ip.go:53-82 | The only address of a /32, else first plus an offset below the size less one; always in the prefix, so the guard never fails |
| IpRanges.HostMask | utils/ip.go:157-161 | The bit loop builds 2^h - 1 |
| IpRanges.RandomIPv6 | utils/ip.go:119-170 | Keeps exactly the network bits and takes exactly the host bits of the random bytes, for every prefix length; fails exactly for a network or a result that stands for an IPv4 address, or without random bytes |
| IpRanges.MixesIs | utils/ip.go:128-164 | As a number, the result is the network plus the random number modulo 2^(bits - ones) |
| IpRanges.RefusesSome | utils/ip.go:166-169 | The final test can refuse a result exactly when the prefix holds ::ffff:0:0 |
| IpRanges.MappedIs | utils/ip.go:166 | The addresses the library takes for IPv4 ones are those from 0xFFFF00000000 to 0xFFFFFFFFFFFF |
| IpRanges.GetLastIPv6 | utils/ip.go:173-198 | All host bits set: network + 2^(128 - ones) - 1 |
| IpRanges.MixesIsPrefix | utils/ip.go:128-164 | The addresses random bytes can be mixed to are exactly those of the prefix |

## Left out

- RecordThenReplay: describes recorder runs followed by one reading pass; the goroutines around the two ends are in RecordedIsSent.
- DataSize: returns the padding, which the Go method stores in the data set.
- RandomIP: starts from the parsed network; an offset draw outside the range is folded into it, since the random source yields only offsets inside.
- GetLastIP: takes IPv4 networks with a 4-byte mask; networks inside ::ffff:0:0/96, whose first four mask bytes alone it reads, are not modelled.
- Collector.Collector.Run: the mutex is not modelled; updates happen one at a time, as they do under it.
- Work: a delivered packet counts its whole length, and liveness of a stopping barrage (the statistics channel may block a worker, and a worker that does not start is still waited for) is not modelled.
- Values of flow fields: a flow record is its fields as byte strings of the struct's widths; which values are drawn does not matter to any property here.
- IPFIX minimal and extended profiles: the data generator ignores the profile (`ipfix/ipfix.go:342`), so templates and data agree only for the generic one.
- Replay in loop mode, and the database's own read errors: a non-loop pass over an intact database is modelled.
- The database engine: a map from byte strings to byte strings visited in lexicographic key order.
- Sockets, read deadlines, tickers, signals and goroutine life cycles: nondeterministic steps and a cancel flag.
- Parsing of addresses, CIDRs and targets from text; the limit on proxy targets.
- Commands, configuration, web server, authentication, dashboard, logging, and the formatting of sizes, durations and headers.

# SNMPv1 agent engine in Dafny

This project models the transport-independent SNMPv1 agent engine of the Go
package `snmp`, and proves properties of the model. The engine does four things:

- **Registry.** It keeps a registry of managed objects. Each object is an OID
  with a getter and a setter. The registry is held in strictly ascending OID
  order, and OIDs compare lexicographically, with a proper prefix first.
- **Lookup.** It finds the object for a request binding, either by exact OID
  or, for GetNext, by the smallest registered OID greater than the requested one.
- **Access control.** It checks a request's community against the read-only
  and read-write communities.
- **Processing.** It serves Get, GetNext and Set PDUs with the SNMPv1 error
  model of section 4.1 of RFC 1157. The first binding that fails aborts the
  PDU. The response then carries that binding's 1-based index and one error
  status, and the request's own bindings are returned unchanged.

Modules:

- `Oids` (`oids.dfy`): the OID type and its comparison.
- `Asn1` (`asn1.dfy`): the constants, datatypes, tag tables and
  `decodeMessage` of `asn1.go`. This covers the error-status codes, the closed
  set of binding values, the PDU and message datatypes, and the PDU and value
  tag tables.
- `Registry` (`registry.dfy`): managed objects, accessors, the registry order
  and the lookup specification `Find`.
- `Agents` (`agent.dfy`): the `Agent` class with its fields `handlers`,
  `public` and `private`, and the methods that update or read them.
  - `Step` specifies one binding on its own.
  - `FirstFailure`, `Results` and `Answer` specify the all-or-nothing response.
- `Scenarios` (`scenarios.dfy`): the package's Get, NoSuchName, error and
  community tests, plus a GetNext and a Set scenario, written as client
  methods that use only the agent's contracts.
- `Wrappers` (`wrappers.dfy`): `Option` and `Result`.

The state that the source updates in place is imperative Dafny:

- `Agent.handlers` is a `seq` field that `AddRwManagedObject` reassigns. It
  appends the new entry and then sorts (`SortRegistry`), which is modelled by swapping the
  entry towards the front.
- `GetManagedObject` and `ProcessPdu` are loops, each proved against its
  specification function (`Find` and `Answer`).

The class invariant `Valid()` says that the registry is ascending. Every
registration keeps it.

How the response and the registry are built:

- On success the code copies the request's ErrorStatus and ErrorIndex
  (`snmp.go:310`, `snmp.go:342-346`). Section 4.1.2 of RFC 1157 has a
  GetResponse carry noError and error-index 0 instead. The two agree because
  RFC 1157 requires both fields of a request to be 0.
- Registration appends and then sorts (`snmp.go:195-196`). The model does
  this by swapping the new entry towards the front.

## Model

| member | source | states |
|---|---|---|
| Oids.Cmp | snmp.go:214-216 | the OID comparison returns -1, 0 or 1, and returns 0 exactly when the OIDs are equal |
| Oids.FirstDifferenceDecides | snmp.go:214-216 | when two OIDs agree on their first k arcs and arc k of the first is smaller, the first sorts before the second |
| Oids.LessIsLexicographic | snmp.go:214-216 | one OID sorts before another exactly when it is a proper prefix of it or its first differing arc is smaller, which is lexicographic order arc by arc |
| Oids.CmpAntisymmetric | snmp.go:214-216 | swapping the operands negates the comparison |
| Oids.CmpTransitive | snmp.go:214-216 | the strict OID order is transitive |
| Oids.LessIsStrictTotalOrder | snmp.go:214-216 | the sort order used by the registry is irreflexive, asymmetric, transitive and total on distinct OIDs |
| Oids.PrefixFirst | snmp.go:221-224 | a proper prefix sorts before every OID it prefixes, so GetNext on a parent OID reaches its children |
| Asn1.ErrorStatusesAreWireValues | asn1.go:12-32 | the 19 error-status constants are exactly the wire values 0..18, in declaration order |
| Asn1.PduTag | asn1.go:140-173 | every PDU kind has a context tag below 8 |
| Asn1.PduTagsBijective | asn1.go:140-173 | the PDU tag table is injective, and with PduKindOfTag it is a bijection between the eight kinds and the tags 0..7 |
| Asn1.AsPdu | asn1.go:41-47 | exactly the six kinds other than the v1 trap and GetBulk carry the shared Pdu fields, and converting those fields back to the same kind gives the original PDU |
| Asn1.ConvertPdu | asn1.go:57-87 | a conversion to a PDU kind is defined exactly for the six shared-shape kinds, and it gives a PDU of that kind whose fields are exactly the given ones; the agent builds its Response this way |
| Asn1.ConversionPreservesFields | asn1.go:42-68 | converting a shared-shape PDU to another shared-shape kind gives that kind and keeps Id, ErrorStatus, ErrorIndex and Variables, so the converted PDU carries the original fields unchanged |
| Asn1.ValueTagsDistinct | asn1.go:174-227 | explicit value tags are distinct within their class, [APPLICATION 5] is unused, and context tags 0..2 are only the three exception markers |
| Asn1.DecodeMessage | asn1.go:235-245 | decoding succeeds exactly when the codec succeeds and leaves no bytes over; leftover bytes give a trailing-bytes error carrying their count |
| Registry.StatusOf | snmp.go:329-333 | an accessor failure that is an Error is reported with that Error's status, and any other error with GenErr |
| Registry.Less | snmp.go:214-216 | the registry's sort order compares entries by OID; of two entries with distinct OIDs exactly one sorts first, and entries with equal OIDs are not ordered |
| Registry.NotWritableSetter | snmp.go:186-190 | the default setter fails on every OID and value with status NotWritable |
| Registry.Find | snmp.go:220-231 | lookup yields the position of the first entry that answers the query (equal OID, or greater OID for get-next), and no earlier entry answers it; if it yields nothing, no entry answers |
| Registry.FindExact | snmp.go:220-231 | exact lookup finds an entry exactly when some entry has the query OID, and the entry found has that OID |
| Registry.FindNextIsSuccessor | snmp.go:221-230 | on an ascending registry, get-next lookup finds the entry with the smallest OID strictly greater than the query, and finds nothing exactly when no registered OID is greater |
| Registry.PassedQueryHasNoMatch | snmp.go:226-228 | on an ascending registry, once an entry's OID exceeds the query no later entry equals it, so stopping early there loses no match |
| Registry.SpliceAscending | snmp.go:194-196 | inserting an entry between the smaller and the greater OIDs keeps the registry ascending |
| Agents.Step | snmp.go:314-340 | one binding fails with NoSuchName when nothing resolves. When an entry resolves (the entry Find selects: equal OID, or for GetNext the first greater one), the binding fails exactly when its setter (Set) or getter (Get, GetNext) fails, with that error's status. A successful Set binding is the request binding; a successful Get or GetNext binding is the resolved entry's OID with its getter value, and for a Get that OID is the requested one |
| Agents.SortRegistry | snmp.go:195-196 | sorting the registry after an entry with a new OID is appended gives an ascending registry that is the earlier entries with the new one spliced in |
| Agents.Answer | snmp.go:304-347 | the response keeps Id and the number of bindings, and a Set keeps the bindings. An error index or status that differs from the request's points to a failing binding at a 1-based index within range, with the request's bindings returned. Bindings are replaced only for a Get or GetNext, and then the request's ErrorStatus and ErrorIndex are kept |
| Agents.FirstFailure | snmp.go:311-335 | the position found is a failing binding and every binding before it succeeds; when none is found, every binding succeeds |
| Agents.Results | snmp.go:336-340 | the collected bindings are one per request binding, in request order, each that binding's own result |
| Agents.AnswerOnFailure | snmp.go:310-335 | when binding i is the first to fail, the response is the request PDU itself with ErrorIndex i+1 and that failure's status, and Id and Variables are unchanged |
| Agents.AnswerOnSuccess | snmp.go:336-346 | when every binding succeeds, Id, ErrorStatus and ErrorIndex are the request's. A Set returns the request PDU unchanged. A Get or GetNext returns one binding per request binding, each that binding's result |
| Agents.FailureStatus | snmp.go:314-334 | when binding i is the first to fail, the response carries ErrorIndex i+1 and NoSuchName when nothing resolves. Otherwise it carries the status of the accessor's Error, or GenErr for any other error |
| Agents.ResolvedBindings | snmp.go:323-340 | a successful Get answers each binding with the requested OID, and a GetNext with the smallest registered OID greater than the requested one. Each value is the resolved object's getter value |
| Agents.Agent.constructor | snmp.go:121-126 | a new agent has an empty, ascending registry and the communities "public" and "private" |
| Agents.Agent.SetCommunities | snmp.go:138-140 | sets the read-only and the read-write community |
| Agents.Agent.CheckCommunity | snmp.go:143-157 | the check fails exactly when the community is neither the public nor the private one. When it succeeds, write access is granted exactly for the private community |
| Agents.Agent.GetManagedObject | snmp.go:220-231 | the scan, including its early stop, returns the entry Find selects, or nothing exactly when Find finds nothing |
| Agents.Agent.AddRwManagedObject | snmp.go:180-198 | fails with the registry unchanged when the getter is missing or the OID is already registered. A missing setter becomes the NotWritable setter. On success the registry is the old one with the new entry spliced in, and it stays ascending |
| Agents.Agent.AddRoManagedObject | snmp.go:160-162 | registers with the NotWritable setter, and succeeds exactly when a getter is given and the OID is new. On failure the registry is unchanged, and it stays ascending |
| Agents.Agent.ProcessPdu | snmp.go:304-347 | the loop over the bindings returns exactly the all-or-nothing Answer for the request |
| Agents.Agent.ProcessMessage | snmp.go:234-277 | there is no response exactly when the version is not 0, the community is invalid, or the PDU is not Get, GetNext or Set. A response keeps the version and community and carries a Response PDU, which is the processor's answer. A Set under the read-only community gets the request PDU with NoSuchName at index 1, whatever the registry holds |
| Scenarios.GetScenario | snmp_test.go:26-61 | a Get for registered sysUpTime.0 answers NoError with the binding sysUpTime.0 = 123 |
| Scenarios.GetNextScenario | snmp.go:253-254 | a GetNext for sysUpTime answers with its successor binding sysUpTime.0 = 123 |
| Scenarios.NoSuchNameScenario | snmp_test.go:63-93 | a Get for an unregistered OID answers NoSuchName at index 1 with the request's binding |
| Scenarios.AccessorErrorScenario | snmp_test.go:95-125 | a getter that fails with BadValue makes the response carry BadValue at index 1 |
| Scenarios.CommunityScenario | snmp_test.go:127-143 | a request under a community that is neither of the agent's gets no response |
| Scenarios.SetScenario | snmp.go:255-262 | a Set under the read-only community answers NoSuchName at index 1. Under the read-write community, the default setter makes it answer NotWritable at index 1 |

## Left out

- Agents.Agent.ProcessPdu: getters and setters are pure functions here. The model does not show that setters before the failing binding have already run and are not rolled back; only the returned PDU is all-or-nothing.
- Agents.Agent.ProcessMessage: the model does not observe accessor calls, so "a Set under the read-only community calls no setter" appears only as a response that does not depend on the registry.
- Agents.Agent.AddRwManagedObject: `sort.Sort` is modelled by `SortRegistry`, which swaps the appended entry into its place. That is what a sort does to a registry whose other entries are already ascending. A general-purpose sort is not modelled.
- BER encoding and decoding are done by an external ASN.1 library, which is not part of this model. `decodeMessage` is modelled with the codec as a parameter. `encodeMessage`, `ProcessDatagram` and the registration of choices in `Asn1Context` are left out; of the last, only its tag tables are kept as data.
- Logging is left out: `SetLogger`, the `log` and `ctx` fields, and the `Printf` calls have no effect on the results.
- Text formatting is left out: `Errorf`, `Error.Error`, `IpAddress.String` and the exception types' `String` only build text. The default setter's message is a fixed text, without the formatted OID.
- Go's `int` is unbounded here. `Counter32`, `Unsigned32`, `TimeTicks`, `Counter64` and byte values have their widths as ranges.
- The unused `typ` field of a managed object is left out. The type of a value is not checked against the object, and the source does not check it either.
- Which universal tags `Null`, `int`, `string` and `Oid` get comes from the ASN.1 library. The value table records only that they are untagged choices.
- Concurrent use of one agent is not modelled, and neither is the UDP example agent.

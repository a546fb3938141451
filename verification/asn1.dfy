/**
  Wire-level vocabulary of SNMP: error-status codes, variable-binding values,
  the PDU kinds with their context tags, the message envelope, and the
  trailing-bytes rule applied after decoding a message.
*/
module Asn1 {
  import opened Wrappers
  import opened Oids

  // Error-status codes. 0..5 are the SNMPv1 codes (section 4.1 of RFC 1157);
  // 6..18 are the SNMPv2 codes (section 3 of RFC 3416).
  const NoError := 0
  const TooBig := 1
  const NoSuchName := 2
  const BadValue := 3
  const ReadOnly := 4
  const GenErr := 5
  const NoAccess := 6
  const WrongType := 7
  const WrongLength := 8
  const WrongEncoding := 9
  const WrongValue := 10
  const NoCreation := 11
  const InconsistentValue := 12
  const ResourceUnavailable := 13
  const CommitFailed := 14
  const UndoFailed := 15
  const AuthorizationError := 16
  const NotWritable := 17
  const InconsistentName := 18

  /** The error-status codes in declaration order. */
  const ErrorStatuses: seq<int> := [
    NoError, TooBig, NoSuchName, BadValue, ReadOnly, GenErr, NoAccess,
    WrongType, WrongLength, WrongEncoding, WrongValue, NoCreation,
    InconsistentValue, ResourceUnavailable, CommitFailed, UndoFailed,
    AuthorizationError, NotWritable, InconsistentName]

  /** The codes are exactly the wire values 0..18, in order. */
  lemma ErrorStatusesAreWireValues()
    ensures |ErrorStatuses| == 19
    ensures forall i :: 0 <= i < |ErrorStatuses| ==> ErrorStatuses[i] == i
  {
  }

  newtype uint8 = x: int | 0 <= x < 0x100
  newtype uint32 = x: int | 0 <= x < 0x1_0000_0000
  newtype uint64 = x: int | 0 <= x < 0x1_0000_0000_0000_0000

  /** An IPv4 address: exactly four bytes. */
  type IPv4 = s: seq<uint8> | |s| == 4 witness [0, 0, 0, 0]

  /**
    The closed set of values a variable binding may carry: the simple
    syntax types, the application-wide types and the three exception
    markers.
  */
  datatype Value =
    | Null
    | Integer(int)
    | OctetString(string)
    | ObjectId(Oid)
    | IpAddress(IPv4)
    | Counter32(uint32)
    | Unsigned32(uint32)
    | TimeTicks(uint32)
    | Opaque(seq<uint8>)
    | Counter64(uint64)
    | NoSuchObject
    | NoSuchInstance
    | EndOfMibView

  /** A variable binding: a name and its value. */
  datatype Variable = Variable(name: Oid, value: Value)

  /** The fields shared by Get, GetNext, Response, Set, Inform and V2 trap PDUs. */
  datatype Pdu = Pdu(id: int, errorStatus: int, errorIndex: int, variables: seq<Variable>)

  /** The GetBulk PDU's fields. */
  datatype BulkPdu = BulkPdu(id: int, nonRepeaters: int, maxRepetitions: int, variables: seq<Variable>)

  /** The SNMPv1 trap PDU's fields. */
  datatype TrapPdu = TrapPdu(enterprise: Oid, agentAddr: IPv4, genericTrap: int,
                             specificTrap: int, timestamp: uint32, variables: seq<Variable>)

  /** A message's PDU: one of the eight kinds. */
  datatype PduChoice =
    | GetRequest(pdu: Pdu)
    | GetNextRequest(pdu: Pdu)
    | GetResponse(pdu: Pdu)
    | SetRequest(pdu: Pdu)
    | SnmpV1Trap(trap: TrapPdu)
    | GetBulkRequest(bulk: BulkPdu)
    | InformRequest(pdu: Pdu)
    | SnmpV2Trap(pdu: Pdu)

  /** The top-level SNMP message. */
  datatype Message = Message(version: int, community: string, pdu: PduChoice)

  datatype PduKind = Get | GetNext | Response | Set | V1Trap | GetBulk | Inform | V2Trap

  function KindOf(p: PduChoice): PduKind {
    match p
    case GetRequest(_) => Get
    case GetNextRequest(_) => GetNext
    case GetResponse(_) => Response
    case SetRequest(_) => Set
    case SnmpV1Trap(_) => V1Trap
    case GetBulkRequest(_) => GetBulk
    case InformRequest(_) => Inform
    case SnmpV2Trap(_) => V2Trap
  }

  /** The context tag under which each PDU kind is encoded. */
  function PduTag(k: PduKind): (t: nat)
    ensures t < 8
  {
    match k
    case Get => 0
    case GetNext => 1
    case Response => 2
    case Set => 3
    case V1Trap => 4
    case GetBulk => 5
    case Inform => 6
    case V2Trap => 7
  }

  /** The PDU kind a context tag selects, if any. */
  function PduKindOfTag(t: nat): Option<PduKind> {
    if t == 0 then Some(Get)
    else if t == 1 then Some(GetNext)
    else if t == 2 then Some(Response)
    else if t == 3 then Some(Set)
    else if t == 4 then Some(V1Trap)
    else if t == 5 then Some(GetBulk)
    else if t == 6 then Some(Inform)
    else if t == 7 then Some(V2Trap)
    else None
  }

  /** The PDU tag table is a bijection between the eight kinds and 0..7. */
  lemma PduTagsBijective()
    ensures forall k :: PduKindOfTag(PduTag(k)) == Some(k)
    ensures forall t: nat :: PduKindOfTag(t).Some? <==> t < 8
    ensures forall t: nat :: t < 8 ==> PduTag(PduKindOfTag(t).value) == t
    ensures forall k, k' :: PduTag(k) == PduTag(k') ==> k == k'
  {
  }

  /** The six kinds that share the generic Pdu fields. */
  predicate SharesPduShape(k: PduKind) {
    k !in {V1Trap, GetBulk}
  }

  /** The generic Pdu fields of a PDU, when it has that shape. */
  function AsPdu(p: PduChoice): (r: Option<Pdu>)
    ensures r.Some? <==> SharesPduShape(KindOf(p))
    ensures r.Some? ==> ConvertPdu(r.value, KindOf(p)) == Some(p)
  {
    match p
    case SnmpV1Trap(_) => None
    case GetBulkRequest(_) => None
    case _ => Some(p.pdu)
  }

  /** Type conversion between the shared-shape PDU kinds, e.g. Set to Response. */
  function ConvertPdu(p: Pdu, k: PduKind): (r: Option<PduChoice>)
    ensures r.Some? <==> SharesPduShape(k)
    ensures r.Some? ==> KindOf(r.value) == k && !r.value.SnmpV1Trap? && !r.value.GetBulkRequest? && r.value.pdu == p
  {
    match k
    case Get => Some(GetRequest(p))
    case GetNext => Some(GetNextRequest(p))
    case Response => Some(GetResponse(p))
    case Set => Some(SetRequest(p))
    case Inform => Some(InformRequest(p))
    case V2Trap => Some(SnmpV2Trap(p))
    case _ => None
  }

  /** Converting between shared-shape kinds keeps id, status, index and bindings. */
  lemma ConversionPreservesFields(c: PduChoice, k: PduKind)
    requires SharesPduShape(KindOf(c)) && SharesPduShape(k)
    ensures ConvertPdu(AsPdu(c).value, k).Some?
    ensures KindOf(ConvertPdu(AsPdu(c).value, k).value) == k
    ensures AsPdu(ConvertPdu(AsPdu(c).value, k).value) == AsPdu(c)
    ensures ConvertPdu(AsPdu(c).value, k).value.pdu == c.pdu
  {
  }

  /** Tag classes of the value choice table. */
  datatype TagClass = Application | ContextSpecific

  /** How a value kind is tagged: its type's own universal tag, or an explicit class and number. */
  datatype ValueTag = UniversalDefault | Tagged(tagClass: TagClass, number: nat)

  /** The value choice table. */
  function ValueTagOf(v: Value): ValueTag {
    match v
    case Null => UniversalDefault
    case Integer(_) => UniversalDefault
    case OctetString(_) => UniversalDefault
    case ObjectId(_) => UniversalDefault
    case IpAddress(_) => Tagged(Application, 0)
    case Counter32(_) => Tagged(Application, 1)
    case Unsigned32(_) => Tagged(Application, 2)
    case TimeTicks(_) => Tagged(Application, 3)
    case Opaque(_) => Tagged(Application, 4)
    case Counter64(_) => Tagged(Application, 6)
    case NoSuchObject => Tagged(ContextSpecific, 0)
    case NoSuchInstance => Tagged(ContextSpecific, 1)
    case EndOfMibView => Tagged(ContextSpecific, 2)
  }

  /** Same kind of value: same constructor, whatever the payload. */
  predicate SameKind(v: Value, w: Value) {
    match (v, w)
    case (Null, Null) => true
    case (Integer(_), Integer(_)) => true
    case (OctetString(_), OctetString(_)) => true
    case (ObjectId(_), ObjectId(_)) => true
    case (IpAddress(_), IpAddress(_)) => true
    case (Counter32(_), Counter32(_)) => true
    case (Unsigned32(_), Unsigned32(_)) => true
    case (TimeTicks(_), TimeTicks(_)) => true
    case (Opaque(_), Opaque(_)) => true
    case (Counter64(_), Counter64(_)) => true
    case (NoSuchObject, NoSuchObject) => true
    case (NoSuchInstance, NoSuchInstance) => true
    case (EndOfMibView, EndOfMibView) => true
    case _ => false
  }

  /**
    Explicit tags are distinct within their class, so an explicit tag
    determines the kind of value; [APPLICATION 5] is unused, and the
    exception markers use context tags 0..2.
  */
  lemma ValueTagsDistinct(v: Value, w: Value)
    ensures ValueTagOf(v).Tagged? && ValueTagOf(v) == ValueTagOf(w) ==> SameKind(v, w)
    ensures ValueTagOf(v) != Tagged(Application, 5)
    ensures ValueTagOf(v).Tagged? && ValueTagOf(v).tagClass == ContextSpecific ==>
              ValueTagOf(v).number <= 2 && (v.NoSuchObject? || v.NoSuchInstance? || v.EndOfMibView?)
  {
  }

  /** Why a message could not be decoded. */
  datatype DecodeError = CodecError(reason: string) | TrailingBytes(count: nat)

  /**
    The BER codec, outside this model: decodes a message from the front of
    the bytes and returns it with the bytes left over, or fails.
  */
  type Decoder = seq<uint8> -> Result<(Message, seq<uint8>), string>

  /** Decodes a whole datagram: the codec must succeed and consume every byte. */
  function DecodeMessage(decode: Decoder, data: seq<uint8>): (r: Result<Message, DecodeError>)
    ensures r.Success? <==> decode(data).Success? && decode(data).value.1 == []
    ensures r.Success? ==> r.value == decode(data).value.0
    ensures decode(data).Success? && decode(data).value.1 != [] ==>
              r == Failure(TrailingBytes(|decode(data).value.1|))
  {
    match decode(data)
    case Failure(e) => Failure(CodecError(e))
    case Success((msg, remaining)) =>
      if |remaining| > 0 then Failure(TrailingBytes(|remaining|)) else Success(msg)
  }
}

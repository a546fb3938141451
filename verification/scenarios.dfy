/**
  Client scenarios: an agent set up with communities "publ" and "priv",
  one managed object, and a single-binding request, checked against the
  agent's contracts alone.
*/
module Scenarios {
  import opened Wrappers
  import Oids
  import opened Asn1
  import opened Registry
  import opened Agents

  /** sysUpTime.0 */
  const SysUpTimeInstance: Oids.Oid := [1, 3, 6, 1, 2, 1, 1, 3, 0]

  /** sysUpTime, the parent of sysUpTime.0 */
  const SysUpTime: Oids.Oid := [1, 3, 6, 1, 2, 1, 1, 3]

  /** The request id carried by the scenario requests. */
  const RequestId := 0x7425_436c

  /** A request for one OID under the given community. */
  function Request(community: string, pdu: Pdu -> PduChoice, oid: Oids.Oid): Message {
    Message(0, community, pdu(Pdu(RequestId, NoError, 0, [Variable(oid, Null)])))
  }

  /** A fresh agent with communities "publ"/"priv" and one read-only object. */
  method SetUp(oid: Oids.Oid, getter: Getter) returns (a: Agent)
    ensures fresh(a) && a.Valid()
    ensures a.public == "publ" && a.private == "priv"
    ensures a.handlers == [ManagedObject(oid, getter, NotWritableSetter())]
  {
    a := new Agent();
    a.SetCommunities("publ", "priv");
    var err := a.AddRoManagedObject(oid, Some(getter));
    assert err.None?;
    assert a.handlers[..0] == [] && a.handlers[0..] == a.handlers;
  }

  /** A Get for a registered OID answers with its getter's value and no error. */
  method GetScenario() returns (r: Result<Message, MessageError>)
    ensures r == Success(Message(0, "publ", GetResponse(
                   Pdu(RequestId, NoError, 0, [Variable(SysUpTimeInstance, Integer(123))]))))
  {
    var a := SetUp(SysUpTimeInstance, (oid: Oids.Oid) => Success(Integer(123)));
    var request := Request("publ", (p: Pdu) => GetRequest(p), SysUpTimeInstance);
    r := a.ProcessMessage(request);
    var binding := Variable(SysUpTimeInstance, Integer(123));
    assert Step(a.handlers, request.pdu.pdu.variables[0], false, false) == Done(binding);
    AnswerOnSuccess(a.handlers, request.pdu.pdu, false, false);
    assert Answer(a.handlers, request.pdu.pdu, false, false).variables == [binding];
  }

  /** A GetNext for the parent OID answers with the registered child and its value. */
  method GetNextScenario() returns (r: Result<Message, MessageError>)
    ensures r == Success(Message(0, "publ", GetResponse(
                   Pdu(RequestId, NoError, 0, [Variable(SysUpTimeInstance, Integer(123))]))))
  {
    var a := SetUp(SysUpTimeInstance, (oid: Oids.Oid) => Success(Integer(123)));
    var request := Request("publ", (p: Pdu) => GetNextRequest(p), SysUpTime);
    Oids.PrefixFirst(SysUpTime, SysUpTimeInstance);
    r := a.ProcessMessage(request);
    var binding := Variable(SysUpTimeInstance, Integer(123));
    assert Step(a.handlers, request.pdu.pdu.variables[0], true, false) == Done(binding);
    AnswerOnSuccess(a.handlers, request.pdu.pdu, true, false);
    assert Answer(a.handlers, request.pdu.pdu, true, false).variables == [binding];
  }

  /** A Get for an OID that is not registered fails with NoSuchName at index 1. */
  method NoSuchNameScenario() returns (r: Result<Message, MessageError>)
    ensures r == Success(Message(0, "publ", GetResponse(
                   Pdu(RequestId, NoSuchName, 1, [Variable(SysUpTimeInstance, Null)]))))
  {
    var a := SetUp(SysUpTime, (oid: Oids.Oid) => Success(Integer(0)));
    var request := Request("publ", (p: Pdu) => GetRequest(p), SysUpTimeInstance);
    r := a.ProcessMessage(request);
    assert Step(a.handlers, request.pdu.pdu.variables[0], false, false) == Fail(NoSuchName);
    AnswerOnFailure(a.handlers, request.pdu.pdu, false, false, 0);
  }

  /** A getter's Error status is the response's error status. */
  method AccessorErrorScenario() returns (r: Result<Message, MessageError>)
    ensures r == Success(Message(0, "publ", GetResponse(
                   Pdu(RequestId, BadValue, 1, [Variable(SysUpTimeInstance, Null)]))))
  {
    var a := SetUp(SysUpTimeInstance, (oid: Oids.Oid) => Failure(StatusError(Error(BadValue, "error"))));
    var request := Request("publ", (p: Pdu) => GetRequest(p), SysUpTimeInstance);
    r := a.ProcessMessage(request);
    AnswerOnFailure(a.handlers, request.pdu.pdu, false, false, 0);
  }

  /** A request under a community that is neither of the agent's gets no response. */
  method CommunityScenario() returns (r: Result<Message, MessageError>)
    ensures r == Failure(InvalidCommunity("publ"))
  {
    var a := SetUp(SysUpTimeInstance, (oid: Oids.Oid) => Success(Integer(123)));
    a.SetCommunities("secret", "secret");
    r := a.ProcessMessage(Request("publ", (p: Pdu) => GetRequest(p), SysUpTimeInstance));
  }

  /**
    A Set is refused with NoSuchName at index 1 under the read-only
    community, and with NotWritable by the default setter under the
    read-write one.
  */
  method SetScenario() returns (ro: Result<Message, MessageError>, rw: Result<Message, MessageError>)
    ensures ro == Success(Message(0, "publ", GetResponse(
                    Pdu(RequestId, NoSuchName, 1, [Variable(SysUpTimeInstance, Null)]))))
    ensures rw == Success(Message(0, "priv", GetResponse(
                    Pdu(RequestId, NotWritable, 1, [Variable(SysUpTimeInstance, Null)]))))
  {
    var a := SetUp(SysUpTimeInstance, (oid: Oids.Oid) => Success(Integer(123)));
    ro := a.ProcessMessage(Request("publ", (p: Pdu) => SetRequest(p), SysUpTimeInstance));
    var request := Request("priv", (p: Pdu) => SetRequest(p), SysUpTimeInstance);
    rw := a.ProcessMessage(request);
    AnswerOnFailure(a.handlers, request.pdu.pdu, false, true, 0);
  }
}

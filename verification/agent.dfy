/**
  The SNMPv1 agent engine: community check, managed-object registration,
  lookup, the PDU processor with the SNMPv1 error model (section 4.1 of
  RFC 1157) and the message dispatcher.
*/
module Agents {
  import opened Wrappers
  import Oids
  import opened Asn1
  import opened Registry

  /** What processing one variable binding on its own yields. */
  datatype Outcome = Fail(status: int) | Done(binding: Variable)

  /**
    One binding processed on its own: resolve the managed object (exact, or
    get-next), then call its setter (for a Set) or its getter. A Get yields
    the resolved OID with the getter's value; a Set yields the binding.
  */
  function Step(hs: seq<ManagedObject>, v: Variable, next: bool, write: bool): (r: Outcome)
    ensures Find(hs, v.name, next).None? ==> r == Fail(NoSuchName)
    ensures Find(hs, v.name, next).Some? && write ==>
              var h := hs[Find(hs, v.name, next).value];
              && (r.Fail? <==> h.setter(h.oid, v.value).Some?)
              && (r.Fail? ==> r.status == StatusOf(h.setter(h.oid, v.value).value))
              && (r.Done? ==> r.binding == v)
    ensures Find(hs, v.name, next).Some? && !write ==>
              var h := hs[Find(hs, v.name, next).value];
              && (r.Fail? <==> h.getter(h.oid).Failure?)
              && (r.Fail? ==> r.status == StatusOf(h.getter(h.oid).error))
              && (r.Done? ==> r.binding == Variable(h.oid, h.getter(h.oid).value))
    ensures r.Done? && !next ==> r.binding.name == v.name
  {
    match Find(hs, v.name, next)
    case None => Fail(NoSuchName)
    case Some(k) =>
      var h := hs[k];
      if write then
        match h.setter(h.oid, v.value)
        case None => Done(v)
        case Some(e) => Fail(StatusOf(e))
      else
        match h.getter(h.oid)
        case Success(value) => Done(Variable(h.oid, value))
        case Failure(e) => Fail(StatusOf(e))
  }

  /** Position of the first binding whose step fails, if any. */
  function FirstFailure(hs: seq<ManagedObject>, vs: seq<Variable>, next: bool, write: bool): (r: Option<nat>)
    ensures r.Some? ==> r.value < |vs| && Step(hs, vs[r.value], next, write).Fail?
    ensures r.Some? ==> forall j :: 0 <= j < r.value ==> Step(hs, vs[j], next, write).Done?
    ensures r.None? ==> forall j :: 0 <= j < |vs| ==> Step(hs, vs[j], next, write).Done?
  {
    if vs == [] then None
    else if Step(hs, vs[0], next, write).Fail? then Some(0)
    else
      match FirstFailure(hs, vs[1..], next, write)
      case None => None
      case Some(k) => Some(k + 1)
  }

  /** The bindings produced when every step succeeds, in request order. */
  function Results(hs: seq<ManagedObject>, vs: seq<Variable>, next: bool, write: bool): (r: seq<Variable>)
    requires forall j :: 0 <= j < |vs| ==> Step(hs, vs[j], next, write).Done?
    ensures |r| == |vs|
    ensures forall j :: 0 <= j < |vs| ==> r[j] == Step(hs, vs[j], next, write).binding
  {
    seq(|vs|, j requires 0 <= j < |vs| => Step(hs, vs[j], next, write).binding)
  }

  /**
    The response PDU for a request PDU: on the first failing binding the
    request with that binding's 1-based index and status; otherwise the
    request, with the collected bindings in place of its own for a Get or
    GetNext.
  */
  function Answer(hs: seq<ManagedObject>, pdu: Pdu, next: bool, write: bool): (r: Pdu)
    ensures r.id == pdu.id && |r.variables| == |pdu.variables|
    ensures write ==> r.variables == pdu.variables
    ensures r.errorIndex != pdu.errorIndex || r.errorStatus != pdu.errorStatus ==>
              1 <= r.errorIndex <= |pdu.variables| && r.variables == pdu.variables &&
              Step(hs, pdu.variables[r.errorIndex - 1], next, write).Fail?
    ensures r.variables != pdu.variables ==>
              !write && r.errorIndex == pdu.errorIndex && r.errorStatus == pdu.errorStatus
  {
    match FirstFailure(hs, pdu.variables, next, write)
    case Some(i) =>
      pdu.(errorIndex := i + 1, errorStatus := Step(hs, pdu.variables[i], next, write).status)
    case None =>
      if write then pdu else pdu.(variables := Results(hs, pdu.variables, next, write))
  }

  /**
    All or nothing, failure side: when binding i is the first to fail, the
    response is the request itself, with ErrorIndex i + 1 and the failure's
    status; no partial result is returned.
  */
  lemma AnswerOnFailure(hs: seq<ManagedObject>, pdu: Pdu, next: bool, write: bool, i: nat)
    requires i < |pdu.variables| && Step(hs, pdu.variables[i], next, write).Fail?
    requires forall j :: 0 <= j < i ==> Step(hs, pdu.variables[j], next, write).Done?
    ensures Answer(hs, pdu, next, write) ==
            pdu.(errorIndex := i + 1, errorStatus := Step(hs, pdu.variables[i], next, write).status)
  {
  }

  /**
    All or nothing, success side: Id, ErrorStatus and ErrorIndex are the
    request's; a Set keeps the request's bindings, and a Get or GetNext gets
    one binding per requested one, in order, each the step's result.
  */
  lemma AnswerOnSuccess(hs: seq<ManagedObject>, pdu: Pdu, next: bool, write: bool)
    requires forall j :: 0 <= j < |pdu.variables| ==> Step(hs, pdu.variables[j], next, write).Done?
    ensures var r := Answer(hs, pdu, next, write);
            r.id == pdu.id && r.errorStatus == pdu.errorStatus && r.errorIndex == pdu.errorIndex
    ensures write ==> Answer(hs, pdu, next, write) == pdu
    ensures !write ==> |Answer(hs, pdu, next, write).variables| == |pdu.variables|
    ensures !write ==> forall j :: 0 <= j < |pdu.variables| ==>
              Answer(hs, pdu, next, write).variables[j] == Step(hs, pdu.variables[j], next, write).binding
  {
  }

  /**
    The error status of the response when binding i is the first to fail:
    NoSuchName when no managed object resolves, otherwise the status of
    the accessor's Error, or GenErr for an error that is not an Error.
  */
  lemma FailureStatus(hs: seq<ManagedObject>, pdu: Pdu, next: bool, write: bool, i: nat)
    requires i < |pdu.variables| && Step(hs, pdu.variables[i], next, write).Fail?
    requires forall j :: 0 <= j < i ==> Step(hs, pdu.variables[j], next, write).Done?
    ensures var v := pdu.variables[i];
            var r := Answer(hs, pdu, next, write);
            && r.errorIndex == i + 1
            && (Find(hs, v.name, next).None? ==> r.errorStatus == NoSuchName)
            && (Find(hs, v.name, next).Some? ==>
                  var h := hs[Find(hs, v.name, next).value];
                  var e := if write then h.setter(h.oid, v.value).value else h.getter(h.oid).error;
                  r.errorStatus == (if e.StatusError? then e.err.status else GenErr))
  {
    AnswerOnFailure(hs, pdu, next, write, i);
  }

  /**
    A successful Get or GetNext answers with the resolved OIDs: for a Get the
    requested OID itself, for a GetNext the smallest registered OID greater
    than the requested one; each value is that object's getter's value.
  */
  lemma ResolvedBindings(hs: seq<ManagedObject>, pdu: Pdu, next: bool, j: nat)
    requires Ascending(hs)
    requires forall i :: 0 <= i < |pdu.variables| ==> Step(hs, pdu.variables[i], next, false).Done?
    requires j < |pdu.variables|
    ensures j < |Answer(hs, pdu, next, false).variables|
    ensures var name := pdu.variables[j].name;
            var b := Answer(hs, pdu, next, false).variables[j];
            && (!next ==> b.name == name)
            && (next ==> Oids.Less(name, b.name))
            && (next ==> forall k :: 0 <= k < |hs| && Oids.Less(name, hs[k].oid) ==>
                           b.name == hs[k].oid || Oids.Less(b.name, hs[k].oid))
            && exists k :: 0 <= k < |hs| && hs[k].oid == b.name && hs[k].getter(b.name) == Success(b.value)
  {
    AnswerOnSuccess(hs, pdu, next, false);
    var name := pdu.variables[j].name;
    FindExact(hs, name);
    FindNextIsSuccessor(hs, name);
    var k := Find(hs, name, next).value;
    assert hs[k].oid == Answer(hs, pdu, next, false).variables[j].name;
  }

  /** Why a message gets no response. */
  datatype MessageError = BadVersion(version: int) | InvalidCommunity(community: string) | UnsupportedPdu(kind: PduKind)

  /** Why a registration is refused. */
  datatype RegistrationError = MissingGetter | AlreadyRegistered(oid: Oids.Oid)

  /** The PDU kinds an SNMPv1 agent services. */
  predicate Serviced(k: PduKind) {
    k == Get || k == GetNext || k == Set
  }

  /**
    sort.Sort on a registry whose entries before the last are already
    ascending and whose last OID is new: the last entry is swapped towards
    the front while it sorts before its neighbour. The result is ascending
    and is the earlier entries with the last one spliced in.
  */
  method SortRegistry(hs: seq<ManagedObject>) returns (s: seq<ManagedObject>)
    requires |hs| > 0 && Ascending(hs[..|hs| - 1])
    requires forall k :: 0 <= k < |hs| - 1 ==> hs[k].oid != hs[|hs| - 1].oid
    ensures Ascending(s)
    ensures exists k :: 0 <= k < |hs| && s == hs[..k] + [hs[|hs| - 1]] + hs[k..|hs| - 1]
  {
    var before, h := hs[..|hs| - 1], hs[|hs| - 1];
    s := hs;
    var j := |s| - 1;
    assert s == before[..j] + [h] + before[j..];
    while j > 0 && Less(s, j, j - 1)
      invariant 0 <= j <= |before|
      invariant s == before[..j] + [h] + before[j..]
      invariant forall i :: j <= i < |before| ==> Oids.Less(h.oid, before[i].oid)
    {
      assert s[j] == h && s[j - 1] == before[j - 1];
      s := s[j - 1 := s[j]][j := s[j - 1]];
      assert s == before[..j - 1] + [h] + before[j - 1..];
      j := j - 1;
    }
    if j > 0 {
      assert s[j] == h && s[j - 1] == before[j - 1];
      Oids.LessIsStrictTotalOrder(h.oid, before[j - 1].oid, h.oid);
    }
    SpliceAscending(before, h, j);
    assert hs[..j] == before[..j] && hs[j..|hs| - 1] == before[j..];
  }

  /** An agent: its registry, kept in ascending OID order, and its two communities. */
  class Agent {
    var handlers: seq<ManagedObject>
    var public: string
    var private: string

    ghost predicate Valid()
      reads this`handlers
    {
      Ascending(handlers)
    }

    /** A new agent: empty registry, communities "public" and "private". */
    constructor ()
      ensures Valid()
      ensures handlers == [] && public == "public" && private == "private"
    {
      handlers := [];
      public, private := "public", "private";
    }

    /** Sets the read-only and the read-write community. */
    method SetCommunities(public: string, private: string)
      modifies this`public, this`private
      ensures this.public == public && this.private == private
    {
      this.public, this.private := public, private;
    }

    /**
      Access check for a whole request: refused unless the community is one
      of the two; read-write exactly when it is the private one.
    */
    function CheckCommunity(community: string): (r: Result<bool, MessageError>)
      reads this
      ensures r.Failure? <==> community != public && community != private
      ensures r.Success? ==> (r.value <==> community == private)
      ensures r.Failure? ==> r.error == InvalidCommunity(community)
    {
      if community != public && community != private then Failure(InvalidCommunity(community))
      else Success(community == private)
    }

    /**
      Looks up a managed object: the entry with an equal OID (next = false)
      or the first entry with a greater OID (next = true). The exact scan
      stops at the first entry past the query.
    */
    method GetManagedObject(oid: Oids.Oid, next: bool) returns (r: Option<ManagedObject>)
      requires Valid()
      ensures r.None? <==> Find(handlers, oid, next).None?
      ensures r.Some? ==> r.value == handlers[Find(handlers, oid, next).value]
    {
      var i := 0;
      while i < |handlers|
        invariant 0 <= i <= |handlers|
        invariant forall j :: 0 <= j < i ==> !Matches(oid, handlers[j], next)
      {
        var h := handlers[i];
        var cmp := Oids.Cmp(oid, h.oid);
        if (!next && cmp == 0) || (next && cmp < 0) {
          return Some(h);
        }
        if !next && cmp < 0 {
          PassedQueryHasNoMatch(handlers, oid, i);
          break;
        }
        i := i + 1;
      }
      return None;
    }

    /**
      Registers a managed object. Fails, leaving the registry as it was,
      when the getter is missing or the OID is already registered; a missing
      setter becomes one that fails with NotWritable. On success the entry
      is added (appended, then the registry is sorted) and the registry
      stays ascending.
    */
    method AddRwManagedObject(oid: Oids.Oid, getter: Option<Getter>, setter: Option<Setter>)
      returns (err: Option<RegistrationError>)
      requires Valid()
      modifies this`handlers
      ensures Valid()
      ensures getter.None? ==> err == Some(MissingGetter) && handlers == old(handlers)
      ensures getter.Some? && (exists k :: 0 <= k < |old(handlers)| && old(handlers)[k].oid == oid) ==>
                err == Some(AlreadyRegistered(oid)) && handlers == old(handlers)
      ensures err.None? <==> getter.Some? && forall k :: 0 <= k < |old(handlers)| ==> old(handlers)[k].oid != oid
      ensures err.None? ==>
                var h := ManagedObject(oid, getter.value, if setter.Some? then setter.value else NotWritableSetter());
                exists k :: 0 <= k <= |old(handlers)| && handlers == old(handlers)[..k] + [h] + old(handlers)[k..]
    {
      if getter.None? {
        return Some(MissingGetter);
      }
      var write := if setter.None? then NotWritableSetter() else setter.value;
      var found := GetManagedObject(oid, false);
      FindExact(handlers, oid);
      if found.Some? {
        return Some(AlreadyRegistered(oid));
      }
      var h := ManagedObject(oid, getter.value, write);
      var before := handlers;
      assert (before + [h])[..|before|] == before;
      handlers := SortRegistry(before + [h]);
      ghost var k :| 0 <= k <= |before| && handlers == (before + [h])[..k] + [h] + (before + [h])[k..|before|];
      assert (before + [h])[..k] == before[..k] && (before + [h])[k..|before|] == before[k..];
      return None;
    }

    /** Registers a read-only managed object: AddRwManagedObject without a setter. */
    method AddRoManagedObject(oid: Oids.Oid, getter: Option<Getter>) returns (err: Option<RegistrationError>)
      requires Valid()
      modifies this`handlers
      ensures Valid()
      ensures err.None? <==> getter.Some? && forall k :: 0 <= k < |old(handlers)| ==> old(handlers)[k].oid != oid
      ensures err.Some? ==> handlers == old(handlers)
      ensures err.None? ==>
                var h := ManagedObject(oid, getter.value, NotWritableSetter());
                exists k :: 0 <= k <= |old(handlers)| && handlers == old(handlers)[..k] + [h] + old(handlers)[k..]
    {
      err := AddRwManagedObject(oid, getter, None);
    }

    /**
      Processes a request PDU's bindings in order against the registry;
      the result is Answer: all bindings' results, or the request with
      the first failure's index and status.
    */
    method ProcessPdu(pdu: Pdu, next: bool, write: bool) returns (res: Pdu)
      requires Valid()
      ensures res == Answer(handlers, pdu, next, write)
    {
      var variables: seq<Variable> := [];
      res := pdu;
      var i := 0;
      while i < |pdu.variables|
        invariant 0 <= i <= |pdu.variables|
        invariant res == pdu
        invariant forall j :: 0 <= j < i ==> Step(handlers, pdu.variables[j], next, write).Done?
        invariant !write ==> |variables| == i
        invariant !write ==> forall j :: 0 <= j < i ==> variables[j] == Step(handlers, pdu.variables[j], next, write).binding
      {
        var v := pdu.variables[i];
        var h := GetManagedObject(v.name, next);
        if h.None? {
          res := res.(errorIndex := i + 1, errorStatus := NoSuchName);
          assert Step(handlers, v, next, write) == Fail(NoSuchName);
          AnswerOnFailure(handlers, pdu, next, write, i);
          return;
        }
        var value: Value := Null;
        var err: Option<AccessorError>;
        if write {
          err := h.value.setter(h.value.oid, v.value);
        } else {
          match h.value.getter(h.value.oid) {
            case Success(x) => value, err := x, None;
            case Failure(e) => err := Some(e);
          }
        }
        if err.Some? {
          res := res.(errorIndex := i + 1);
          match err.value {
            case StatusError(e) => res := res.(errorStatus := e.status);
            case OtherError(_) => res := res.(errorStatus := GenErr);
          }
          assert Step(handlers, v, next, write) == Fail(res.errorStatus);
          AnswerOnFailure(handlers, pdu, next, write, i);
          return;
        }
        assert Step(handlers, v, next, write) == if write then Done(v) else Done(Variable(h.value.oid, value));
        if !write {
          variables := variables + [Variable(h.value.oid, value)];
        }
        i := i + 1;
      }
      AnswerOnSuccess(handlers, pdu, next, write);
      if !write {
        assert variables == Results(handlers, pdu.variables, next, write);
        res := res.(variables := variables);
      }
    }

    /**
      Handles a decoded message. No response for a version other than 0
      (SNMPv1), an unknown community, or a PDU other than Get, GetNext and
      Set. Otherwise the response is the request's envelope around a
      Response PDU: the processor's answer, or for a Set under the read-only
      community the request PDU with NoSuchName at index 1.
    */
    method ProcessMessage(request: Message) returns (r: Result<Message, MessageError>)
      requires Valid()
      ensures request.version != 0 ==> r == Failure(BadVersion(request.version))
      ensures request.version == 0 && CheckCommunity(request.community).Failure? ==>
                r == Failure(InvalidCommunity(request.community))
      ensures request.version == 0 && CheckCommunity(request.community).Success? && !Serviced(KindOf(request.pdu)) ==>
                r == Failure(UnsupportedPdu(KindOf(request.pdu)))
      ensures r.Success? <==>
                request.version == 0 && CheckCommunity(request.community).Success? && Serviced(KindOf(request.pdu))
      ensures r.Success? ==>
                r.value.version == request.version && r.value.community == request.community &&
                KindOf(r.value.pdu) == Response
      ensures r.Success? && request.pdu.GetRequest? ==>
                r.value.pdu.pdu == Answer(handlers, request.pdu.pdu, false, false)
      ensures r.Success? && request.pdu.GetNextRequest? ==>
                r.value.pdu.pdu == Answer(handlers, request.pdu.pdu, true, false)
      ensures r.Success? && request.pdu.SetRequest? && request.community == private ==>
                r.value.pdu.pdu == Answer(handlers, request.pdu.pdu, false, true)
      ensures r.Success? && request.pdu.SetRequest? && request.community != private ==>
                r.value.pdu.pdu == request.pdu.pdu.(errorIndex := 1, errorStatus := NoSuchName)
    {
      if request.version != 0 {
        return Failure(BadVersion(request.version));
      }
      var access := CheckCommunity(request.community);
      if access.Failure? {
        return Failure(access.error);
      }
      var rw := access.value;
      var res: Pdu;
      match request.pdu {
        case GetRequest(pdu) =>
          res := ProcessPdu(pdu, false, false);
        case GetNextRequest(pdu) =>
          res := ProcessPdu(pdu, true, false);
        case SetRequest(pdu) =>
          if rw {
            res := ProcessPdu(pdu, false, true);
          } else {
            res := pdu.(errorIndex := 1, errorStatus := NoSuchName);
          }
        case _ =>
          return Failure(UnsupportedPdu(KindOf(request.pdu)));
      }
      var response := ConvertPdu(res, Response);
      return Success(request.(pdu := response.value));
    }
  }
}

/**
  The managed-object registry: entries binding an OID to its accessors,
  the ascending-OID order the agent keeps them in, and the exact and
  successor lookups over that order.
*/
module Registry {
  import opened Wrappers
  import Oids
  import opened Asn1

  /** The error type accessors return to choose the response's error status. */
  datatype Error = Error(status: int, message: string)

  /** What an accessor may fail with: an Error, or any other error value. */
  datatype AccessorError = StatusError(err: Error) | OtherError(message: string)

  /** Reads a managed object's value. */
  type Getter = Oids.Oid -> Result<Value, AccessorError>

  /** Writes a managed object's value; None is success. */
  type Setter = (Oids.Oid, Value) -> Option<AccessorError>

  /**
    The error status an accessor failure is reported with: the status an
    Error carries, and GenErr for any other error.
  */
  function StatusOf(e: AccessorError): (s: int)
    ensures e.StatusError? ==> s == e.err.status
    ensures e.OtherError? ==> s == GenErr
  {
    match e
    case StatusError(err) => err.status
    case OtherError(_) => GenErr
  }

  /** The setter installed for an object registered without one. */
  function NotWritableSetter(): (s: Setter)
    ensures forall oid, v :: s(oid, v).Some? && StatusOf(s(oid, v).value) == NotWritable
  {
    (oid: Oids.Oid, v: Value) => Some(StatusError(Error(NotWritable, "OID is not writable")))
  }

  /** A registered managed object. */
  datatype ManagedObject = ManagedObject(oid: Oids.Oid, getter: Getter, setter: Setter)

  /**
    The sort order of the registry: entry i before entry j. It orders
    entries with distinct OIDs one way round and never both.
  */
  predicate Less(hs: seq<ManagedObject>, i: int, j: int): (b: bool)
    requires 0 <= i < |hs| && 0 <= j < |hs|
    ensures b ==> hs[i].oid != hs[j].oid && !Oids.Less(hs[j].oid, hs[i].oid)
    ensures !b && hs[i].oid != hs[j].oid ==> Oids.Less(hs[j].oid, hs[i].oid)
  {
    Oids.CmpAntisymmetric(hs[i].oid, hs[j].oid);
    Oids.Cmp(hs[i].oid, hs[j].oid) < 0
  }

  /** Entries in strictly ascending OID order, hence with unique OIDs. */
  ghost predicate Ascending(hs: seq<ManagedObject>) {
    forall i, j :: 0 <= i < j < |hs| ==> Less(hs, i, j)
  }

  /** Whether an entry answers a query: equal OID, or (for get-next) a greater one. */
  predicate Matches(query: Oids.Oid, h: ManagedObject, next: bool) {
    if next then Oids.Cmp(query, h.oid) < 0 else Oids.Cmp(query, h.oid) == 0
  }

  /** The position of the first entry that answers the query, if any. */
  function Find(hs: seq<ManagedObject>, query: Oids.Oid, next: bool): (r: Option<nat>)
    ensures r.Some? ==> r.value < |hs| && Matches(query, hs[r.value], next)
    ensures r.Some? ==> forall j :: 0 <= j < r.value ==> !Matches(query, hs[j], next)
    ensures r.None? ==> forall j :: 0 <= j < |hs| ==> !Matches(query, hs[j], next)
  {
    if hs == [] then None
    else if Matches(query, hs[0], next) then Some(0)
    else
      match Find(hs[1..], query, next)
      case None => None
      case Some(k) => Some(k + 1)
  }

  /** Exact lookup finds an entry iff one is registered under the query OID. */
  lemma FindExact(hs: seq<ManagedObject>, query: Oids.Oid)
    ensures Find(hs, query, false).Some? <==> exists k :: 0 <= k < |hs| && hs[k].oid == query
    ensures Find(hs, query, false).Some? ==> hs[Find(hs, query, false).value].oid == query
  {
  }

  /**
    On an ascending registry, get-next lookup finds the entry with the
    smallest OID strictly greater than the query, and finds nothing iff
    no registered OID is greater.
  */
  lemma FindNextIsSuccessor(hs: seq<ManagedObject>, query: Oids.Oid)
    requires Ascending(hs)
    ensures Find(hs, query, true).Some? <==> exists k :: 0 <= k < |hs| && Oids.Less(query, hs[k].oid)
    ensures Find(hs, query, true).Some? ==>
              var s := hs[Find(hs, query, true).value].oid;
              Oids.Less(query, s) &&
              forall k :: 0 <= k < |hs| && Oids.Less(query, hs[k].oid) ==> s == hs[k].oid || Oids.Less(s, hs[k].oid)
  {
    if Find(hs, query, true).Some? {
      var i := Find(hs, query, true).value;
      forall k | 0 <= k < |hs|
        ensures Oids.Less(query, hs[k].oid) ==> hs[i].oid == hs[k].oid || Oids.Less(hs[i].oid, hs[k].oid)
      {
        if k < i {
          assert !Matches(query, hs[k], true);
        } else if i < k {
          assert Less(hs, i, k);
        }
      }
    } else {
      forall k | 0 <= k < |hs|
        ensures !Oids.Less(query, hs[k].oid)
      {
        assert !Matches(query, hs[k], true);
      }
    }
  }

  /**
    On an ascending registry, once an entry's OID exceeds the query no later
    entry can equal it: exact lookup may stop there.
  */
  lemma {:induction false} PassedQueryHasNoMatch(hs: seq<ManagedObject>, query: Oids.Oid, i: nat)
    requires Ascending(hs)
    requires i < |hs| && Oids.Cmp(query, hs[i].oid) < 0
    ensures forall j :: i <= j < |hs| ==> !Matches(query, hs[j], false)
  {
    forall j | i <= j < |hs|
      ensures Oids.Cmp(query, hs[j].oid) < 0
    {
      if i < j {
        assert Less(hs, i, j);
        Oids.CmpTransitive(query, hs[i].oid, hs[j].oid);
      }
    }
  }

  /**
    Splicing an entry into an ascending registry at the position that
    separates smaller from greater OIDs keeps it ascending.
  */
  lemma SpliceAscending(hs: seq<ManagedObject>, h: ManagedObject, k: nat)
    requires Ascending(hs) && k <= |hs|
    requires k > 0 ==> Oids.Less(hs[k - 1].oid, h.oid)
    requires forall i :: k <= i < |hs| ==> Oids.Less(h.oid, hs[i].oid)
    ensures Ascending(hs[..k] + [h] + hs[k..])
  {
    var s := hs[..k] + [h] + hs[k..];
    forall i, j | 0 <= i < j < |s|
      ensures Less(s, i, j)
    {
      if j < k {
        assert Less(hs, i, j);
      } else if j == k {
        if i < k - 1 {
          assert Less(hs, i, k - 1);
          Oids.CmpTransitive(hs[i].oid, hs[k - 1].oid, h.oid);
        }
      } else if i < k {
        assert s[j] == hs[j - 1];
        if i < k - 1 {
          assert Less(hs, i, k - 1);
          Oids.CmpTransitive(hs[i].oid, hs[k - 1].oid, h.oid);
        }
        Oids.CmpTransitive(hs[i].oid, h.oid, hs[j - 1].oid);
      } else if i > k {
        assert Less(hs, i - 1, j - 1);
      }
    }
  }
}

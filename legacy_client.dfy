/**
 * The legacy DNS client (package `omglol`). The list endpoint is read in its
 * string-shaped form, every id and TTL a decimal string, and converted into
 * canonical records; get-by-id and verify-then-delete are built on that list.
 */
module LegacyClient {
  import opened Wrappers
  import opened Decimal
  import opened Records
  import opened Api

  /** The credentials the provider configuration hands to every call. */
  datatype Auth = Auth(username: string, apiKey: string)

  /** A record as the list endpoint writes it (`dnsRecordIdStr`): every field a string. */
  datatype WireRecord = WireRecord(
    id: string,
    rtype: string,
    name: string,
    data: string,
    ttl: string,
    createdAt: string,
    updatedAt: string)

  /** The decoded body of a list reply: `{"response": {"message": ..., "dns": [...]}}`. */
  datatype ListEnvelope = ListEnvelope(message: string, dns: seq<WireRecord>)

  /** The canonical record for one listed entry, or None when its id or TTL does not parse. */
  function Canonical(w: WireRecord): Option<Record>
  {
    match Atoi(w.id)
    case None => None
    case Some(id) =>
      match Atoi(w.ttl)
      case None => None
      case Some(ttl) => Some(Record(id, w.rtype, w.name, w.data, ttl, w.createdAt, w.updatedAt))
  }

  /**
   * An entry converts exactly when both its id and its TTL parse; the id and
   * TTL are then the parsed numbers and every other field is copied unchanged.
   */
  lemma CanonicalFields(w: WireRecord)
    ensures Canonical(w).Some? <==> Atoi(w.id).Some? && Atoi(w.ttl).Some?
    ensures Canonical(w).Some? ==> Canonical(w).value.id == Atoi(w.id).value && Canonical(w).value.ttl == Atoi(w.ttl).value
    ensures Canonical(w).Some? ==> Canonical(w).value.rtype == w.rtype && Canonical(w).value.name == w.name
    ensures Canonical(w).Some? ==> Canonical(w).value.data == w.data
    ensures Canonical(w).Some? ==> Canonical(w).value.createdAt == w.createdAt && Canonical(w).value.updatedAt == w.updatedAt
  {
  }

  /**
   * What the conversion loop of getRecords yields: the canonical records of the
   * entries up to, and not including, the first one that does not parse.
   */
  function Converted(dns: seq<WireRecord>): seq<Record>
  {
    if dns == [] then []
    else match Canonical(dns[0])
      case None => []
      case Some(r) => [r] + Converted(dns[1..])
  }

  /**
   * Converted is the longest parsable prefix, in the listed order: every
   * record in it is the canonical form of the entry at the same index, and
   * the entry right after it, if any, does not parse.
   */
  lemma {:induction false} ConvertedIsParsedPrefix(dns: seq<WireRecord>)
    ensures |Converted(dns)| <= |dns|
    ensures forall k :: 0 <= k < |Converted(dns)| ==> Canonical(dns[k]) == Some(Converted(dns)[k])
    ensures |Converted(dns)| < |dns| ==> Canonical(dns[|Converted(dns)|]).None?
  {
    if dns != [] && Canonical(dns[0]).Some? {
      var tail := dns[1..];
      ConvertedIsParsedPrefix(tail);
      var c := Converted(dns);
      assert c == [Canonical(dns[0]).value] + Converted(tail);
      forall k | 1 <= k < |c|
        ensures Canonical(dns[k]) == Some(c[k])
      {
        assert dns[k] == tail[k - 1] && c[k] == Converted(tail)[k - 1];
      }
      assert |c| < |dns| ==> dns[|c|] == tail[|c| - 1];
    }
  }

  /** When every entry parses, nothing is dropped and the order is kept. */
  lemma ConvertedKeepsAll(dns: seq<WireRecord>)
    requires forall k :: 0 <= k < |dns| ==> Canonical(dns[k]).Some?
    ensures |Converted(dns)| == |dns|
    ensures forall k :: 0 <= k < |dns| ==> Converted(dns)[k] == Canonical(dns[k]).value
  {
    ConvertedIsParsedPrefix(dns);
  }

  /**
   * An entry that does not parse ends the list silently: only the records
   * before it are returned.
   */
  lemma ConvertedStopsAtFirstFailure(dns: seq<WireRecord>, j: nat)
    requires j < |dns| && Canonical(dns[j]).None?
    requires forall k :: 0 <= k < j ==> Canonical(dns[k]).Some?
    ensures |Converted(dns)| == j
    ensures Converted(dns) == Converted(dns[..j])
  {
    ConvertedIsParsedPrefix(dns);
    ConvertedIsParsedPrefix(dns[..j]);
    assert forall k :: 0 <= k < j ==> dns[..j][k] == dns[k];
  }

  /**
   * The pair getRecords returns for a list reply. A transport, read or decode
   * error comes back with no records; otherwise the error is nil, even when
   * an entry failed to parse, because the loop returns the decode error
   * variable, nil at that point, instead of the parse error.
   */
  function Listed(reply: Reply<ListEnvelope>): (r: (seq<Record>, Option<Error>))
    ensures r.1.None? <==> Received(reply).Success?
    ensures r.1.Some? ==> r.0 == [] && r.1 == Some(Received(reply).error)
    ensures r.1.None? ==> r.0 == Converted(Received(reply).value.dns)
  {
    match Received(reply)
    case Failure(e) => ([], Some(e))
    case Success(envelope) => (Converted(envelope.dns), None)
  }

  /** The record the server sends back, written the way the list endpoint writes it. */
  function ToWire(r: Record): WireRecord
  {
    WireRecord(Itoa(r.id), r.rtype, r.name, r.data, Itoa(r.ttl), r.createdAt, r.updatedAt)
  }

  /** A listing written out in the string-shaped form. */
  function ToWires(rs: seq<Record>): (dns: seq<WireRecord>)
    ensures |dns| == |rs|
  {
    if rs == [] then [] else [ToWire(rs[0])] + ToWires(rs[1..])
  }

  /** Each record written in the string-shaped form converts back to itself. */
  lemma CanonicalToWire(r: Record)
    ensures Canonical(ToWire(r)) == Some(r)
  {
    AtoiItoa(r.id);
    AtoiItoa(r.ttl);
  }

  /**
   * A listing in the string-shaped form converts back to exactly the records
   * it was written from: the string form and the integer form of the same
   * records agree.
   */
  lemma {:induction false} ConvertedToWires(rs: seq<Record>)
    ensures Converted(ToWires(rs)) == rs
  {
    if rs != [] {
      CanonicalToWire(rs[0]);
      assert ToWires(rs)[0] == ToWire(rs[0]) && ToWires(rs)[1..] == ToWires(rs[1..]);
      ConvertedToWires(rs[1..]);
    }
  }

  /** getRecords: one GET of the collection, then the conversion loop. */
  method GetRecords(a: Auth, reply: Reply<ListEnvelope>)
    returns (sent: seq<Request>, records: seq<Record>, err: Option<Error>)
    ensures sent == [ListRequest(a.username, a.apiKey)]
    ensures records == Listed(reply).0 && err == Listed(reply).1
  {
    sent := [ListRequest(a.username, a.apiKey)];
    records := [];
    match Received(reply)
    case Failure(e) =>
      err := Some(e);
      return;
    case Success(output) =>
      err := None;
      var dns := output.dns;
      var i := 0;
      while i < |dns|
        invariant 0 <= i <= |dns|
        invariant Converted(dns) == records + Converted(dns[i..])
      {
        assert dns[i..][0] == dns[i] && dns[i..][1..] == dns[i + 1..];
        var record := dns[i];
        var id := Atoi(record.id);
        if id.None? {
          assert Converted(dns[i..]) == [];
          assert records + [] == records;
          return;
        }
        var ttl := Atoi(record.ttl);
        if ttl.None? {
          assert Converted(dns[i..]) == [];
          assert records + [] == records;
          return;
        }
        var canonical := Record(id.value, record.rtype, record.name, record.data, ttl.value,
                                record.createdAt, record.updatedAt);
        records := records + [canonical];
        i := i + 1;
      }
      assert dns[i..] == [];
      assert records + [] == records;
  }

  /**
   * getRecord: get-by-id emulated by listing and searching. The first listed
   * record with the id is returned; a miss gives the zero record and a
   * not-found error; a list error is passed on unchanged.
   */
  method GetRecord(a: Auth, id: int, reply: Reply<ListEnvelope>)
    returns (sent: seq<Request>, record: Record, err: Option<Error>)
    ensures sent == [ListRequest(a.username, a.apiKey)]
    ensures Listed(reply).1.Some? ==> record == ZeroRecord && err == Listed(reply).1
    ensures Listed(reply).1.None? ==>
              var rs := Listed(reply).0;
              if IndexOfId(rs, id) < |rs| then record == rs[IndexOfId(rs, id)] && err == None
              else record == ZeroRecord && err == Some(RecordNotFound(id))
  {
    var records, listErr;
    sent, records, listErr := GetRecords(a, reply);
    if listErr.Some? {
      return sent, ZeroRecord, listErr;
    }
    var i := 0;
    while i < |records|
      invariant 0 <= i <= |records|
      invariant forall j :: 0 <= j < i ==> records[j].id != id
    {
      if records[i].id == id {
        return sent, records[i], None;
      }
      i := i + 1;
    }
    return sent, ZeroRecord, Some(RecordNotFound(id));
  }

  /**
   * createRecord: POST the record, omitting its zero fields. A reply it does
   * not accept leaves the record as it was and returns the error (the reply
   * body for a status of 400 or more); an accepted one overwrites the id, and
   * only the id, with the one the server assigned.
   */
  method CreateRecord(a: Auth, record: Record, reply: Reply<CreateEnvelope>)
    returns (sent: seq<Request>, created: Record, err: Option<Error>)
    ensures sent == [CreateRequest(a.username, a.apiKey, record)]
    ensures err.None? <==> CreateAccepted(reply)
    ensures err.None? ==> created == record.(id := AssignedId(reply))
    ensures err.Some? ==> created == record && err.value == CreateError(reply)
    ensures reply.Answer? && IsErrorStatus(reply.status) ==> err == Some(ErrorReply(Creating, reply.body))
  {
    sent := [CreateRequest(a.username, a.apiKey, record)];
    created := record;
    match reply
    case NoReply(reason) =>
      err := Some(TransportError(reason));
    case Answer(status, body) =>
      if status >= 400 {
        err := Some(ErrorReply(Creating, body));
        return;
      }
      match Received(reply)
      case Failure(e) =>
        err := Some(e);
      case Success(output) =>
        created := created.(id := output.data.id);
        err := None;
  }

  /**
   * doDeleteRecord: the outcome of one DELETE of `/address/{username}/dns/{id}`
   * (the request is `DeleteRequest`). It fails exactly when the exchange
   * fails or the status is 400 or more, and then carries the reply body.
   */
  function DoDeleteRecord(reply: Reply<()>): (err: Option<Error>)
    ensures err.None? <==> reply.Answer? && !IsErrorStatus(reply.status)
    ensures reply.Answer? && IsErrorStatus(reply.status) ==> err == Some(ErrorReply(Deleting, reply.body))
  {
    match reply
    case NoReply(reason) => Some(TransportError(reason))
    case Answer(status, body) => if status >= 400 then Some(ErrorReply(Deleting, body)) else None
  }

  /** The outcome of the k-th DELETE deleteRecord issues, given the replies it gets. */
  function DeleteOutcomes(deleteReply: nat -> Reply<()>): nat -> Option<Error>
  {
    (k: nat) => DoDeleteRecord(deleteReply(k))
  }

  /**
   * The delete loop of deleteRecord over the listed records: one DELETE per
   * record with the id, stopping at the first that fails.
   */
  method DeleteListed(a: Auth, id: int, records: seq<Record>, deleteReply: nat -> Reply<()>)
    returns (sent: seq<Request>, err: Option<Error>)
    ensures forall j :: 0 <= j < |sent| ==> sent[j] == DeleteRequest(a.username, a.apiKey, id)
    ensures (|sent|, err) == DeleteRun(DeleteOutcomes(deleteReply), 0, CountId(records, id))
  {
    var matches := CountId(records, id);
    var outcome := DeleteOutcomes(deleteReply);
    sent := [];
    var i := 0;
    while i < |records|
      invariant 0 <= i <= |records|
      invariant |sent| == CountId(records[..i], id) <= matches
      invariant forall j :: 0 <= j < |sent| ==> sent[j] == DeleteRequest(a.username, a.apiKey, id)
      invariant DeleteRun(outcome, 0, matches) == DeleteRun(outcome, |sent|, matches)
    {
      CountIdStep(records, i, id);
      CountIdPrefix(records, i + 1, id);
      if records[i].id == id {
        var reply := deleteReply(|sent|);
        var subErr := DoDeleteRecord(reply);
        assert outcome(|sent|) == subErr;
        sent := sent + [DeleteRequest(a.username, a.apiKey, id)];
        if subErr.Some? {
          return sent, subErr;
        }
      }
      i := i + 1;
    }
    assert records[..i] == records;
    err := None;
  }

  /**
   * deleteRecord: verify by listing, then delete every listed record with the
   * id. A list error is returned before any DELETE; an id that is not listed
   * issues no DELETE and returns nil.
   */
  method DeleteRecord(a: Auth, id: int, listing: Reply<ListEnvelope>, deleteReply: nat -> Reply<()>)
    returns (sent: seq<Request>, err: Option<Error>)
    ensures |sent| >= 1 && sent[0] == ListRequest(a.username, a.apiKey)
    ensures forall j :: 1 <= j < |sent| ==> sent[j] == DeleteRequest(a.username, a.apiKey, id)
    ensures Listed(listing).1.Some? ==> |sent| == 1 && err == Listed(listing).1
    ensures Listed(listing).1.None? ==>
              (|sent| - 1, err) == DeleteRun(DeleteOutcomes(deleteReply), 0, CountId(Listed(listing).0, id))
    ensures Listed(listing).1.None? && IndexOfId(Listed(listing).0, id) == |Listed(listing).0| ==>
              |sent| == 1 && err == None
  {
    var records;
    sent, records, err := GetRecords(a, listing);
    if err.Some? {
      return;
    }
    var deletes;
    deletes, err := DeleteListed(a, id, records, deleteReply);
    sent := sent + deletes;
    CountIdZero(records, id);
  }
}

/**
 * The newer DNS client (package `internal/omglol`): the same operations as
 * the legacy one on a `Client` value that holds the credentials, with the
 * list endpoint read in its integer-shaped form and no per-record conversion.
 */
module OmglolClient {
  import opened Wrappers
  import opened Records
  import opened Api

  /** The decoded body of a list reply, records with integer id and TTL. */
  datatype Listing = Listing(message: string, dns: seq<Record>)

  /** NewClient: never fails, and keeps both credentials exactly as given. */
  function NewClient(username: string, apiKey: string): (r: (Client, Option<Error>))
    ensures r.1 == None
    ensures r.0.username == username && r.0.apiKey == apiKey
  {
    (Client(username, apiKey), None)
  }

  /** A client value; it is never changed after NewClient builds it. */
  datatype Client = Client(username: string, apiKey: string)
  {
    /**
     * getRecords: the decoded list exactly as the server sent it, or the
     * transport, read or decode error with no records. The status is not
     * looked at: any reply that decodes is a list.
     */
    function GetRecords(reply: Reply<Listing>): (r: (seq<Record>, Option<Error>))
      ensures r.1.None? <==> Received(reply).Success?
      ensures r.1.None? ==> r.0 == Received(reply).value.dns
      ensures r.1.Some? ==> r.0 == [] && r.1 == Some(Received(reply).error)
    {
      match Received(reply)
      case Failure(e) => ([], Some(e))
      case Success(output) => (output.dns, None)
    }

    /**
     * GetRecord: always one list request; the first listed record with the
     * id, else the zero record with a not-found error; a list error is passed
     * on unchanged.
     */
    method GetRecord(id: int, reply: Reply<Listing>)
      returns (sent: seq<Request>, record: Record, err: Option<Error>)
      ensures sent == [ListRequest(username, apiKey)]
      ensures GetRecords(reply).1.Some? ==> record == ZeroRecord && err == GetRecords(reply).1
      ensures GetRecords(reply).1.None? ==>
                var rs := GetRecords(reply).0;
                if IndexOfId(rs, id) < |rs| then record == rs[IndexOfId(rs, id)] && err == None
                else record == ZeroRecord && err == Some(RecordNotFound(id))
    {
      sent := [ListRequest(username, apiKey)];
      var (records, listErr) := GetRecords(reply);
      if listErr.Some? {
        return sent, ZeroRecord, listErr;
      }
      var i := 0;
      while i < |records|
        invariant 0 <= i <= |records|
        invariant forall j :: 0 <= j < i ==> records[j].id != id
      {
        if id == records[i].id {
          return sent, records[i], None;
        }
        i := i + 1;
      }
      return sent, ZeroRecord, Some(RecordNotFound(id));
    }

    /**
     * CreateRecord: POST the record, omitting its zero fields. A reply it
     * does not accept leaves the record as it was and returns the error (the
     * reply body for a status of 400 or more); an accepted one overwrites the
     * id, and only the id, with the one the server assigned.
     */
    method CreateRecord(record: Record, reply: Reply<CreateEnvelope>)
      returns (sent: seq<Request>, created: Record, err: Option<Error>)
      ensures sent == [CreateRequest(username, apiKey, record)]
      ensures err.None? <==> CreateAccepted(reply)
      ensures err.None? ==> created == record.(id := AssignedId(reply))
      ensures err.Some? ==> created == record && err.value == CreateError(reply)
      ensures reply.Answer? && IsErrorStatus(reply.status) ==> err == Some(ErrorReply(Creating, reply.body))
    {
      sent := [CreateRequest(username, apiKey, record)];
      created := record;
      match reply
      case NoReply(reason) =>
        err := Some(TransportError(reason));
      case Answer(status, body) =>
        if status >= 400 {
          err := Some(ErrorReply(Creating, body));
          return;
        }
        match Received(reply)
        case Failure(e) =>
          err := Some(e);
        case Success(output) =>
          created := created.(id := output.data.id);
          err := None;
    }

    /**
     * doDeleteRecord: the outcome of one DELETE of `/address/{username}/dns/{id}`
     * (the request is `DeleteRequest`). It fails exactly when the exchange
     * fails or the status is 400 or more, and then carries the reply body.
     */
    function DoDeleteRecord(reply: Reply<()>): (err: Option<Error>)
      ensures err.None? <==> reply.Answer? && !IsErrorStatus(reply.status)
      ensures reply.Answer? && IsErrorStatus(reply.status) ==> err == Some(ErrorReply(Deleting, reply.body))
    {
      match reply
      case NoReply(reason) => Some(TransportError(reason))
      case Answer(status, body) => if status >= 400 then Some(ErrorReply(Deleting, body)) else None
    }

    /** The outcome of the k-th DELETE deleteRecord issues, given the replies it gets. */
    function DeleteOutcomes(deleteReply: nat -> Reply<()>): nat -> Option<Error>
    {
      (k: nat) => DoDeleteRecord(deleteReply(k))
    }

    /**
     * The delete loop of deleteRecord over the listed records: one DELETE per
     * record with the id, stopping at the first that fails.
     */
    method DeleteListed(id: int, records: seq<Record>, deleteReply: nat -> Reply<()>)
      returns (sent: seq<Request>, err: Option<Error>)
      ensures forall j :: 0 <= j < |sent| ==> sent[j] == DeleteRequest(username, apiKey, id)
      ensures (|sent|, err) == DeleteRun(DeleteOutcomes(deleteReply), 0, CountId(records, id))
    {
      var matches := CountId(records, id);
      var outcome := DeleteOutcomes(deleteReply);
      sent := [];
      var i := 0;
      while i < |records|
        invariant 0 <= i <= |records|
        invariant |sent| == CountId(records[..i], id) <= matches
        invariant forall j :: 0 <= j < |sent| ==> sent[j] == DeleteRequest(username, apiKey, id)
        invariant DeleteRun(outcome, 0, matches) == DeleteRun(outcome, |sent|, matches)
      {
        CountIdStep(records, i, id);
        CountIdPrefix(records, i + 1, id);
        if records[i].id == id {
          var reply := deleteReply(|sent|);
          var subErr := DoDeleteRecord(reply);
          assert outcome(|sent|) == subErr;
          sent := sent + [DeleteRequest(username, apiKey, id)];
          if subErr.Some? {
            return sent, subErr;
          }
        }
        i := i + 1;
      }
      assert records[..i] == records;
      err := None;
    }

    /**
     * deleteRecord: verify by listing, then delete every listed record with
     * the id. A list error is returned before any DELETE; an id that is not
     * listed issues no DELETE and returns nil.
     */
    method DeleteRecord(id: int, listing: Reply<Listing>, deleteReply: nat -> Reply<()>)
      returns (sent: seq<Request>, err: Option<Error>)
      ensures |sent| >= 1 && sent[0] == ListRequest(username, apiKey)
      ensures forall j :: 1 <= j < |sent| ==> sent[j] == DeleteRequest(username, apiKey, id)
      ensures GetRecords(listing).1.Some? ==> |sent| == 1 && err == GetRecords(listing).1
      ensures GetRecords(listing).1.None? ==>
                (|sent| - 1, err) == DeleteRun(DeleteOutcomes(deleteReply), 0, CountId(GetRecords(listing).0, id))
      ensures GetRecords(listing).1.None? && IndexOfId(GetRecords(listing).0, id) == |GetRecords(listing).0| ==>
                |sent| == 1 && err == None
    {
      sent := [ListRequest(username, apiKey)];
      var (records, listErr) := GetRecords(listing);
      if listErr.Some? {
        return sent, listErr;
      }
      var deletes;
      deletes, err := DeleteListed(id, records, deleteReply);
      sent := sent + deletes;
      CountIdZero(records, id);
    }
  }
}

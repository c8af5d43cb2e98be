/**
 * A server that answers truthfully, its DNS records held as a sequence.
 * Against it the two clients see the same records, verify-then-delete
 * issues one DELETE per record with the id and returns nil, a created record
 * is then found by its id, and a deleted one is not.
 */
module Server {
  import opened Wrappers
  import opened Decimal
  import opened Records
  import opened Api
  import LegacyClient
  import OmglolClient

  /** The list reply the newer client decodes: ids and TTLs as JSON numbers. */
  function ListReply(records: seq<Record>): Reply<OmglolClient.Listing>
  {
    Answer(200, Readable("", Envelope(OmglolClient.Listing("ok", records))))
  }

  /** The list reply the legacy client decodes: ids and TTLs as decimal strings. */
  function LegacyListReply(records: seq<Record>): Reply<LegacyClient.ListEnvelope>
  {
    Answer(200, Readable("", Envelope(LegacyClient.ListEnvelope("ok", LegacyClient.ToWires(records)))))
  }

  /** The reply to every DELETE: accepted. */
  function Accepting(k: nat): Reply<()>
  {
    Answer(200, Readable("", Envelope(())))
  }

  /** Both clients list exactly the server's records, in the server's order. */
  lemma ListingsAgree(c: OmglolClient.Client, records: seq<Record>)
    ensures c.GetRecords(ListReply(records)) == (records, None)
    ensures LegacyClient.Listed(LegacyListReply(records)) == (records, None)
  {
    LegacyClient.ConvertedToWires(records);
  }

  /**
   * With every DELETE accepted, both clients issue one DELETE per record
   * holding the id, none when there is no such record, and return nil.
   */
  lemma AcceptedDeletes(c: OmglolClient.Client, records: seq<Record>, id: int)
    ensures DeleteRun(c.DeleteOutcomes(Accepting), 0, CountId(records, id)) == (CountId(records, id), None)
    ensures DeleteRun(LegacyClient.DeleteOutcomes(Accepting), 0, CountId(records, id)) == (CountId(records, id), None)
    ensures IndexOfId(records, id) == |records| ==> CountId(records, id) == 0
  {
    var outcome := c.DeleteOutcomes(Accepting);
    var legacyOutcome := LegacyClient.DeleteOutcomes(Accepting);
    forall j: nat
      ensures outcome(j).None? && legacyOutcome(j).None?
    {
      assert outcome(j) == c.DoDeleteRecord(Accepting(j));
      assert legacyOutcome(j) == LegacyClient.DoDeleteRecord(Accepting(j));
    }
    DeleteRunAllSucceed(outcome, 0, CountId(records, id));
    DeleteRunAllSucceed(legacyOutcome, 0, CountId(records, id));
    CountIdZero(records, id);
  }

  // ----- a server whose records change -----

  /**
   * A POST to the collection: the server decodes the payload, stores it under
   * the fresh id `n` and answers with the stored record; a payload it cannot
   * read is refused with status 400 and nothing is stored.
   */
  function Post(server: seq<Record>, request: Request, n: Int64): (seq<Record>, Reply<CreateEnvelope>)
  {
    match if request.payload.Some? then Unmarshal(request.payload.value) else None
    case None => (server, Answer(400, Readable("invalid record", Malformed("invalid record"))))
    case Some(r) =>
      var stored := r.(id := n);
      (server + [stored], Answer(200, Readable("", Envelope(CreateEnvelope(stored)))))
  }

  /** The records left once every record with the id is deleted, in their order. */
  function Without(server: seq<Record>, id: int): seq<Record>
  {
    if server == [] then []
    else
      var last := server[|server| - 1];
      Without(server[..|server| - 1], id) + (if last.id == id then [] else [last])
  }

  /** Deleting drops exactly the records with the id: none is left, and the count adds up. */
  lemma {:induction false} WithoutDropsId(server: seq<Record>, id: int)
    ensures forall j :: 0 <= j < |Without(server, id)| ==> Without(server, id)[j].id != id
    ensures |Without(server, id)| + CountId(server, id) == |server|
  {
    if server != [] {
      var init := server[..|server| - 1];
      WithoutDropsId(init, id);
      assert server[..|server|][..|server| - 1] == init;
    }
  }

  /** When no record holds the id, the first record with it is the one appended. */
  lemma IndexOfIdAppended(server: seq<Record>, r: Record)
    requires IndexOfId(server, r.id) == |server|
    ensures IndexOfId(server + [r], r.id) == |server|
  {
    assert (server + [r])[|server|] == r;
  }

  /**
   * With the legacy client: a record created on a server where no record has
   * the id `n` gets `n`, and a following get-by-id returns exactly it.
   */
  method LegacyCreateThenGet(a: LegacyClient.Auth, server: seq<Record>, record: Record, n: Int64)
    returns (created: Record, createErr: Option<Error>, fetched: Record, err: Option<Error>)
    requires IndexOfId(server, n) == |server|
    ensures createErr == None && created == record.(id := n)
    ensures err == None && fetched == created
  {
    var request := CreateRequest(a.username, a.apiKey, record);
    MarshalRoundTrip(record);
    var (after, reply) := Post(server, request, n);
    var sent;
    sent, created, createErr := LegacyClient.CreateRecord(a, record, reply);
    IndexOfIdAppended(server, record.(id := n));
    LegacyClient.ConvertedToWires(after);
    sent, fetched, err := LegacyClient.GetRecord(a, n, LegacyListReply(after));
  }

  /** The same with the newer client. */
  method CreateThenGet(c: OmglolClient.Client, server: seq<Record>, record: Record, n: Int64)
    returns (after: seq<Record>, created: Record, createErr: Option<Error>, fetched: Record, err: Option<Error>)
    requires IndexOfId(server, n) == |server|
    ensures createErr == None && created == record.(id := n) && after == server + [created]
    ensures err == None && fetched == created
  {
    var request := CreateRequest(c.username, c.apiKey, record);
    MarshalRoundTrip(record);
    var posted := Post(server, request, n);
    var reply := posted.1;
    after := posted.0;
    var sent;
    sent, created, createErr := c.CreateRecord(record, reply);
    IndexOfIdAppended(server, record.(id := n));
    sent, fetched, err := c.GetRecord(n, ListReply(after));
  }

  /**
   * With the legacy client: deleting an id issues one DELETE per record with
   * it and returns nil; once the server has dropped them, get-by-id reports
   * the id not found.
   */
  method LegacyDeleteThenGet(a: LegacyClient.Auth, server: seq<Record>, id: Int64)
    returns (deletes: nat, deleteErr: Option<Error>, fetched: Record, err: Option<Error>)
    ensures deleteErr == None && deletes == CountId(server, id)
    ensures fetched == ZeroRecord && err == Some(RecordNotFound(id))
  {
    var c := OmglolClient.Client(a.username, a.apiKey);
    ListingsAgree(c, server);
    AcceptedDeletes(c, server, id);
    var sent;
    sent, deleteErr := LegacyClient.DeleteRecord(a, id, LegacyListReply(server), Accepting);
    deletes := |sent| - 1;
    var after := Without(server, id);
    WithoutDropsId(server, id);
    CountIdZero(after, id);
    ListingsAgree(c, after);
    sent, fetched, err := LegacyClient.GetRecord(a, id, LegacyListReply(after));
  }

  /** The same with the newer client. */
  method DeleteThenGet(c: OmglolClient.Client, server: seq<Record>, id: Int64)
    returns (deletes: nat, deleteErr: Option<Error>, fetched: Record, err: Option<Error>)
    ensures deleteErr == None && deletes == CountId(server, id)
    ensures fetched == ZeroRecord && err == Some(RecordNotFound(id))
  {
    AcceptedDeletes(c, server, id);
    var sent;
    sent, deleteErr := c.DeleteRecord(id, ListReply(server), Accepting);
    deletes := |sent| - 1;
    var after := Without(server, id);
    WithoutDropsId(server, id);
    CountIdZero(after, id);
    sent, fetched, err := c.GetRecord(id, ListReply(after));
  }

  /**
   * A create the server refuses with a status of 400 or more leaves the
   * record as it was and returns the reply body as the error.
   */
  method RejectedCreate(c: OmglolClient.Client, record: Record, status: int, body: string)
    returns (created: Record, err: Option<Error>)
    requires status >= 400
    ensures created == record && err == Some(ApiError(Creating, body))
  {
    var sent;
    sent, created, err := c.CreateRecord(record, Answer(status, Readable(body, Malformed("not an envelope"))));
  }

  /**
   * The life of one record with the newer client: `{A, test, 1.2.3.4, 3600}`
   * is created where id 42 is free and gets 42; get-by-id 42 returns its four
   * fields with id 42; deleting 42 issues one DELETE and returns nil; get-by-id
   * 42 then reports it not found.
   */
  method RecordLifecycle(c: OmglolClient.Client, server: seq<Record>)
    returns (fetched: Record, deletes: nat, deleteErr: Option<Error>, err: Option<Error>)
    requires IndexOfId(server, 42) == |server|
    ensures fetched == Record(42, "A", "test", "1.2.3.4", 3600, "", "")
    ensures deletes == 1 && deleteErr == None
    ensures err == Some(RecordNotFound(42))
  {
    var record := Record(0, "A", "test", "1.2.3.4", 3600, "", "");
    var after, created, createErr, getErr, gone;
    after, created, createErr, fetched, getErr := CreateThenGet(c, server, record, 42);
    CountIdZero(server, 42);
    assert after[..|after| - 1] == server;
    deletes, deleteErr, gone, err := DeleteThenGet(c, after, 42);
  }
}

/**
 * The legacy `omglol_dns` resource (omglol/resource_dns.go). Its id is the
 * record's id written in decimal; Read and Delete parse it back.
 */
module LegacyResource {
  import opened Wrappers
  import opened Decimal
  import opened Records
  import opened Api
  import opened LegacyClient
  import opened Sdk
  import LegacyDataSource

  /** The schema default of `ttl`, in seconds. */
  const DefaultTtl: Int64 := 3600

  /**
   * recordFromData: a record with the configured name, type and data, the
   * configured TTL or the default, and no id or timestamps.
   */
  function RecordFromData(c: Config): (r: Record)
    ensures r.id == 0 && r.createdAt == "" && r.updatedAt == ""
    ensures r.name == c.name && r.rtype == c.rtype && r.data == c.data
    ensures c.ttl.None? ==> r.ttl == DefaultTtl
    ensures c.ttl.Some? ==> r.ttl == c.ttl.value
  {
    Record(0, c.rtype, c.name, c.data, if c.ttl.Some? then c.ttl.value else DefaultTtl, "", "")
  }

  /**
   * The create payload of a configured resource never carries an id, carries
   * the TTL unless it is 0 (the default 3600 when none is configured), and
   * reads back as the same record.
   */
  lemma CreatePayload(c: Config)
    ensures Lookup(Marshal(RecordFromData(c)), IdTag) == None
    ensures c.ttl.None? ==> Lookup(Marshal(RecordFromData(c)), TtlTag) == Some(JNumber(3600))
    ensures c.ttl.Some? && c.ttl.value != 0 ==> Lookup(Marshal(RecordFromData(c)), TtlTag) == Some(JNumber(c.ttl.value))
    ensures c.ttl == Some(0) ==> Lookup(Marshal(RecordFromData(c)), TtlTag) == None
    ensures Unmarshal(Marshal(RecordFromData(c))) == Some(RecordFromData(c))
  {
    var r := RecordFromData(c);
    MarshalMembers(r, IdTag);
    MarshalMembers(r, TtlTag);
    MarshalRoundTrip(r);
  }

  /**
   * resourceDnsCreate: create the configured record. On success the id is
   * the decimal string of the assigned id, which parses back to it; on
   * failure the error is returned and the id is left unset.
   */
  method Create(d: ResourceData, a: Auth, reply: Reply<CreateEnvelope>)
    returns (sent: seq<Request>, err: Option<Error>)
    modifies d`id
    ensures sent == [CreateRequest(a.username, a.apiKey, RecordFromData(d.config))]
    ensures err.None? <==> CreateAccepted(reply)
    ensures err.Some? ==> err.value == CreateError(reply) && d.id == old(d.id)
    ensures err.None? ==> d.id == Itoa(AssignedId(reply)) && Atoi(d.id) == Some(AssignedId(reply))
  {
    var record := RecordFromData(d.config);
    sent, record, err := CreateRecord(a, record, reply);
    if err.Some? {
      return;
    }
    var id := Itoa(record.id);
    d.SetId(id);
    AtoiItoa(record.id);
  }

  /**
   * resourceDnsRead: a stored id that does not parse fails before any
   * request; otherwise the record with that id is fetched and its data, TTL
   * and type are stored, or the fetch error is returned.
   */
  method Read(d: ResourceData, a: Auth, reply: Reply<ListEnvelope>, order: seq<string>)
    returns (sent: seq<Request>, err: Option<Error>)
    requires LegacyDataSource.IsIterationOrder(order)
    modifies d`state
    ensures Atoi(d.id).None? ==> sent == [] && err == Some(SyntaxError(d.id)) && d.state == old(d.state)
    ensures Atoi(d.id).Some? ==> sent == [ListRequest(a.username, a.apiKey)]
    ensures Atoi(d.id).Some? && Listed(reply).1.Some? ==> err == Listed(reply).1 && d.state == old(d.state)
    ensures Atoi(d.id).Some? && Listed(reply).1.None? ==>
              var rs := Listed(reply).0;
              var k := IndexOfId(rs, Atoi(d.id).value);
              if k < |rs| then (d.state, err) == LegacyDataSource.Stored(old(d.state), rs[k], order, d.refused)
              else err == Some(RecordNotFound(Atoi(d.id).value)) && d.state == old(d.state)
  {
    var parsed := Atoi(d.id);
    if parsed.None? {
      return [], Some(SyntaxError(d.id));
    }
    var id := parsed.value;
    var record;
    sent, record, err := GetRecord(a, id, reply);
    if err.Some? {
      return;
    }
    err := LegacyDataSource.SetResourceData(d, record, order);
  }

  /** resourceDnsUpdate: nothing to do; the resource is never changed in place. */
  function Update(): (err: Option<Error>)
    ensures err.None?
  {
    None
  }

  /**
   * resourceDnsDelete: a stored id that does not parse fails before any
   * request; otherwise every listed record with that id is deleted, stopping
   * at the first failure. The resource data is not changed.
   */
  method Delete(d: ResourceData, a: Auth, listing: Reply<ListEnvelope>, deleteReply: nat -> Reply<()>)
    returns (sent: seq<Request>, err: Option<Error>)
    ensures Atoi(d.id).None? ==> sent == [] && err == Some(SyntaxError(d.id))
    ensures Atoi(d.id).Some? ==> |sent| >= 1 && sent[0] == ListRequest(a.username, a.apiKey)
    ensures Atoi(d.id).Some? ==>
              forall j :: 1 <= j < |sent| ==> sent[j] == DeleteRequest(a.username, a.apiKey, Atoi(d.id).value)
    ensures Atoi(d.id).Some? && Listed(listing).1.Some? ==> |sent| == 1 && err == Listed(listing).1
    ensures Atoi(d.id).Some? && Listed(listing).1.None? ==>
              (|sent| - 1, err) == DeleteRun(DeleteOutcomes(deleteReply), 0, CountId(Listed(listing).0, Atoi(d.id).value))
  {
    var parsed := Atoi(d.id);
    if parsed.None? {
      return [], Some(SyntaxError(d.id));
    }
    sent, err := DeleteRecord(a, parsed.value, listing, deleteReply);
  }
}

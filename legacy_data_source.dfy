/**
 * The legacy `omglol_dns` data source (omglol/data_source_dns.go): look a
 * record up by name and copy its data, TTL and type into the state.
 */
module LegacyDataSource {
  import opened Wrappers
  import opened Decimal
  import opened Records
  import opened Api
  import opened LegacyClient
  import opened Sdk

  /** The keys setResourceData writes. */
  const MappingKeys: set<string> := {"data", "ttl", "type"}

  /** The value setResourceData writes under each key, taken from the record. */
  function Mapping(record: Record): (m: map<string, Value>)
    ensures m.Keys == MappingKeys
  {
    map["data" := StringValue(record.data), "ttl" := IntValue(record.ttl), "type" := StringValue(record.rtype)]
  }

  /** A possible order of Go's iteration over the mapping: each key once. */
  predicate IsIterationOrder(order: seq<string>)
  {
    multiset(order) == multiset{"data", "ttl", "type"}
  }

  /** The position of the first key whose Set fails, |order| if none does. */
  function FirstRefused(order: seq<string>, refused: set<string>): (k: nat)
    ensures k <= |order|
    ensures forall j :: 0 <= j < k ==> order[j] !in refused
    ensures k < |order| ==> order[k] in refused
  {
    if order == [] then 0
    else if order[0] in refused then 0
    else 1 + FirstRefused(order[1..], refused)
  }

  /** The state after the keys of `keys`, in order, are written from `m`. */
  function Written(state: map<string, Value>, m: map<string, Value>, keys: seq<string>): map<string, Value>
    requires forall k :: k in keys ==> k in m
  {
    if keys == [] then state
    else Written(state, m, keys[..|keys| - 1])[keys[|keys| - 1] := m[keys[|keys| - 1]]]
  }

  /** Writing `keys` from `m` sets exactly those keys, to their values in `m`. */
  lemma {:induction false} WrittenKeys(state: map<string, Value>, m: map<string, Value>, keys: seq<string>)
    requires forall k :: k in keys ==> k in m
    ensures forall k :: k in Written(state, m, keys) <==> k in state || k in keys
    ensures forall k :: k in keys ==> Written(state, m, keys)[k] == m[k]
    ensures forall k :: k in state && k !in keys ==> Written(state, m, keys)[k] == state[k]
  {
    if keys != [] {
      var init := keys[..|keys| - 1];
      WrittenKeys(state, m, init);
      assert forall k :: k in keys <==> k in init || k == keys[|keys| - 1];
    }
  }

  /**
   * The new state and the result of setResourceData: the keys before the
   * first refused one are written, and that key's error is returned.
   */
  function Stored(state: map<string, Value>, record: Record, order: seq<string>, refused: set<string>)
    : (r: (map<string, Value>, Option<Error>))
    requires IsIterationOrder(order)
  {
    var f := FirstRefused(order, refused);
    IterationOrderKeys(order);
    (Written(state, Mapping(record), order[..f]), if f == |order| then None else Some(SetError(order[f])))
  }

  /** An iteration order lists exactly the mapped keys. */
  lemma IterationOrderKeys(order: seq<string>)
    requires IsIterationOrder(order)
    ensures forall k :: k in order <==> k in MappingKeys
  {
    assert forall k :: k in order <==> k in multiset(order);
  }

  /**
   * setResourceData writes only data, ttl and type, never name or id; when it
   * succeeds all three hold the record's values; when it fails the error
   * names a refused key and the keys it returns for are not written.
   */
  lemma StoredFootprint(state: map<string, Value>, record: Record, order: seq<string>, refused: set<string>)
    requires IsIterationOrder(order)
    ensures forall k :: k !in MappingKeys ==>
              (k in Stored(state, record, order, refused).0 <==> k in state) &&
              (k in state ==> Stored(state, record, order, refused).0[k] == state[k])
    ensures Stored(state, record, order, refused).1.None? ==>
              forall k :: k in MappingKeys ==>
                k in Stored(state, record, order, refused).0 && Stored(state, record, order, refused).0[k] == Mapping(record)[k]
    ensures Stored(state, record, order, refused).1.Some? ==>
              var e := Stored(state, record, order, refused).1.value;
              e.SetError? && e.key in refused && e.key in MappingKeys
  {
    var f := FirstRefused(order, refused);
    IterationOrderKeys(order);
    var prefix := order[..f];
    assert forall k :: k in prefix ==> k in order;
    WrittenKeys(state, Mapping(record), prefix);
    if f == |order| {
      assert prefix == order;
    }
  }

  /** After a successful setResourceData the record's data, TTL and type read back from the state. */
  lemma StoredReadsBack(state: map<string, Value>, record: Record, order: seq<string>, refused: set<string>)
    requires IsIterationOrder(order)
    requires Stored(state, record, order, refused).1.None?
    ensures var s := Stored(state, record, order, refused).0;
            "data" in s && "ttl" in s && "type" in s &&
            s["data"] == StringValue(record.data) && s["ttl"] == IntValue(record.ttl) && s["type"] == StringValue(record.rtype)
  {
    StoredFootprint(state, record, order, refused);
  }

  /** setResourceData: Set each mapped key in iteration order, returning the first error. */
  method SetResourceData(d: ResourceData, record: Record, order: seq<string>) returns (err: Option<Error>)
    requires IsIterationOrder(order)
    modifies d`state
    ensures (d.state, err) == Stored(old(d.state), record, order, d.refused)
  {
    var m := Mapping(record);
    IterationOrderKeys(order);
    var i := 0;
    while i < |order|
      invariant 0 <= i <= |order|
      invariant forall j :: 0 <= j < i ==> order[j] !in d.refused
      invariant d.state == Written(old(d.state), m, order[..i])
    {
      assert order[..i + 1][..i] == order[..i];
      err := d.Set(order[i], m[order[i]]);
      if err.Some? {
        return;
      }
      i := i + 1;
    }
    assert order[..i] == order;
    err := None;
  }

  /**
   * dataSourceDnsRead: list once; a list error is returned before any name is
   * compared; else the first record with the configured name sets the id to
   * its decimal id and its fields are stored; with no such record the error
   * names the name and nothing is written.
   */
  method Read(d: ResourceData, a: Auth, reply: Reply<ListEnvelope>, order: seq<string>)
    returns (sent: seq<Request>, err: Option<Error>)
    requires IsIterationOrder(order)
    modifies d`id, d`state
    ensures sent == [ListRequest(a.username, a.apiKey)]
    ensures Listed(reply).1.Some? ==> err == Listed(reply).1 && d.id == old(d.id) && d.state == old(d.state)
    ensures Listed(reply).1.None? ==>
              var rs := Listed(reply).0;
              IndexOfName(rs, d.config.name) == |rs| ==>
                err == Some(NameNotFound(d.config.name)) && d.id == old(d.id) && d.state == old(d.state)
    ensures Listed(reply).1.None? ==>
              var rs := Listed(reply).0;
              var k := IndexOfName(rs, d.config.name);
              k < |rs| ==> d.id == Itoa(rs[k].id) && (d.state, err) == Stored(old(d.state), rs[k], order, d.refused)
  {
    var records;
    sent, records, err := GetRecords(a, reply);
    if err.Some? {
      return;
    }
    var name := d.config.name;
    var i := 0;
    while i < |records|
      invariant 0 <= i <= |records|
      invariant forall j :: 0 <= j < i ==> records[j].name != name
      invariant d.id == old(d.id) && d.state == old(d.state)
    {
      if records[i].name == name {
        var recordId := Itoa(records[i].id);
        d.SetId(recordId);
        err := SetResourceData(d, records[i], order);
        return;
      }
      i := i + 1;
    }
    err := Some(NameNotFound(name));
  }
}

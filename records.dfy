/**
 * The canonical DNS record both client packages work with, the JSON payload
 * `json.Marshal` writes for it, and the searches the clients and the data
 * source run over a listed sequence of records.
 */
module Records {
  import opened Wrappers
  import opened Decimal

  /**
   * A DNS record with integer id and TTL (`dnsRecord` in the legacy package,
   * `DNSRecord` in the newer one; both declare the same fields and JSON tags).
   */
  datatype Record = Record(
    id: Int64,
    rtype: string,
    name: string,
    data: string,
    ttl: Int64,
    createdAt: string,
    updatedAt: string)

  /** The zero value of the record struct, returned beside lookup errors. */
  const ZeroRecord := Record(0, "", "", "", 0, "", "")

  // ----- JSON payload -----

  /** The JSON tags of the record fields. */
  datatype Tag = IdTag | TypeTag | NameTag | DataTag | TtlTag | CreatedAtTag | UpdatedAtTag
  {
    /** The key the tag writes into the JSON object. */
    function Key(): string
    {
      match this
      case IdTag => "id"
      case TypeTag => "type"
      case NameTag => "name"
      case DataTag => "data"
      case TtlTag => "ttl"
      case CreatedAtTag => "created_at"
      case UpdatedAtTag => "updated_at"
    }
  }

  /** The JSON values a record's members can hold. */
  datatype Json = JNumber(n: int) | JString(s: string)

  /** One `"key": value` member of a JSON object, in the order written. */
  type Member = (Tag, Json)

  /** A member for an integer field tagged `omitempty`: nothing when the field is 0. */
  function IntMember(tag: Tag, n: int): seq<Member>
  {
    if n != 0 then [(tag, JNumber(n))] else []
  }

  /** A member for a string field tagged `omitempty`: nothing when the field is empty. */
  function StringMember(tag: Tag, s: string): seq<Member>
  {
    if s != "" then [(tag, JString(s))] else []
  }

  /**
   * The object `json.Marshal` writes for a record: the tagged fields in
   * declaration order, each left out when it holds its zero value.
   */
  function Marshal(r: Record): seq<Member>
  {
    IntMember(IdTag, r.id)
    + StringMember(TypeTag, r.rtype)
    + StringMember(NameTag, r.name)
    + StringMember(DataTag, r.data)
    + IntMember(TtlTag, r.ttl)
    + StringMember(CreatedAtTag, r.createdAt)
    + StringMember(UpdatedAtTag, r.updatedAt)
  }

  /** The value a JSON reader sees for a tag: the last member with that tag wins. */
  function Lookup(members: seq<Member>, tag: Tag): Option<Json>
  {
    if members == [] then None
    else if members[|members| - 1].0 == tag then Some(members[|members| - 1].1)
    else Lookup(members[..|members| - 1], tag)
  }

  /** Reads an integer field: absent means 0; a string or an out-of-range number is refused. */
  function ReadInt(members: seq<Member>, tag: Tag): Option<Int64>
  {
    match Lookup(members, tag)
    case None => Some(0)
    case Some(JNumber(n)) =>
      if -0x8000_0000_0000_0000 <= n <= 0x7fff_ffff_ffff_ffff then Some(n) else None
    case Some(JString(_)) => None
  }

  /** Reads a string field: absent means ""; a number is refused. */
  function ReadString(members: seq<Member>, tag: Tag): Option<string>
  {
    match Lookup(members, tag)
    case None => Some("")
    case Some(JString(s)) => Some(s)
    case Some(JNumber(_)) => None
  }

  /** The record a JSON reader rebuilds from an object, zero values for absent members. */
  function Unmarshal(members: seq<Member>): Option<Record>
  {
    var id := ReadInt(members, IdTag);
    var rtype := ReadString(members, TypeTag);
    var name := ReadString(members, NameTag);
    var data := ReadString(members, DataTag);
    var ttl := ReadInt(members, TtlTag);
    var createdAt := ReadString(members, CreatedAtTag);
    var updatedAt := ReadString(members, UpdatedAtTag);
    if id.Some? && rtype.Some? && name.Some? && data.Some? && ttl.Some?
       && createdAt.Some? && updatedAt.Some?
    then Some(Record(id.value, rtype.value, name.value, data.value, ttl.value,
                     createdAt.value, updatedAt.value))
    else None
  }

  lemma {:induction false} LookupAppend(a: seq<Member>, b: seq<Member>, tag: Tag)
    ensures Lookup(a + b, tag) == if Lookup(b, tag).Some? then Lookup(b, tag) else Lookup(a, tag)
  {
    if b != [] {
      assert (a + b)[..|a + b| - 1] == a + b[..|b| - 1];
      LookupAppend(a, b[..|b| - 1], tag);
    } else {
      assert a + b == a;
    }
  }

  /** The member a record's payload is meant to carry for a tag: its field, unless zero. */
  function FieldMember(r: Record, tag: Tag): Option<Json>
  {
    match tag
    case IdTag => if r.id != 0 then Some(JNumber(r.id)) else None
    case TypeTag => if r.rtype != "" then Some(JString(r.rtype)) else None
    case NameTag => if r.name != "" then Some(JString(r.name)) else None
    case DataTag => if r.data != "" then Some(JString(r.data)) else None
    case TtlTag => if r.ttl != 0 then Some(JNumber(r.ttl)) else None
    case CreatedAtTag => if r.createdAt != "" then Some(JString(r.createdAt)) else None
    case UpdatedAtTag => if r.updatedAt != "" then Some(JString(r.updatedAt)) else None
  }

  /** The payload carries, for every tag, exactly the non-zero field tagged with it. */
  lemma MarshalMembers(r: Record, tag: Tag)
    ensures Lookup(Marshal(r), tag) == FieldMember(r, tag)
  {
    var p1 := IntMember(IdTag, r.id);
    var p2 := p1 + StringMember(TypeTag, r.rtype);
    var p3 := p2 + StringMember(NameTag, r.name);
    var p4 := p3 + StringMember(DataTag, r.data);
    var p5 := p4 + IntMember(TtlTag, r.ttl);
    var p6 := p5 + StringMember(CreatedAtTag, r.createdAt);
    assert Marshal(r) == p6 + StringMember(UpdatedAtTag, r.updatedAt);
    LookupAppend(p6, StringMember(UpdatedAtTag, r.updatedAt), tag);
    LookupAppend(p5, StringMember(CreatedAtTag, r.createdAt), tag);
    LookupAppend(p4, IntMember(TtlTag, r.ttl), tag);
    LookupAppend(p3, StringMember(DataTag, r.data), tag);
    LookupAppend(p2, StringMember(NameTag, r.name), tag);
    LookupAppend(p1, StringMember(TypeTag, r.rtype), tag);
  }

  /** Leaving zero fields out loses nothing: a reader rebuilds exactly the record. */
  lemma MarshalRoundTrip(r: Record)
    ensures Unmarshal(Marshal(r)) == Some(r)
  {
    MarshalMembers(r, IdTag);
    MarshalMembers(r, TypeTag);
    MarshalMembers(r, NameTag);
    MarshalMembers(r, DataTag);
    MarshalMembers(r, TtlTag);
    MarshalMembers(r, CreatedAtTag);
    MarshalMembers(r, UpdatedAtTag);
  }

  // ----- searches over a listed sequence -----

  /** Index of the first record with the given id, or |rs| when there is none. */
  function IndexOfId(rs: seq<Record>, id: int): (k: nat)
    ensures k <= |rs|
    ensures forall j :: 0 <= j < k ==> rs[j].id != id
    ensures k < |rs| ==> rs[k].id == id
  {
    if rs == [] then 0
    else if rs[0].id == id then 0
    else 1 + IndexOfId(rs[1..], id)
  }

  /** Index of the first record with the given name, or |rs| when there is none. */
  function IndexOfName(rs: seq<Record>, name: string): (k: nat)
    ensures k <= |rs|
    ensures forall j :: 0 <= j < k ==> rs[j].name != name
    ensures k < |rs| ==> rs[k].name == name
  {
    if rs == [] then 0
    else if rs[0].name == name then 0
    else 1 + IndexOfName(rs[1..], name)
  }

  /** How many records carry the given id. */
  function CountId(rs: seq<Record>, id: int): nat
  {
    if rs == [] then 0
    else CountId(rs[..|rs| - 1], id) + (if rs[|rs| - 1].id == id then 1 else 0)
  }

  /** No record carries the id exactly when none is counted and the search finds none. */
  lemma {:induction false} CountIdZero(rs: seq<Record>, id: int)
    ensures CountId(rs, id) == 0 <==> (forall j :: 0 <= j < |rs| ==> rs[j].id != id)
    ensures CountId(rs, id) == 0 <==> IndexOfId(rs, id) == |rs|
  {
    if rs != [] {
      var init := rs[..|rs| - 1];
      CountIdZero(init, id);
      assert forall j :: 0 <= j < |init| ==> init[j] == rs[j];
    }
  }

  /** A prefix never carries more copies of an id than the whole sequence. */
  lemma {:induction false} CountIdPrefix(rs: seq<Record>, i: nat, id: int)
    requires i <= |rs|
    ensures CountId(rs[..i], id) <= CountId(rs, id)
    decreases |rs| - i
  {
    if i < |rs| {
      var init := rs[..|rs| - 1];
      assert init[..i] == rs[..i];
      CountIdPrefix(init, i, id);
    } else {
      assert rs[..i] == rs;
    }
  }

  /** Extending a prefix by one record counts that record. */
  lemma CountIdStep(rs: seq<Record>, i: nat, id: int)
    requires i < |rs|
    ensures CountId(rs[..i + 1], id) == CountId(rs[..i], id) + (if rs[i].id == id then 1 else 0)
  {
    assert rs[..i + 1][..i] == rs[..i];
  }
}

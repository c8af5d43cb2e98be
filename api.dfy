/**
 * The omg.lol REST API as both client packages see it: the requests they
 * issue, the replies they receive (each HTTP exchange taken as given), and
 * the errors they return.
 */
module Api {
  import opened Wrappers
  import opened Decimal
  import opened Records

  /** The write a failed reply belongs to, named in the error message. */
  datatype Operation = Creating | Deleting

  /** The errors the clients and the adapters around them return. */
  datatype Error =
    | TransportError(reason: string)        // url.Parse or http.Client.Do failed
    | ReadError(reason: string)             // reading the reply body failed
    | DecodeError(reason: string)           // the body is not the expected JSON envelope
    | ApiError(op: Operation, body: string) // "error creating/deleting record: <body>"
    | RecordNotFound(id: int)               // "unable to find DNS record with ID ..."
    | SyntaxError(text: string)             // strconv.Atoi refused a stored id
    | NameNotFound(name: string)            // "Unable to find record with name ..."
    | SetError(key: string)                 // the plugin SDK refused ResourceData.Set

  /** What `json.NewDecoder(body).Decode` makes of a readable body. */
  datatype Decoding<T> = Malformed(reason: string) | Envelope(value: T)

  /** A reply body: unreadable, or its text together with what decoding it yields. */
  datatype Body<T> = Unreadable(reason: string) | Readable(text: string, decoded: Decoding<T>)

  /** The outcome of one HTTP exchange. */
  datatype Reply<T> = NoReply(reason: string) | Answer(status: int, body: Body<T>)

  /** The status rule both clients apply to writes: 400 and above is a failure. */
  predicate IsErrorStatus(status: int) { status >= 400 }

  /**
   * The envelope a reply decodes to, or the error on the way; the status is
   * not looked at (the list operations never check it).
   */
  function Received<T>(reply: Reply<T>): (r: Result<T, Error>)
    ensures r.Success? <==> reply.Answer? && reply.body.Readable? && reply.body.decoded.Envelope?
    ensures r.Success? ==> r.value == reply.body.decoded.value
  {
    match reply
    case NoReply(reason) => Failure(TransportError(reason))
    case Answer(_, Unreadable(reason)) => Failure(ReadError(reason))
    case Answer(_, Readable(_, Malformed(reason))) => Failure(DecodeError(reason))
    case Answer(_, Readable(_, Envelope(v))) => Success(v)
  }

  /** The error a write returns for a reply whose status is 400 or more: the body it carries. */
  function ErrorReply<T>(op: Operation, body: Body<T>): Error
  {
    match body
    case Unreadable(reason) => ReadError(reason)
    case Readable(text, _) => ApiError(op, text)
  }

  /** `{"response": {"response_received": {"data": ...}}}`, the reply to a create. */
  datatype CreateEnvelope = CreateEnvelope(data: Record)

  /** A create reply that the clients accept: status below 400 and a decodable envelope. */
  predicate CreateAccepted(reply: Reply<CreateEnvelope>)
  {
    reply.Answer? && !IsErrorStatus(reply.status) && Received(reply).Success?
  }

  /** The id the server assigned in an accepted create reply. */
  function AssignedId(reply: Reply<CreateEnvelope>): Int64
    requires CreateAccepted(reply)
  {
    Received(reply).value.data.id
  }

  /** The error a create returns for a reply it does not accept. */
  function CreateError(reply: Reply<CreateEnvelope>): Error
    requires !CreateAccepted(reply)
  {
    match reply
    case NoReply(reason) => TransportError(reason)
    case Answer(status, body) =>
      if IsErrorStatus(status) then ErrorReply(Creating, body) else Received(reply).error
  }

  /**
   * The DELETEs a verify-then-delete issues when the listing holds `matches`
   * records with the id and the k-th DELETE has outcome `outcome(k)`: counting
   * from the k-th, how many are issued in all and the error returned. Each
   * is issued only after the previous one succeeded.
   */
  function DeleteRun(outcome: nat -> Option<Error>, k: nat, matches: nat): (r: (nat, Option<Error>))
    decreases matches - k
  {
    if k >= matches then (matches, None)
    else match outcome(k)
      case Some(e) => (k + 1, Some(e))
      case None => DeleteRun(outcome, k + 1, matches)
  }

  /**
   * The run stops at the first DELETE that fails and returns its error;
   * when none fails, every match gets its DELETE and the result is nil.
   */
  lemma {:induction false} DeleteRunStopsAtFirstError(outcome: nat -> Option<Error>, k: nat, matches: nat)
    requires k <= matches
    ensures var (issued, err) := DeleteRun(outcome, k, matches);
            && k <= issued <= matches
            && (err.None? ==> issued == matches)
            && (err.Some? ==> issued > k && err == outcome(issued - 1))
            && (forall j :: k <= j < (if err.None? then issued else issued - 1) ==> outcome(j).None?)
    decreases matches - k
  {
    if k < matches && outcome(k).None? {
      DeleteRunStopsAtFirstError(outcome, k + 1, matches);
    }
  }

  /** When every DELETE succeeds, each match gets one and the run ends with nil. */
  lemma DeleteRunAllSucceed(outcome: nat -> Option<Error>, k: nat, matches: nat)
    requires k <= matches
    requires forall j :: k <= j < matches ==> outcome(j).None?
    ensures DeleteRun(outcome, k, matches) == (matches, None)
  {
    DeleteRunStopsAtFirstError(outcome, k, matches);
  }

  // ----- requests -----

  datatype Verb = Get | Post | Delete

  /** An HTTP request: verb, URL, the Authorization header and an optional JSON body. */
  datatype Request = Request(verb: Verb, url: string, authorization: string, payload: Option<seq<Member>>)

  const BaseUrl := "https://api.omg.lol"

  /** `/address/{username}/dns`, the collection every list and create goes to. */
  function CollectionUrl(username: string): string
  {
    BaseUrl + "/address/" + username + "/dns"
  }

  /** `/address/{username}/dns/{id}`, the item a delete goes to. */
  function ItemUrl(username: string, id: int): string
  {
    CollectionUrl(username) + "/" + Itoa(id)
  }

  function Bearer(apiKey: string): string
  {
    "Bearer " + apiKey
  }

  function ListRequest(username: string, apiKey: string): Request
  {
    Request(Get, CollectionUrl(username), Bearer(apiKey), None)
  }

  function CreateRequest(username: string, apiKey: string, record: Record): Request
  {
    Request(Post, CollectionUrl(username), Bearer(apiKey), Some(Marshal(record)))
  }

  function DeleteRequest(username: string, apiKey: string, id: int): Request
  {
    Request(Delete, ItemUrl(username, id), Bearer(apiKey), None)
  }

  /**
   * An item URL lies under the collection URL and its last segment parses
   * back to the id, so distinct ids address distinct items.
   */
  lemma ItemUrlNamesId(username: string, id: Int64, other: Int64)
    ensures var u := ItemUrl(username, id);
            var n := |CollectionUrl(username)|;
            |u| > n + 1 && u[..n] == CollectionUrl(username) && u[n] == '/' && Atoi(u[n + 1..]) == Some(id)
    ensures ItemUrl(username, id) == ItemUrl(username, other) ==> id == other
  {
    var u := ItemUrl(username, id);
    var n := |CollectionUrl(username)|;
    assert u[n + 1..] == Itoa(id);
    AtoiItoa(id);
    if ItemUrl(username, id) == ItemUrl(username, other) {
      assert ItemUrl(username, other)[n + 1..] == Itoa(other);
      ItoaInjective(id, other);
    }
  }
}

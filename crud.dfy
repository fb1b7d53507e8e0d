/**
 * The request-level logic of the generic CRUD hook (`useCrud`): the error message a
 * failed request is reduced to, the authorization header, the cache keys of the three
 * queries and the prefix every successful mutation invalidates, the guard of the
 * detail query, the five mutations (the delete one behind a confirmation prompt) and
 * the export. HTTP responses and the user's answer to the prompt are inputs.
 */
module Crud {
  import opened Common
  import CrudQuery
  import CrudForm

  // ---------------------------------------------------------------------------
  // Error normalisation (`unwrapAxiosError`)

  /** A `message` or `error` value: absent (null/undefined), a string, or a list of strings. */
  datatype ErrorField = Missing | Text(s: string) | List(items: seq<string>)

  /** The parts of a failed request that the normaliser looks at:
      `response.data.message`, `response.data.error` and the error's own `message`. */
  datatype ErrorBody = ErrorBody(message: ErrorField, error: ErrorField)
  datatype ErrorResponse = ErrorResponse(data: Option<ErrorBody>)
  datatype RequestError = RequestError(response: Option<ErrorResponse>, message: ErrorField)

  function BodyMessage(e: RequestError): ErrorField
  {
    if e.response.Some? && e.response.value.data.Some? then e.response.value.data.value.message else Missing
  }

  function BodyError(e: RequestError): ErrorField
  {
    if e.response.Some? && e.response.value.data.Some? then e.response.value.data.value.error else Missing
  }

  /** `new Error(x).message`: a string as is, `undefined` as the empty string. */
  function FieldText(f: ErrorField): string
    requires !f.Missing?
  {
    match f
    case Text(s) => s
    case List(items) => if items == [] then "" else items[0]
  }

  /**
   * `unwrapAxiosError(err).message`: the first present value among the body's `message`,
   * the body's `error` and the error's own `message`, else "Request failed"; of a list,
   * its first element.
   */
  function UnwrapAxiosError(e: RequestError): (msg: string)
    ensures !BodyMessage(e).Missing? ==> msg == FieldText(BodyMessage(e))
    ensures BodyMessage(e).Missing? && !BodyError(e).Missing? ==> msg == FieldText(BodyError(e))
    ensures BodyMessage(e).Missing? && BodyError(e).Missing? && !e.message.Missing? ==> msg == FieldText(e.message)
    ensures BodyMessage(e).Missing? && BodyError(e).Missing? && e.message.Missing? ==> msg == "Request failed"
  {
    var m := BodyMessage(e);
    var chosen := if !m.Missing? then m
                  else if !BodyError(e).Missing? then BodyError(e)
                  else if !e.message.Missing? then e.message
                  else Text("Request failed");
    FieldText(chosen)
  }

  /** Only null/undefined falls through: once the body carries a message, even an empty
      one, nothing else about the error can change the result. */
  lemma BodyMessageWins(e1: RequestError, e2: RequestError)
    requires BodyMessage(e1) == BodyMessage(e2) && !BodyMessage(e1).Missing?
    ensures UnwrapAxiosError(e1) == UnwrapAxiosError(e2)
  {
  }

  /** A list-valued message contributes its first element and nothing else. */
  lemma ListMessageUsesFirst(e: RequestError, first: string, rest: seq<string>)
    requires BodyMessage(e) == List([first] + rest)
    ensures UnwrapAxiosError(e) == first
  {
  }

  // ---------------------------------------------------------------------------
  // Authorization header

  /** `token ? { Authorization: `Bearer ${token}` } : {}` — the header value, if any. */
  function AuthHeader(token: Option<string>): (h: Option<string>)
    ensures h.Some? <==> Truthy(token)
    ensures h.Some? ==> h.value == "Bearer " + token.value
  {
    if Truthy(token) then Some("Bearer " + token.value) else None
  }

  // ---------------------------------------------------------------------------
  // Query keys and cache invalidation

  /** An element of a react-query key: `unknown` in the source. */
  datatype KeyPart = KStr(s: string) | KNum(n: int) | KUndefined | KParams(params: CrudQuery.Entries) | KOther(id: nat)

  type QueryKey = seq<KeyPart>

  function PageOf(p: Option<CrudQuery.Pagination>): KeyPart
  {
    if p.Some? then KNum(p.value.currentPage) else KUndefined
  }

  function SizeOf(p: Option<CrudQuery.Pagination>): KeyPart
  {
    if p.Some? then KNum(p.value.pageSize) else KUndefined
  }

  /** `[url, ...queryKey]`: the prefix every mutation of the resource invalidates. */
  function ResourcePrefix(url: string, queryKey: QueryKey): QueryKey
  {
    [KStr(url)] + queryKey
  }

  function ListKey(url: string, queryKey: QueryKey, p: Option<CrudQuery.Pagination>, params: CrudQuery.Entries): QueryKey
  {
    ResourcePrefix(url, queryKey) + [KStr("list"), PageOf(p), SizeOf(p), KParams(params)]
  }

  function PaginatedKey(url: string, queryKey: QueryKey, p: Option<CrudQuery.Pagination>, params: CrudQuery.Entries): QueryKey
  {
    ResourcePrefix(url, queryKey) + [KStr("paginated"), PageOf(p), SizeOf(p), KParams(params)]
  }

  function DetailKey(url: string, queryKey: QueryKey, id: Option<string>): QueryKey
  {
    ResourcePrefix(url, queryKey) + [KStr("detail"), if id.Some? then KStr(id.value) else KUndefined]
  }

  /** The three query keys of a resource all begin with its invalidation prefix and are
      told apart by the tag that follows it. */
  lemma KeysShareResourcePrefix(url: string, queryKey: QueryKey, p: Option<CrudQuery.Pagination>,
                                params: CrudQuery.Entries, id: Option<string>)
    ensures IsPrefix(ResourcePrefix(url, queryKey), ListKey(url, queryKey, p, params))
    ensures IsPrefix(ResourcePrefix(url, queryKey), PaginatedKey(url, queryKey, p, params))
    ensures IsPrefix(ResourcePrefix(url, queryKey), DetailKey(url, queryKey, id))
    ensures ListKey(url, queryKey, p, params)[|queryKey| + 1] == KStr("list")
    ensures PaginatedKey(url, queryKey, p, params)[|queryKey| + 1] == KStr("paginated")
    ensures DetailKey(url, queryKey, id)[|queryKey| + 1] == KStr("detail")
  {
    var pre := ResourcePrefix(url, queryKey);
    assert ListKey(url, queryKey, p, params)[..|pre|] == pre;
    assert PaginatedKey(url, queryKey, p, params)[..|pre|] == pre;
    assert DetailKey(url, queryKey, id)[..|pre|] == pre;
  }

  /** A cached query result: an opaque snapshot of the data and whether it is stale. */
  datatype CacheEntry = CacheEntry(snapshot: nat, stale: bool)

  type Cache = map<QueryKey, CacheEntry>

  /** `invalidateQueries({ queryKey: prefix, exact: false })`: every entry whose key begins
      with `prefix` is marked stale; nothing else changes. */
  function Invalidate(cache: Cache, prefix: QueryKey): (r: Cache)
    ensures r.Keys == cache.Keys
    ensures forall k :: k in r ==> r[k].snapshot == cache[k].snapshot
    ensures forall k :: k in r ==> (r[k].stale <==> cache[k].stale || IsPrefix(prefix, k))
  {
    map k | k in cache :: if IsPrefix(prefix, k) then CacheEntry(cache[k].snapshot, true) else cache[k]
  }

  /** Invalidating the same prefix twice in a row is the same as invalidating it once. */
  lemma InvalidateIdempotent(cache: Cache, prefix: QueryKey)
    ensures Invalidate(Invalidate(cache, prefix), prefix) == Invalidate(cache, prefix)
  {
    var once := Invalidate(cache, prefix);
    var twice := Invalidate(once, prefix);
    forall k | k in twice ensures twice[k] == once[k] {
    }
  }

  /** After a mutation of a resource, its list, paginated and detail entries are stale
      whatever their pagination, filters or id; entries of another URL are untouched. */
  lemma MutationInvalidatesResource(cache: Cache, url: string, queryKey: QueryKey,
                                    p: Option<CrudQuery.Pagination>, params: CrudQuery.Entries, id: Option<string>)
    ensures var r := Invalidate(cache, ResourcePrefix(url, queryKey));
            (ListKey(url, queryKey, p, params) in cache ==> r[ListKey(url, queryKey, p, params)].stale) &&
            (PaginatedKey(url, queryKey, p, params) in cache ==> r[PaginatedKey(url, queryKey, p, params)].stale) &&
            (DetailKey(url, queryKey, id) in cache ==> r[DetailKey(url, queryKey, id)].stale)
    ensures forall k :: k in cache && |k| > 0 && k[0] != KStr(url) ==>
              Invalidate(cache, ResourcePrefix(url, queryKey))[k] == cache[k]
  {
    KeysShareResourcePrefix(url, queryKey, p, params, id);
    forall k | k in cache && |k| > 0 && k[0] != KStr(url)
      ensures Invalidate(cache, ResourcePrefix(url, queryKey))[k] == cache[k]
    {
      var pre := ResourcePrefix(url, queryKey);
      assert |k| >= |pre| ==> k[..|pre|][0] == k[0] != pre[0];
    }
  }

  /** react-query's client, reduced to its cache and `invalidateQueries`. */
  class QueryClient {
    var cache: Cache

    constructor (initial: Cache)
      ensures cache == initial
    {
      cache := initial;
    }

    method InvalidateQueries(prefix: QueryKey)
      modifies this
      ensures cache == Invalidate(old(cache), prefix)
    {
      cache := Invalidate(cache, prefix);
    }
  }

  // ---------------------------------------------------------------------------
  // Reads

  /** The URL the list and paginated queries request. Filters default to `{}`. */
  function ListRequestUrl(url: string, p: Option<CrudQuery.Pagination>, params: CrudQuery.Entries,
                          esc: string -> string): (r: string)
    ensures CrudQuery.SearchPairs(p, Some(params)) == [] <==> r == url
    ensures CrudQuery.SearchPairs(p, Some(params)) != [] ==> IsPrefix(url + "?", r)
  {
    CrudQuery.SerializeEmpty(CrudQuery.SearchPairs(p, Some(params)), esc);
    CrudQuery.ListUrl(url, CrudQuery.Serialize(CrudQuery.SearchPairs(p, Some(params)), esc))
  }

  /** The server reading the list or paginated request's query string gets `page` and
      `limit` first when the list is paginated, then each filter's strings under its key. */
  lemma ListRequestRoundTrip(url: string, p: Option<CrudQuery.Pagination>, params: CrudQuery.Entries,
                             esc: string -> string, unesc: string -> string, k: string)
    requires CrudQuery.EscapeInvertible(esc, unesc)
    requires NoDuplicates(CrudQuery.Keys(params))
    ensures var r := ListRequestUrl(url, p, params, esc);
            var query := if r == url then "" else r[|url| + 1..];
            CrudQuery.GetAll(CrudQuery.Parse(query, unesc), k)
            == CrudQuery.PaginationValues(p, k) + CrudQuery.ValueStrings(CrudQuery.EntryValue(params, k))
  {
    var pairs := CrudQuery.SearchPairs(p, Some(params));
    var r := ListRequestUrl(url, p, params, esc);
    assert (if r == url then "" else r[|url| + 1..]) == CrudQuery.Serialize(pairs, esc) by {
      CrudQuery.SerializeEmpty(pairs, esc);
    }
    CrudQuery.FilterRoundTrip(p, params, esc, unesc, k);
  }

  const MissingIdMessage := "Missing ID for detail"

  /** The detail query's fetch: without a (non-empty) id it throws before any request;
      otherwise it requests `${url}/${id}`. */
  function DetailRequest(url: string, id: Option<string>): (r: Result<string>)
    ensures r.Err? <==> !Truthy(id)
    ensures r.Err? ==> r.message == MissingIdMessage
    ensures r.Ok? ==> r.value == url + "/" + id.value
  {
    if !Truthy(id) then Err(MissingIdMessage) else Ok(url + "/" + id.value)
  }

  /** The detail query as react-query runs it: nothing while `enabled` is false, and the
      fetch otherwise. `detailEnabled` defaults to `Boolean(id)`, so with the default the
      query never runs into the missing-id error. */
  function DetailQuery(url: string, id: Option<string>, detailEnabled: Option<bool>): (r: Option<Result<string>>)
    ensures r.None? <==> (if detailEnabled.Some? then !detailEnabled.value else !Truthy(id))
    ensures r.Some? ==> r.value == DetailRequest(url, id)
    ensures detailEnabled.None? && r.Some? ==> r.value == Ok(url + "/" + id.value)
  {
    var enabled := if detailEnabled.Some? then detailEnabled.value else Truthy(id);
    if enabled then Some(DetailRequest(url, id)) else None
  }

  // ---------------------------------------------------------------------------
  // Mutations

  datatype HttpMethod = Post | Patch | Delete

  /** A request body: JSON, or the multipart entries `toFormData` builds, or none. */
  datatype Body = Json(payload: seq<CrudForm.Field>) | Multipart(entries: seq<CrudForm.FormEntry>) | NoBody

  datatype Request = Request(verb: HttpMethod, path: string, body: Body)

  datatype Mutation =
    | Create(payload: seq<CrudForm.Field>)
    | CreateWithFormData(payload: seq<CrudForm.Field>)
    | Update(id: string, payload: seq<CrudForm.Field>)
    | UpdateWithFormData(id: string, payload: seq<CrudForm.Field>)
    | Remove(id: string)

  /** The outcome of the HTTP call, when one is made: a response payload or a failure. */
  datatype Transport = Responded(data: nat) | Failed(err: RequestError)

  /** The user's answer to the delete prompt; `PromptFailed` is a rejected prompt promise. */
  datatype Confirmation = Confirmed | Declined | PromptFailed

  /** The error a mutation fails with: a message (normalised or the cancel sentinel), or
      the transport error itself when the mutation does not normalise it. */
  datatype MutationError = Message(text: string) | Unnormalised(err: RequestError)

  /** What running a mutation does: the request it sends (if any), how it settles, and
      the prefix its `onSuccess` invalidates (if it succeeds). */
  datatype MutationOutcome = MutationOutcome(request: Option<Request>, result: MutationResult, invalidated: Option<QueryKey>)
  datatype MutationResult = Succeeded(data: Option<nat>) | MutationFailed(error: MutationError)

  const Cancelled := "__DELETE_CANCELLED__"

  /** The request a mutation sends once it goes ahead. */
  function MutationRequest(url: string, m: Mutation): Request
  {
    match m
    case Create(payload) => Request(Post, url, Json(payload))
    case CreateWithFormData(payload) => Request(Post, url, Multipart(CrudForm.FormDataOf(payload)))
    case Update(id, payload) => Request(Patch, url + "/" + id, Json(payload))
    case UpdateWithFormData(id, payload) => Request(Patch, url + "/" + id, Multipart(CrudForm.FormDataOf(payload)))
    case Remove(id) => Request(Delete, url + "/" + id, NoBody)
  }

  /** Whether the mutation's `mutationFn` wraps its request in `unwrapAxiosError`. */
  predicate Normalises(m: Mutation)
  {
    m.Create? || m.CreateWithFormData? || m.UpdateWithFormData?
  }

  /** Runs one mutation of the hook against the given prompt answer and transport outcome. */
  function RunMutation(url: string, queryKey: QueryKey, m: Mutation, confirm: Confirmation, transport: Transport)
    : (o: MutationOutcome)
    ensures o.invalidated.Some? <==> o.result.Succeeded?
    ensures o.invalidated.Some? ==> o.invalidated.value == ResourcePrefix(url, queryKey)
    ensures m.Remove? && confirm != Confirmed ==>
              o.request.None? && o.result == MutationFailed(Message(Cancelled))
    ensures !(m.Remove? && confirm != Confirmed) ==> o.request == Some(MutationRequest(url, m))
    ensures o.result.Succeeded? <==> o.request.Some? && transport.Responded?
    ensures o.result.Succeeded? ==> o.result.data == (if m.Remove? then None else Some(transport.data))
    ensures o.request.Some? && transport.Failed? ==>
              o.result.error == (if Normalises(m) then Message(UnwrapAxiosError(transport.err))
                                 else Unnormalised(transport.err))
  {
    if m.Remove? && confirm != Confirmed then
      MutationOutcome(None, MutationFailed(Message(Cancelled)), None)
    else
      var req := MutationRequest(url, m);
      match transport
      case Responded(data) =>
        var value := if m.Remove? then None else Some(data);
        MutationOutcome(Some(req), Succeeded(value), Some(ResourcePrefix(url, queryKey)))
      case Failed(err) =>
        var e := if Normalises(m) then Message(UnwrapAxiosError(err)) else Unnormalised(err);
        MutationOutcome(Some(req), MutationFailed(e), None)
  }

  /** The message `onError` compares with the sentinel. */
  function ErrorMessage(e: MutationError): string
  {
    match e
    case Message(text) => text
    case Unnormalised(err) => if err.message.Missing? then "" else FieldText(err.message)
  }

  /** `remove`'s `onError` returns early exactly on the cancel sentinel. */
  predicate IsSilentCancel(e: MutationError)
  {
    ErrorMessage(e) == Cancelled
  }

  /** A declined or failed confirmation sends no DELETE, invalidates nothing and fails
      with the sentinel that `onError` passes over silently; a confirmed delete that
      succeeds invalidates the whole resource. */
  lemma RemoveCancelPath(url: string, queryKey: QueryKey, id: string, confirm: Confirmation, t: Transport)
    ensures var o := RunMutation(url, queryKey, Remove(id), confirm, t);
            (confirm != Confirmed ==>
               o.request.None? && o.invalidated.None? && o.result.MutationFailed? && IsSilentCancel(o.result.error)) &&
            (confirm == Confirmed && t.Responded? ==>
               o.request == Some(Request(Delete, url + "/" + id, NoBody)) && o.invalidated == Some(ResourcePrefix(url, queryKey)))
  {
  }

  // ---------------------------------------------------------------------------
  // Export

  /** A row of the export as the API returns it. */
  type Row = map<string, string>

  datatype ExportResult = NoDataNotice | WriteWorkbook(fileName: string, sheet: string, rows: seq<Row>)

  /** `onExportAll(params, fileName)`: the URL it requests, and what it does with the rows
      (`data?.data ?? []`) that come back. */
  function ExportRequestUrl(url: string, params: Option<CrudQuery.Entries>, esc: string -> string): (r: string)
    ensures CrudQuery.SearchPairs(None, params) == [] <==> r == url + "/export"
    ensures CrudQuery.SearchPairs(None, params) != [] ==> IsPrefix(url + "/export?", r)
  {
    CrudQuery.SerializeEmpty(CrudQuery.SearchPairs(None, params), esc);
    CrudQuery.ExportUrl(url, CrudQuery.Serialize(CrudQuery.SearchPairs(None, params), esc))
  }

  /** The server reading the export request's query string gets each filter's strings
      under its key and nothing else: no `page` or `limit` beyond the filters' own. */
  lemma ExportRequestRoundTrip(url: string, params: Option<CrudQuery.Entries>,
                               esc: string -> string, unesc: string -> string, k: string)
    requires CrudQuery.EscapeInvertible(esc, unesc)
    requires params.Some? ==> NoDuplicates(CrudQuery.Keys(params.value))
    ensures var r := ExportRequestUrl(url, params, esc);
            var query := if r == url + "/export" then "" else r[|url| + 8..];
            CrudQuery.GetAll(CrudQuery.Parse(query, unesc), k)
            == (if params.Some? then CrudQuery.ValueStrings(CrudQuery.EntryValue(params.value, k)) else [])
  {
    var pairs := CrudQuery.SearchPairs(None, params);
    var r := ExportRequestUrl(url, params, esc);
    assert (if r == url + "/export" then "" else r[|url| + 8..]) == CrudQuery.Serialize(pairs, esc) by {
      CrudQuery.SerializeEmpty(pairs, esc);
    }
    if params.Some? {
      CrudQuery.FilterRoundTrip(None, params.value, esc, unesc, k);
    } else {
      CrudQuery.ParseSerialize([], esc, unesc);
    }
  }

  function ExportAll(fileName: Option<string>, rows: Option<seq<Row>>): (r: ExportResult)
    ensures r.NoDataNotice? <==> rows.None? || rows.value == []
    ensures r.WriteWorkbook? ==> r.rows == rows.value && r.sheet == "Export"
    ensures r.WriteWorkbook? && fileName.None? ==> r.fileName == "export.xlsx"
    ensures r.WriteWorkbook? && fileName.Some? ==> r.fileName == fileName.value + ".xlsx"
  {
    var all := if rows.Some? then rows.value else [];
    if |all| == 0 then NoDataNotice
    else WriteWorkbook((if fileName.Some? then fileName.value else "export") + ".xlsx", "Export", all)
  }
}

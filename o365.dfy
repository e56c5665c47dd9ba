/** fetcher/metrics/O365.py: drain the paginated Microsoft O365 logon query
    into one ordered list of logins. */
module O365 {
  import opened Results
  import opened Json
  import opened Probes

  datatype Option<T> = None | Some(value: T)

  /** `Login_class`: three attributes copied from one match. */
  datatype Login = Login(status: Json, email: Json, ip: Json)

  const QueryPath := "/api/query"
  const LogonFilter := "dataSource.name='Microsoft O365' AND event.type='Logon'"
  const StatusKey := "status_detail"
  const EmailKey := "actor.user.email_addr"
  const IpKey := "src_endpoint.ip"
  const TokenKey := "continuationToken"

  /** The query parameters of one request; the cursor, when there is one,
      rides along as `continuationToken`. */
  function QueryParams(cursor: Option<Json>): (m: map<string, Json>)
    ensures TokenKey in m <==> cursor.Some?
    ensures cursor.Some? ==> m[TokenKey] == cursor.value
    ensures m.Keys - {TokenKey} == {"queryType", "filter"}
    ensures m["queryType"] == JStr("log") && m["filter"] == JStr(LogonFilter)
  {
    var base := map["queryType" := JStr("log"), "filter" := JStr(LogonFilter)];
    match cursor
    case None => base
    case Some(t) => base[TokenKey := t]
  }


  /** The logins one match contributes: one record copying its three
      attributes when the email attribute is not `None`, none otherwise.  A
      match without `attributes`, or whose `attributes` is not a dict,
      raises. */
  function MatchLogins(test: Json): (r: Result<seq<Login>>)
    ensures r.Ok? <==> test.JObj? && "attributes" in test.fields && test.fields["attributes"].JObj?
    ensures test.JObj? && "attributes" !in test.fields ==> r == Err(KeyError("attributes"))
    ensures r.Ok? ==> var attrs := test.fields["attributes"].fields;
      && (Get(attrs, EmailKey) != JNull ==>
            r.value == [Login(Get(attrs, StatusKey), Get(attrs, EmailKey), Get(attrs, IpKey))])
      && (Get(attrs, EmailKey) == JNull ==> r.value == [])
  {
    var attributes :- Subscript(test, "attributes");
    match attributes
    case JObj(attrs) =>
      var email := Get(attrs, EmailKey);
      if email != JNull then Ok([Login(Get(attrs, StatusKey), email, Get(attrs, IpKey))]) else Ok([])
    case _ => Err(TypeError)
  }

  /** The email test alone decides inclusion: a match without the email
      attribute is dropped, and the same match with any non-`None` email,
      the empty string included, is kept with its own attributes. */
  lemma EmailDecidesInclusion(attrs: map<string, Json>, e: Json)
    requires e != JNull
    ensures MatchLogins(JObj(map["attributes" := JObj(attrs - {EmailKey})])) == Ok([])
    ensures MatchLogins(JObj(map["attributes" := JObj(attrs[EmailKey := e])]))
            == Ok([Login(Get(attrs, StatusKey), e, Get(attrs, IpKey))])
  {
    assert Get(attrs - {EmailKey}, EmailKey) == JNull;
    assert Get(attrs[EmailKey := e], StatusKey) == Get(attrs, StatusKey);
    assert Get(attrs[EmailKey := e], IpKey) == Get(attrs, IpKey);
  }

  /** An empty email passes the `!= None` test. */
  lemma EmptyEmailKept()
    ensures MatchLogins(JObj(map["attributes" := JObj(map[EmailKey := JStr("")])]))
            == Ok([Login(JNull, JStr(""), JNull)])
  {
  }

  /** The filtered records of one page, in match order.  A page without
      `matches` raises `KeyError`. */
  function PageLogins(body: Json): (r: Result<seq<Login>>)
    ensures body.JObj? && "matches" !in body.fields ==> r == Err(KeyError("matches"))
    ensures r.Ok? ==> body.JObj? && "matches" in body.fields
  {
    var matches :- Subscript(body, "matches");
    var items :- Elements(matches);
    ConcatMap(items, MatchLogins)
  }

  /** A page without `matches` is an error, not an empty page. */
  lemma MissingMatchesIsError(fields: map<string, Json>)
    requires "matches" !in fields
    ensures PageLogins(JObj(fields)) == Err(KeyError("matches"))
  {
  }

  /** `data.get("continuationToken")`. */
  function NextToken(body: Json): Json
  {
    if body.JObj? then Get(body.fields, TokenKey) else JNull
  }

  /** A page's contribution, or the error of its request or of its records. */
  function PageOf(reply: Result<Response>): Result<seq<Login>>
  {
    match reply
    case Err(e) => Err(e)
    case Ok(resp) => PageLogins(resp.body)
  }

  /** `get_logins(cursor, accumulated)` from its k-th request on, as the
      recursion the source is written as: `pages[k]` is the reply to the
      k-th request, and a request past the last page gets no answer.  The
      page's records come first; a truthy token asks for the next page. */
  function Drain(pages: seq<Result<Response>>, k: nat): (r: Result<seq<Login>>)
    ensures r.Ok? ==> k < |pages| && pages[k].Ok? && PageLogins(pages[k].value.body).Ok?
    ensures r.Ok? ==> PageLogins(pages[k].value.body).value <= r.value
    decreases |pages| - k
  {
    if k >= |pages| then Err(TransportError)
    else
      match pages[k]
      case Err(e) => Err(e)
      case Ok(resp) =>
        match PageLogins(resp.body)
        case Err(e) => Err(e)
        case Ok(logins) =>
          if Truthy(NextToken(resp.body)) then Prepend(logins, Drain(pages, k + 1)) else Ok(logins)
  }

  /** A page that is answered and carries no truthy token ends the run with
      exactly its own filtered records. */
  lemma SinglePage(resp: Response, rest: seq<Result<Response>>)
    requires !Truthy(NextToken(resp.body))
    ensures Drain([Ok(resp)] + rest, 0) == PageLogins(resp.body)
  {
  }

  lemma PrependPrepend<T>(a: seq<T>, b: seq<T>, r: Result<seq<T>>)
    ensures Prepend(a, Prepend(b, r)) == Prepend(a + b, r)
  {
    if r.Ok? {
      AppendAssoc(a, b, r.value);
    }
  }

  lemma PrependNil<T>(r: Result<seq<T>>)
    ensures Prepend([], r) == r
  {
    if r.Ok? {
      assert [] + r.value == r.value;
    }
  }

  /** The logins of one page, appended to `acc` match by match. */
  method CollectPage(items: seq<Json>, acc: seq<Login>) returns (r: Result<seq<Login>>)
    ensures r == Prepend(acc, ConcatMap(items, MatchLogins))
  {
    var logins := acc;
    var j := 0;
    assert items[..0] == [];
    assert acc + [] == acc;
    while j < |items|
      invariant 0 <= j <= |items|
      invariant Prepend(acc, ConcatMap(items[..j], MatchLogins)) == Ok(logins)
    {
      ConcatMapSnoc(items, MatchLogins, j);
      var one := MatchLogins(items[j]);
      if one.Err? {
        assert ConcatMap(items[..j + 1], MatchLogins) == Err(one.error);
        ConcatMapErrPersists(items, MatchLogins, j + 1);
        return Err(one.error);
      }
      PrependPrepend(acc, ConcatMap(items[..j], MatchLogins).value, one);
      logins := logins + one.value;
      j := j + 1;
    }
    assert items[..j] == items;
    return Ok(logins);
  }

  /** The body of `get_logins` for one answered page: its records, in
      match order. */
  method ReadPage(body: Json) returns (page: Result<seq<Login>>)
    ensures page == PageLogins(body)
  {
    var matches := Subscript(body, "matches");
    if matches.Err? {
      return Err(matches.error);
    }
    var items := Elements(matches.value);
    if items.Err? {
      return Err(items.error);
    }
    page := CollectPage(items.value, []);
    PrependNil(ConcatMap(items.value, MatchLogins));
  }

  /** The parameters of the requests made so far follow the pages: the
      first carries no token, each later one the truthy token of the page
      before. */
  predicate RequestsFollow(pages: seq<Result<Response>>, requests: seq<map<string, Json>>)
  {
    && |requests| >= 1
    && requests[0] == QueryParams(None)
    && forall j :: 0 <= j < |requests| - 1 ==>
         j < |pages| && pages[j].Ok? && Truthy(NextToken(pages[j].value.body))
         && requests[j + 1] == QueryParams(Some(NextToken(pages[j].value.body)))
  }

  /** The cursor of the k-th request: none for the first, and the truthy
      token of the page before for every later one. */
  predicate CursorFollows(pages: seq<Result<Response>>, k: nat, cursor: Option<Json>)
  {
    if k == 0 then cursor == None
    else k <= |pages| && pages[k - 1].Ok? && Truthy(NextToken(pages[k - 1].value.body))
         && cursor == Some(NextToken(pages[k - 1].value.body))
  }

  /** One step of the recursion on an answered page with well-formed records. */
  lemma DrainStep(pages: seq<Result<Response>>, k: nat)
    requires k < |pages|
    ensures PageOf(pages[k]).Err? ==> Drain(pages, k) == PageOf(pages[k])
    ensures PageOf(pages[k]).Ok? && !Truthy(NextToken(pages[k].value.body)) ==> Drain(pages, k) == PageOf(pages[k])
    ensures PageOf(pages[k]).Ok? && Truthy(NextToken(pages[k].value.body)) ==>
      Drain(pages, k) == Prepend(PageOf(pages[k]).value, Drain(pages, k + 1))
  {
  }

  /** A run that made `n` requests and succeeded with `logins`: every
      request was answered, the last page's token is falsy, and `logins` is
      the records of those `n` pages in page order. */
  predicate Consumed(pages: seq<Result<Response>>, n: nat, logins: seq<Login>)
  {
    && 1 <= n <= |pages|
    && pages[n - 1].Ok?
    && !Truthy(NextToken(pages[n - 1].value.body))
    && ConcatMap(pages[..n], PageOf) == Ok(logins)
  }

  /** One answered page with well-formed records, after `acc` was gathered
      from the pages before it: the records so far grow by that page's, and
      the recursion either stops with them or goes on with the next page. */
  lemma Advance(pages: seq<Result<Response>>, k: nat, acc: seq<Login>)
    requires k < |pages| && PageOf(pages[k]).Ok?
    requires ConcatMap(pages[..k], PageOf) == Ok(acc)
    requires Drain(pages, 0) == Prepend(acc, Drain(pages, k))
    ensures ConcatMap(pages[..k + 1], PageOf) == Ok(acc + PageOf(pages[k]).value)
    ensures !Truthy(NextToken(pages[k].value.body)) ==>
      Drain(pages, 0) == Ok(acc + PageOf(pages[k]).value) && Consumed(pages, k + 1, acc + PageOf(pages[k]).value)
    ensures Truthy(NextToken(pages[k].value.body)) ==>
      Drain(pages, 0) == Prepend(acc + PageOf(pages[k]).value, Drain(pages, k + 1))
  {
    ConcatMapSnoc(pages, PageOf, k);
    DrainStep(pages, k);
    PrependPrepend(acc, PageOf(pages[k]).value, Drain(pages, k + 1));
  }

  lemma RequestsSnoc(pages: seq<Result<Response>>, requests: seq<map<string, Json>>, cursor: Option<Json>)
    requires CursorFollows(pages, |requests|, cursor)
    requires |requests| > 0 ==> RequestsFollow(pages, requests)
    ensures RequestsFollow(pages, requests + [QueryParams(cursor)])
  {
    var next := requests + [QueryParams(cursor)];
    assert next[0] == QueryParams(None);
    forall j | 0 <= j < |next| - 1
      ensures j < |pages| && pages[j].Ok? && Truthy(NextToken(pages[j].value.body))
              && next[j + 1] == QueryParams(Some(NextToken(pages[j].value.body)))
    {
      if j + 1 < |requests| {
        assert next[j + 1] == requests[j + 1];
      }
    }
  }

  /** `get_logins()` as a loop.  It returns what the recursion returns and
      the parameters of every request it made (`RequestsFollow`).  On
      success the run consumed exactly one page per request, the last
      page's token is falsy, and the result is the records of those pages
      in page order. */
  method GetLogins(pages: seq<Result<Response>>) returns (r: Result<seq<Login>>, requests: seq<map<string, Json>>)
    ensures r == Drain(pages, 0)
    ensures RequestsFollow(pages, requests)
    ensures r.Ok? ==> Consumed(pages, |requests|, r.value)
  {
    var acc: seq<Login> := [];
    var cursor: Option<Json> := None;
    var k := 0;
    requests := [];
    PrependNil(Drain(pages, 0));
    assert pages[..0] == [];
    while true
      invariant 0 <= k <= |pages|
      invariant |requests| == k
      invariant k > 0 ==> RequestsFollow(pages, requests)
      invariant CursorFollows(pages, k, cursor)
      invariant Drain(pages, 0) == Prepend(acc, Drain(pages, k))
      invariant ConcatMap(pages[..k], PageOf) == Ok(acc)
      decreases |pages| - k
    {
      RequestsSnoc(pages, requests, cursor);
      requests := requests + [QueryParams(cursor)];
      if k >= |pages| {
        return Err(TransportError), requests;
      }
      DrainStep(pages, k);
      if pages[k].Err? {
        return Err(pages[k].error), requests;
      }
      var body := pages[k].value.body;
      var page := ReadPage(body);
      if page.Err? {
        return page, requests;
      }
      Advance(pages, k, acc);
      var token := NextToken(body);
      if !Truthy(token) {
        return Ok(acc + page.value), requests;
      }
      acc := acc + page.value;
      cursor := Some(token);
      k := k + 1;
    }
  }
}

/**
 * `POST /api/search`: validates the request body, asks the vector search for the best
 * matches and answers with each match cut down to id, score, title, url and a snippet of
 * at most 400 characters. Anything that throws becomes a 500.
 *
 * The vector search itself is a parameter: what it answers for a query and a limit.
 */
module SearchRoute {
  import opened Wrappers
  import opened Js
  import opened Text

  const MissingQuery: string := "Missing 'query' string in request body"
  const InternalError: string := "internal server error"
  const DefaultLimit: real := 5.0
  const SnippetLimit: nat := 400

  /** What the vector search did: it threw (or its promise rejected), or it returned a value. */
  datatype SearchCall = Threw | Returned(results: Json)

  /** An HTTP answer: the status and the JSON body. */
  datatype Response = Response(status: nat, body: Json)

  /** `{ error: message }` */
  function ErrorBody(message: string): Json
  {
    JObj(["error"], [JStr(message)])
  }

  /** `Number(k) || 5`: never zero and never NaN. */
  function Limit(k: Json, rt: Runtime): (n: Num)
    ensures NumTruthy(n)
    ensures NumTruthy(ToNumber(k, rt)) ==> n == ToNumber(k, rt)
    ensures !NumTruthy(ToNumber(k, rt)) ==> n == Finite(DefaultLimit)
  {
    var n := ToNumber(k, rt);
    if NumTruthy(n) then n else Finite(DefaultLimit)
  }

  /** The object `{ id, score, title, url, snippet }` one match is answered with. */
  function Entry(id: Json, score: Json, title: Json, url: Json, snippet: Json): Json
  {
    JObj(["id", "score", "title", "url", "snippet"], [id, score, title, url, snippet])
  }

  lemma EntryFields(id: Json, score: Json, title: Json, url: Json, snippet: Json)
    ensures Prop(Entry(id, score, title, url, snippet), "id") == id
    ensures Prop(Entry(id, score, title, url, snippet), "score") == score
    ensures Prop(Entry(id, score, title, url, snippet), "title") == title
    ensures Prop(Entry(id, score, title, url, snippet), "url") == url
    ensures Prop(Entry(id, score, title, url, snippet), "snippet") == snippet
  {
    var ks, vs := ["id", "score", "title", "url", "snippet"], [id, score, title, url, snippet];
    assert |ks[0]| == 2 && |ks[1]| == 5 && |ks[2]| == 5 && |ks[3]| == 3 && |ks[4]| == 7;
    assert ks[1][0] == 's' && ks[2][0] == 't';
    LookupFive(ks, vs);
  }

  /** Five distinct keys: each one finds its own value. */
  lemma LookupFive(ks: seq<string>, vs: seq<Json>)
    requires |ks| == 5 && |vs| == 5
    requires forall a, b :: 0 <= a < b < 5 ==> ks[a] != ks[b]
    ensures Lookup(ks, vs, ks[0]) == vs[0] && Lookup(ks, vs, ks[1]) == vs[1]
    ensures Lookup(ks, vs, ks[2]) == vs[2] && Lookup(ks, vs, ks[3]) == vs[3]
    ensures Lookup(ks, vs, ks[4]) == vs[4]
  {
    LookupAt(ks, vs, ks[0], 0);
    LookupAt(ks, vs, ks[1], 1);
    LookupAt(ks, vs, ks[2], 2);
    LookupAt(ks, vs, ks[3], 3);
    LookupAt(ks, vs, ks[4], 4);
  }

  /** `(r.text || "").slice(0, 400)`: strings and arrays can be sliced, any other truthy
      value has no `slice` and the call throws. */
  function SnippetOf(text: Json): (r: Result<Json, Exception>)
  {
    var t := Or(text, JStr(""));
    match t
    case JStr(s) => Ok(JStr(Take(s, SnippetLimit)))
    case JArr(items) => Ok(JArr(if |items| <= SnippetLimit then items else items[..SnippetLimit]))
    case _ => Err(TypeError)
  }

  /** A snippet is the start of the text, at most 400 long (a missing text gives ""), and
      only a truthy text that is neither a string nor an array makes it throw. */
  lemma SnippetOfMeaning(text: Json)
    ensures SnippetOf(text).Err? <==> Truthy(text) && !text.JStr? && !text.JArr?
    ensures !Truthy(text) ==> SnippetOf(text) == Ok(JStr(""))
    ensures text.JStr? ==>
      (&& SnippetOf(text).Ok? && SnippetOf(text).value.JStr?
       && SnippetOf(text).value.s <= text.s && |SnippetOf(text).value.s| == Min(|text.s|, SnippetLimit))
    ensures text.JArr? ==>
      (&& SnippetOf(text).Ok? && SnippetOf(text).value.JArr?
       && SnippetOf(text).value.items <= text.items
       && |SnippetOf(text).value.items| == Min(|text.items|, SnippetLimit))
  {
  }

  function Min(a: nat, b: nat): nat
  {
    if a <= b then a else b
  }

  /** The callback of `results.map`: reading `r.id` of a `null` match throws; otherwise the
      score defaults to 0 and the title and url to `null` when missing. */
  function Project(r: Json): Result<Json, Exception>
  {
    if Nullish(r) then Err(TypeError)
    else
      match SnippetOf(Prop(r, "text"))
      case Err(e) => Err(e)
      case Ok(snippet) =>
        var meta := Prop(r, "meta");
        Ok(Entry(Prop(r, "id"), Coalesce(Prop(r, "score"), JNum(0.0)),
                 Coalesce(Prop(meta, "title"), JNull), Coalesce(Prop(meta, "url"), JNull), snippet))
  }

  /** A match projects exactly when it is not `null` and its text can be sliced; the entry
      keeps its id, score, title and url when present, with 0 and `null` otherwise. */
  lemma ProjectMeaning(r: Json)
    ensures Project(r).Ok? <==> !Nullish(r) && SnippetOf(Prop(r, "text")).Ok?
    ensures Project(r).Ok? ==>
      var e := Project(r).value;
      && Prop(e, "id") == Prop(r, "id")
      && (Nullish(Prop(r, "score")) ==> Prop(e, "score") == JNum(0.0))
      && (!Nullish(Prop(r, "score")) ==> Prop(e, "score") == Prop(r, "score"))
      && (Nullish(Prop(Prop(r, "meta"), "title")) ==> Prop(e, "title") == JNull)
      && (!Nullish(Prop(Prop(r, "meta"), "title")) ==> Prop(e, "title") == Prop(Prop(r, "meta"), "title"))
      && (Nullish(Prop(Prop(r, "meta"), "url")) ==> Prop(e, "url") == JNull)
      && (!Nullish(Prop(Prop(r, "meta"), "url")) ==> Prop(e, "url") == Prop(Prop(r, "meta"), "url"))
      && Prop(e, "snippet") == SnippetOf(Prop(r, "text")).value
  {
    if Project(r).Ok? {
      var meta := Prop(r, "meta");
      EntryFields(Prop(r, "id"), Coalesce(Prop(r, "score"), JNum(0.0)),
                  Coalesce(Prop(meta, "title"), JNull), Coalesce(Prop(meta, "url"), JNull),
                  SnippetOf(Prop(r, "text")).value);
    }
  }

  /** `results.map(project)`: the entries in order, or the exception of the first match
      that throws. */
  function ProjectAll(rs: seq<Json>): (r: Result<seq<Json>, Exception>)
    ensures r.Ok? <==> forall j :: 0 <= j < |rs| ==> Project(rs[j]).Ok?
    ensures r.Ok? ==> |r.value| == |rs| && forall j :: 0 <= j < |rs| ==> r.value[j] == Project(rs[j]).value
  {
    if rs == [] then Ok([])
    else
      match Project(rs[0])
      case Err(e) => Err(e)
      case Ok(e) =>
        match ProjectAll(rs[1..])
        case Err(e') => Err(e')
        case Ok(es) => Ok([e] + es)
  }

  /** The route handler. `search` is the vector search, asked with the query and the limit. */
  function Handle(body: Json, search: (string, Num) -> SearchCall, rt: Runtime): Response
  {
    var b := Or(body, JObj([], []));
    var query := Prop(b, "query");
    if !Truthy(query) || !query.JStr? then Response(400, ErrorBody(MissingQuery))
    else
      match search(query.s, Limit(Prop(b, "k"), rt))
      case Threw => Response(500, ErrorBody(InternalError))
      case Returned(results) =>
        if !results.JArr? then Response(500, ErrorBody(InternalError))
        else
          match ProjectAll(results.items)
          case Err(_) => Response(500, ErrorBody(InternalError))
          case Ok(out) => Response(200, JArr(out))
  }

  /** The query of a body: missing when the body is falsy or not an object. */
  function Query(body: Json): Json
  {
    Prop(Or(body, JObj([], [])), "query")
  }

  /** Without a non-empty string query the answer is 400 and the search is never asked;
      with one, the search is asked exactly once, with that query and a limit that is never
      zero or NaN (5 when `k` does not give one). */
  lemma HandleValidation(body: Json, search: (string, Num) -> SearchCall,
                         other: (string, Num) -> SearchCall, rt: Runtime)
    ensures Handle(body, search, rt).status == 400 <==> !(Query(body).JStr? && Query(body).s != "")
    ensures Handle(body, search, rt).status == 400 ==>
      Handle(body, search, rt).body == ErrorBody(MissingQuery) && Handle(body, other, rt) == Handle(body, search, rt)
    ensures Query(body).JStr? && Query(body).s != "" ==>
      var asked := (Query(body).s, Limit(Prop(Or(body, JObj([], [])), "k"), rt));
      other(asked.0, asked.1) == search(asked.0, asked.1) ==> Handle(body, other, rt) == Handle(body, search, rt)
  {
  }

  /** The answer is 200 exactly when the query is valid, the search returns an array and
      every match can be projected; the body is then the projected matches, same number
      and same order. Any other outcome with a valid query is a 500. */
  lemma HandleOutcome(body: Json, search: (string, Num) -> SearchCall, rt: Runtime)
    ensures var resp := Handle(body, search, rt);
      resp.status == 200 || resp.status == 400 || resp.status == 500
    ensures Query(body).JStr? && Query(body).s != "" ==>
      var resp := Handle(body, search, rt);
      var call := search(Query(body).s, Limit(Prop(Or(body, JObj([], [])), "k"), rt));
      && (resp.status == 200 <==>
            && call.Returned? && call.results.JArr?
            && forall j :: 0 <= j < |call.results.items| ==> Project(call.results.items[j]).Ok?)
      && (resp.status == 200 ==>
            && resp.body.JArr? && |resp.body.items| == |call.results.items|
            && forall j :: 0 <= j < |resp.body.items| ==>
                 resp.body.items[j] == Project(call.results.items[j]).value)
    ensures Handle(body, search, rt).status == 500 ==> Handle(body, search, rt).body == ErrorBody(InternalError)
  {
  }
}

/**
 * The Gemini/PaLM REST wrapper: which part of a response body becomes the embedding or
 * the generated text, the recursive search for the first numeric array, and the batch
 * loop that swaps a failed item for the deterministic local vector.
 *
 * The HTTP exchange is not modelled; each call is given what `fetch` and the body
 * readers came to.
 */
module Gemini {
  import opened Wrappers
  import opened Js
  import opened Text
  import opened Vectors

  /** What the module finds at load time: the key (`PALM_API_KEY || GOOGLE_API_KEY || ""`)
      and whether a `fetch` implementation is available. */
  datatype Setup = Setup(apiKey: string, hasFetch: bool)

  /** One `fetch`: it rejects, or it answers with `ok`, `status`, the body as text (""
      when reading it fails) and the body parsed as JSON (`null` when parsing fails). */
  datatype Http =
    | Rejected(e: Exception)
    | Response(ok: bool, status: nat, text: string, json: Json)

  const KeyMissing: string := "PALM_API_KEY not set in environment"
  const FetchMissing: string := "fetch not available. Install node-fetch or run in Node 18+"
  const EmptyEmbedResponse: string := "PaLM embed returned empty response"
  const UnexpectedShape: string := "PaLM embed: unexpected response shape"
  const ExpectsArray: string := "batchEmbeddings expects array"

  /** The two checks both requests make before calling `fetch`. */
  function Precheck(s: Setup): (r: Option<Exception>)
    ensures r.None? <==> s.apiKey != "" && s.hasFetch
  {
    if s.apiKey == "" then Some(Error(KeyMissing))
    else if !s.hasFetch then Some(Error(FetchMissing))
    else None
  }

  // ---------------------------------------------------------------------------
  // findFirstArray

  /** The value contains a non-empty array whose first element is a number, itself or at
      any depth: an independent statement of what the search below is after. */
  predicate HasNumericArray(v: Json)
    decreases v
  {
    IsNumericArray(v) ||
    match v
    case JArr(items) => AnyHasNumericArray(items)
    case JObj(_, vals) => AnyHasNumericArray(vals)
    case _ => false
  }

  predicate AnyHasNumericArray(vs: seq<Json>)
    decreases vs
  {
    vs != [] && (HasNumericArray(vs[0]) || AnyHasNumericArray(vs[1..]))
  }

  /** `findFirstArray(obj)`: `obj` itself when it is a numeric array, else the first hit
      among its values in `Object.keys` order, each value checked directly before the
      search descends into it. */
  function FindFirstArray(v: Json): (r: Option<Json>)
    decreases v, 1
    ensures !IsObjectType(v) ==> r.None?
    ensures r.Some? ==> IsNumericArray(r.value) && Occurs(r.value, v)
  {
    match v
    case JArr(items) => if IsNumericArray(v) then Some(v) else FindInValues(items)
    case JObj(_, vals) => FindInValues(vals)
    case _ => None
  }

  /** The `for (const k of Object.keys(obj))` loop over the values. */
  function FindInValues(vs: seq<Json>): (r: Option<Json>)
    decreases vs, 0
    ensures r.Some? ==> IsNumericArray(r.value) && OccursIn(r.value, vs)
  {
    if vs == [] then None
    else if IsNumericArray(vs[0]) then Some(vs[0])
    else if IsObjectType(vs[0]) && FindFirstArray(vs[0]).Some? then
      OccursInChild(FindFirstArray(vs[0]).value, vs[0], vs);
      FindFirstArray(vs[0])
    else
      var r := FindInValues(vs[1..]);
      if r.Some? then OccursInSuffix(r.value, vs); r else r
  }

  lemma OccursInSuffix(x: Json, vs: seq<Json>)
    requires vs != [] && OccursIn(x, vs[1..])
    ensures OccursIn(x, vs)
  {
  }

  /** The search succeeds exactly when there is a numeric array to find. */
  lemma {:induction false} FindFirstArrayFinds(v: Json)
    ensures FindFirstArray(v).Some? <==> HasNumericArray(v)
    decreases v, 1
  {
    match v
    case JArr(items) => FindInValuesFinds(items);
    case JObj(_, vals) => FindInValuesFinds(vals);
    case _ =>
  }

  lemma {:induction false} FindInValuesFinds(vs: seq<Json>)
    ensures FindInValues(vs).Some? <==> AnyHasNumericArray(vs)
    decreases vs, 0
  {
    if vs != [] {
      FindFirstArrayFinds(vs[0]);
      FindInValuesFinds(vs[1..]);
    }
  }

  /** Values are searched in order: when the values before position `i` hold no numeric
      array and value `i` does, the result is what the search finds in value `i` (that
      value itself when it is a numeric array). */
  lemma {:induction false} FindInValuesOrder(vs: seq<Json>, i: int)
    requires 0 <= i < |vs| && HasNumericArray(vs[i])
    requires forall j :: 0 <= j < i ==> !HasNumericArray(vs[j])
    ensures FindInValues(vs) == FindFirstArray(vs[i])
    ensures IsNumericArray(vs[i]) ==> FindInValues(vs) == Some(vs[i])
  {
    FindFirstArrayFinds(vs[0]);
    if i > 0 {
      FindInValuesOrder(vs[1..], i - 1);
    }
  }

  // ---------------------------------------------------------------------------
  // getEmbedding

  /** `j[list][0].embedding` when `j[list]` is an array, its first element is truthy and
      that element's `embedding` is an array. */
  function FirstEmbedding(j: Json, list: string): Option<Json>
  {
    var xs := Prop(j, list);
    if xs.JArr? && Truthy(First(xs)) && Prop(First(xs), "embedding").JArr? then
      Some(Prop(First(xs), "embedding"))
    else None
  }

  /** `j.embedding.value` when `j.embedding` is truthy and its `value` is an array. */
  function EmbeddingValue(j: Json): Option<Json>
  {
    if Truthy(Prop(j, "embedding")) && Prop(Prop(j, "embedding"), "value").JArr? then
      Some(Prop(Prop(j, "embedding"), "value"))
    else None
  }

  /** One of the four named shapes matches. */
  predicate KnownShape(j: Json)
  {
    FirstEmbedding(j, "embeddings").Some? || EmbeddingValue(j).Some? ||
    FirstEmbedding(j, "data").Some? || FirstEmbedding(j, "output").Some?
  }

  /** The shape selection on a parsed embed response, in its fixed priority order. */
  function EmbeddingOf(j: Json): Result<Json, Exception>
  {
    if !Truthy(j) then Err(Error(EmptyEmbedResponse))
    else if FirstEmbedding(j, "embeddings").Some? then Ok(FirstEmbedding(j, "embeddings").value)
    else if EmbeddingValue(j).Some? then Ok(EmbeddingValue(j).value)
    else if FirstEmbedding(j, "data").Some? then Ok(FirstEmbedding(j, "data").value)
    else if FirstEmbedding(j, "output").Some? then Ok(FirstEmbedding(j, "output").value)
    else if FindFirstArray(j).Some? then Ok(FindFirstArray(j).value)
    else Err(Error(UnexpectedShape))
  }

  lemma FirstEmbeddingOccurs(j: Json, list: string)
    ensures FirstEmbedding(j, list).Some? ==> Occurs(FirstEmbedding(j, list).value, j)
  {
    if FirstEmbedding(j, list).Some? {
      var xs := Prop(j, list);
      PropOccurs(j, list);
      FirstOccurs(xs);
      PropOccurs(First(xs), "embedding");
      OccursTrans(First(xs), xs, j);
      OccursTrans(Prop(First(xs), "embedding"), First(xs), j);
    }
  }

  /** An embedding is always an array taken from inside the response; the call fails
      exactly when the body is falsy or holds neither a named shape nor any numeric
      array; a falsy body is reported as empty. */
  lemma EmbeddingOfMeaning(j: Json)
    ensures EmbeddingOf(j).Ok? ==> EmbeddingOf(j).value.JArr? && Occurs(EmbeddingOf(j).value, j)
    ensures EmbeddingOf(j).Err? <==> !Truthy(j) || (!KnownShape(j) && !HasNumericArray(j))
    ensures !Truthy(j) ==> EmbeddingOf(j) == Err(Error(EmptyEmbedResponse))
  {
    FindFirstArrayFinds(j);
    FirstEmbeddingOccurs(j, "embeddings");
    FirstEmbeddingOccurs(j, "data");
    FirstEmbeddingOccurs(j, "output");
    if EmbeddingValue(j).Some? {
      PropOccurs(j, "embedding");
      PropOccurs(Prop(j, "embedding"), "value");
      OccursTrans(EmbeddingValue(j).value, Prop(j, "embedding"), j);
    }
  }

  /** The shapes are tried in a fixed order: `embeddings[0].embedding`, then
      `embedding.value`, then `data[0].embedding`, then `output[0].embedding`, and the
      generic search only when none of them matches. */
  lemma EmbeddingOfPriority(j: Json)
    requires Truthy(j)
    ensures FirstEmbedding(j, "embeddings").Some? ==> EmbeddingOf(j) == Ok(FirstEmbedding(j, "embeddings").value)
    ensures FirstEmbedding(j, "embeddings").None? && EmbeddingValue(j).Some? ==>
      EmbeddingOf(j) == Ok(EmbeddingValue(j).value)
    ensures FirstEmbedding(j, "embeddings").None? && EmbeddingValue(j).None? && FirstEmbedding(j, "data").Some? ==>
      EmbeddingOf(j) == Ok(FirstEmbedding(j, "data").value)
    ensures (&& FirstEmbedding(j, "embeddings").None? && EmbeddingValue(j).None?
             && FirstEmbedding(j, "data").None? && FirstEmbedding(j, "output").Some?) ==>
      EmbeddingOf(j) == Ok(FirstEmbedding(j, "output").value)
    ensures KnownShape(j) ==>
      (|| (FirstEmbedding(j, "embeddings").Some? && EmbeddingOf(j) == Ok(FirstEmbedding(j, "embeddings").value))
       || (EmbeddingValue(j).Some? && EmbeddingOf(j) == Ok(EmbeddingValue(j).value))
       || (FirstEmbedding(j, "data").Some? && EmbeddingOf(j) == Ok(FirstEmbedding(j, "data").value))
       || (FirstEmbedding(j, "output").Some? && EmbeddingOf(j) == Ok(FirstEmbedding(j, "output").value)))
    ensures !KnownShape(j) && HasNumericArray(j) ==>
      FindFirstArray(j).Some? && EmbeddingOf(j) == Ok(FindFirstArray(j).value)
  {
    FindFirstArrayFinds(j);
  }

  /** `getEmbedding(text)` given the setup and what its one `fetch` came to (the text
      only shapes the request). */
  function GetEmbedding(s: Setup, http: Http): Result<Json, Exception>
  {
    if Precheck(s).Some? then Err(Precheck(s).value)
    else
      match http
      case Rejected(e) => Err(e)
      case Response(ok, status, text, json) =>
        if !ok then Err(Error("PaLM embed error " + NatToString(status) + ": " + text))
        else EmbeddingOf(json)
  }

  /** A missing key or `fetch` fails the call whatever the server would have said; a
      rejected `fetch` and a non-ok status are reported; a successful call returns an
      array found inside the parsed body of an ok response, and every ok response with
      a truthy body holding a numeric array succeeds. */
  lemma GetEmbeddingMeaning(s: Setup, http: Http)
    ensures s.apiKey == "" ==> GetEmbedding(s, http) == Err(Error(KeyMissing))
    ensures s.apiKey != "" && !s.hasFetch ==> GetEmbedding(s, http) == Err(Error(FetchMissing))
    ensures Precheck(s).None? && http.Rejected? ==> GetEmbedding(s, http) == Err(http.e)
    ensures Precheck(s).None? && http.Response? && !http.ok ==>
      GetEmbedding(s, http) == Err(Error("PaLM embed error " + NatToString(http.status) + ": " + http.text))
    ensures GetEmbedding(s, http).Ok? ==>
      Precheck(s).None? && http.Response? && http.ok &&
      GetEmbedding(s, http).value.JArr? && Occurs(GetEmbedding(s, http).value, http.json)
    ensures Precheck(s).None? && http.Response? && http.ok && HasNumericArray(http.json) ==>
      GetEmbedding(s, http).Ok?
  {
    if http.Response? {
      EmbeddingOfMeaning(http.json);
      if HasNumericArray(http.json) {
        assert Truthy(http.json);
      }
    }
  }

  // ---------------------------------------------------------------------------
  // batchEmbeddings

  /** `opts.dim || 512` (a missing or zero `dim` gives 512). */
  function DimOr512(dim: Option<nat>): (n: nat)
    ensures n > 0
    ensures dim.Some? && dim.value != 0 ==> n == dim.value
  {
    if dim.Some? && dim.value != 0 then dim.value else 512
  }

  /** What position `i` of the batch holds: the call's embedding, or on failure the local
      vector of `String(t || "")` of length `opts.dim || 512`. */
  function BatchItem(t: Json, attempt: Result<Json, Exception>, dim: Option<nat>,
                     sha256: string -> Digest, rt: Runtime): Json
  {
    match attempt
    case Ok(e) => e
    case Err(_) => AsJson(LocalVector(t, DimOr512(dim), sha256, rt))
  }

  /** The batch result: an error for a non-array, otherwise one entry per text, in order;
      `reply(i)` is what the `i`-th call's `fetch` came to. */
  function Batch(texts: Json, dim: Option<nat>, s: Setup, reply: nat -> Http,
                 sha256: string -> Digest, rt: Runtime): Result<seq<Json>, Exception>
  {
    var ts := if texts.JUndefined? then JArr([]) else texts;
    if !ts.JArr? then Err(Error(ExpectsArray))
    else Ok(seq(|ts.items|, i requires 0 <= i < |ts.items| =>
      BatchItem(ts.items[i], GetEmbedding(s, reply(i)), dim, sha256, rt)))
  }

  /** A non-array (other than a missing argument) is refused; otherwise the output has one
      entry per input in the same order, a successful call's embedding where the call
      succeeded and a local vector of length `opts.dim || 512` with entries in [-1, 1]
      where it failed. */
  lemma BatchMeaning(texts: Json, dim: Option<nat>, s: Setup, reply: nat -> Http,
                     sha256: string -> Digest, rt: Runtime)
    ensures var r := Batch(texts, dim, s, reply, sha256, rt);
      r.Err? <==> !texts.JUndefined? && !texts.JArr?
    ensures var r := Batch(texts, dim, s, reply, sha256, rt);
      texts.JArr? ==> r.Ok? && |r.value| == |texts.items|
    ensures var r := Batch(texts, dim, s, reply, sha256, rt);
      texts.JArr? ==> forall i :: 0 <= i < |texts.items| && GetEmbedding(s, reply(i)).Ok? ==>
        r.value[i] == GetEmbedding(s, reply(i)).value
    ensures var r := Batch(texts, dim, s, reply, sha256, rt);
      texts.JArr? ==> forall i :: 0 <= i < |texts.items| && GetEmbedding(s, reply(i)).Err? ==>
        var v := LocalVector(texts.items[i], DimOr512(dim), sha256, rt);
        r.value[i] == AsJson(v) && |v| == DimOr512(dim) && (forall k :: 0 <= k < |v| ==> -1.0 <= v[k] <= 1.0)
  {
    if texts.JArr? {
      forall i | 0 <= i < |texts.items| && GetEmbedding(s, reply(i)).Err?
        ensures var v := LocalVector(texts.items[i], DimOr512(dim), sha256, rt);
          |v| == DimOr512(dim) && (forall k :: 0 <= k < |v| ==> -1.0 <= v[k] <= 1.0)
      {
        SpreadShape(sha256(Display(Or(texts.items[i], JStr("")), rt)), DimOr512(dim));
      }
    }
  }

  /** The `for (const t of texts)` loop, pushing each embedding or its fallback. */
  method BatchEmbeddings(texts: Json, dim: Option<nat>, s: Setup, reply: nat -> Http,
                         sha256: string -> Digest, rt: Runtime)
    returns (r: Result<seq<Json>, Exception>)
    ensures r == Batch(texts, dim, s, reply, sha256, rt)
  {
    var ts := if texts.JUndefined? then JArr([]) else texts;
    if !ts.JArr? {
      return Err(Error(ExpectsArray));
    }
    ghost var spec := Batch(texts, dim, s, reply, sha256, rt).value;
    var out: seq<Json> := [];
    var i := 0;
    while i < |ts.items|
      invariant 0 <= i <= |ts.items|
      invariant out == spec[..i]
    {
      var e := GetEmbedding(s, reply(i));
      if e.Ok? {
        out := out + [e.value];
      } else {
        out := out + [AsJson(LocalVector(ts.items[i], DimOr512(dim), sha256, rt))];
      }
      i := i + 1;
    }
    assert out == spec;
    r := Ok(out);
  }

  // ---------------------------------------------------------------------------
  // generate

  /** `j.candidates[0]` when `j.candidates` is an array, else `undefined`. */
  function Candidate(j: Json): Json
  {
    if Prop(j, "candidates").JArr? then First(Prop(j, "candidates")) else JUndefined
  }

  /** `j.output[0]` when `j.output` is an array, else `undefined`. */
  function OutputHead(j: Json): Json
  {
    if Prop(j, "output").JArr? then First(Prop(j, "output")) else JUndefined
  }

  /** `x.text || x`, the map applied to an array `content`. */
  function TextOrSelf(x: Json): Json
  {
    Or(Prop(x, "text"), x)
  }

  /** `c.map(x => x.text || x).join("\n")`: reading `.text` of a `null` or `undefined`
      element throws. */
  function JoinTexts(c: seq<Json>, rt: Runtime): (r: Result<Json, Exception>)
    ensures r.Err? <==> exists i :: 0 <= i < |c| && Nullish(c[i])
    ensures r.Err? ==> r.error == TypeError
  {
    if exists i :: 0 <= i < |c| && Nullish(c[i]) then Err(TypeError)
    else Ok(JStr(Join(seq(|c|, i requires 0 <= i < |c| => TextOrSelf(c[i])), "\n", rt)))
  }

  /** The `let out = null; if (j) { ... }` selection, before the last-resort fallback. */
  function Selected(j: Json, rt: Runtime): Result<Json, Exception>
  {
    if !Truthy(j) then Ok(JNull)
    else
      var cand := Candidate(j);
      var content := Prop(cand, "content");
      if Truthy(cand) && content.JStr? then Ok(content)
      else if Truthy(cand) && Truthy(content) && (content.JArr? || content.JObj?) then
        Ok(Or(Prop(content, "text"), content))
      else
        var head := OutputHead(j);
        var c := Prop(head, "content");
        if Truthy(head) && Truthy(c) then
          if c.JArr? then JoinTexts(c.items, rt)
          else Ok(Or(Prop(c, "text"), JStr(Display(c, rt))))
        else if Prop(j, "output").JStr? then Ok(Prop(j, "output"))
        else if Prop(j, "text").JStr? then Ok(Prop(j, "text"))
        else Ok(JNull)
  }

  /** The output of a successful generate call: the selection, or when that is falsy,
      `JSON.stringify(j, null, 2)`. */
  function GenerateOutput(j: Json, rt: Runtime): Result<Json, Exception>
  {
    match Selected(j, rt)
    case Err(e) => Err(e)
    case Ok(out) => if Truthy(out) then Ok(out) else Ok(JStr(rt.stringify(j)))
  }

  /** A string `candidates[0].content` is returned verbatim unless it is empty; the result
      is a truthy selection or the stringified response; a body with none of the shapes
      (or a falsy body) gives the stringified response; the only failure is the
      `TypeError` of a `null`/`undefined` element in an array `output[0].content`. */
  lemma GenerateOutputMeaning(j: Json, rt: Runtime)
    ensures (Truthy(j) && Truthy(Candidate(j)) && Truthy(Prop(Candidate(j), "content")) &&
      Prop(Candidate(j), "content").JStr?) ==> GenerateOutput(j, rt) == Ok(Prop(Candidate(j), "content"))
    ensures GenerateOutput(j, rt).Ok? ==>
      Truthy(GenerateOutput(j, rt).value) || GenerateOutput(j, rt).value == JStr(rt.stringify(j))
    ensures !Truthy(j) ==> GenerateOutput(j, rt) == Ok(JStr(rt.stringify(j)))
    ensures (!Truthy(Candidate(j)) && !Truthy(OutputHead(j)) && !Prop(j, "output").JStr? &&
      !Prop(j, "text").JStr?) ==> GenerateOutput(j, rt) == Ok(JStr(rt.stringify(j)))
    ensures GenerateOutput(j, rt).Err? ==>
      GenerateOutput(j, rt) == Err(TypeError) && Prop(OutputHead(j), "content").JArr?
  {
  }

  /** `generate(prompt, opts)` given the setup and what its one `fetch` came to (the
      prompt and options only shape the request). */
  function Generate(s: Setup, http: Http, rt: Runtime): Result<Json, Exception>
  {
    if Precheck(s).Some? then Err(Precheck(s).value)
    else
      match http
      case Rejected(e) => Err(e)
      case Response(ok, status, text, json) =>
        if !ok then Err(Error("PaLM generate error " + NatToString(status) + ": " + text))
        else GenerateOutput(json, rt)
  }

  /** A missing key or `fetch` fails the call whatever the server would have said; a
      non-ok status is reported with its code and text; an ok response yields the
      selected output. */
  lemma GenerateMeaning(s: Setup, http: Http, rt: Runtime)
    ensures s.apiKey == "" ==> Generate(s, http, rt) == Err(Error(KeyMissing))
    ensures s.apiKey != "" && !s.hasFetch ==> Generate(s, http, rt) == Err(Error(FetchMissing))
    ensures Precheck(s).None? && http.Response? && !http.ok ==>
      Generate(s, http, rt) == Err(Error("PaLM generate error " + NatToString(http.status) + ": " + http.text))
    ensures Precheck(s).None? && http.Response? && http.ok ==> Generate(s, http, rt) == GenerateOutput(http.json, rt)
    ensures Generate(s, http, rt).Ok? ==> Precheck(s).None? && http.Response? && http.ok
  {
  }
}

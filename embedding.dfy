/**
 * The embedding service: a fallback chain over providers (Gemini, then OpenAI, then the
 * deterministic local vector) for one text, and the batch variant that keeps one vector
 * per input in order.
 *
 * The providers are not modelled; each call is given what it came to.
 */
module EmbeddingService {
  import opened Wrappers
  import opened Js
  import opened Vectors
  import Gemini

  const OpenAIKeyMissing: string := "OpenAI key missing"

  /** What `client.embeddings.create(...)` came to. */
  datatype OpenAICall = Threw(e: Exception) | Returned(resp: Json)

  /** `dim = 512` as a default parameter: only a missing `dim` becomes 512. */
  function DimOrDefault(dim: Option<nat>): (n: nat)
    ensures dim.None? ==> n == 512
    ensures dim.Some? ==> n == dim.value
  {
    if dim.None? then 512 else dim.value
  }

  /** `localEmbed(text, dim)`: the digest of `String(text || "")`, spread over `dim`
      entries. */
  function LocalEmbed(text: Json, dim: Option<nat>, sha256: string -> Digest, rt: Runtime): seq<real>
  {
    LocalVector(text, DimOrDefault(dim), sha256, rt)
  }

  /** The local vector has exactly `dim` entries (512 when no `dim` is given), each in
      [-1, 1], entry `i` coming from digest byte `i mod 32`; it is the vector the Gemini
      wrapper falls back to for the same length. */
  lemma LocalEmbedShape(text: Json, dim: Option<nat>, sha256: string -> Digest, rt: Runtime)
    ensures var v := LocalEmbed(text, dim, sha256, rt);
      |v| == DimOrDefault(dim) && forall i :: 0 <= i < |v| ==> -1.0 <= v[i] <= 1.0
    ensures var v := LocalEmbed(text, dim, sha256, rt); var h := sha256(Display(Or(text, JStr("")), rt));
      forall i :: 0 <= i < |v| ==> ByteOf(v[i]) == h[i % 32] as real
    ensures LocalEmbed(text, Some(Gemini.DimOr512(dim)), sha256, rt) == LocalVector(text, Gemini.DimOr512(dim), sha256, rt)
  {
    SpreadShape(sha256(Display(Or(text, JStr("")), rt)), DimOrDefault(dim));
  }

  /** `tryOpenAI(text)`: without a key it throws; otherwise `resp.data?.[0]?.embedding || null`
      (reading `data` of a `null`/`undefined` response throws). */
  function TryOpenAI(hasKey: bool, call: OpenAICall): Result<Json, Exception>
  {
    if !hasKey then Err(Error(OpenAIKeyMissing))
    else
      match call
      case Threw(e) => Err(e)
      case Returned(resp) =>
        if Nullish(resp) then Err(TypeError)
        else Ok(Or(Prop(First(Prop(resp, "data")), "embedding"), JNull))
  }

  /** Without a key no request is made; a response without a truthy `data[0].embedding`
      yields `null`; a returned value is `null` or lies inside the response. */
  lemma TryOpenAIMeaning(hasKey: bool, call: OpenAICall)
    ensures !hasKey ==> TryOpenAI(hasKey, call) == Err(Error(OpenAIKeyMissing))
    ensures (hasKey && call.Returned? && !Nullish(call.resp) &&
      !Truthy(Prop(First(Prop(call.resp, "data")), "embedding"))) ==> TryOpenAI(hasKey, call) == Ok(JNull)
    ensures TryOpenAI(hasKey, call).Ok? ==>
      TryOpenAI(hasKey, call).value == JNull || Occurs(TryOpenAI(hasKey, call).value, call.resp)
  {
    if hasKey && call.Returned? && !Nullish(call.resp) {
      var resp := call.resp;
      var e := Prop(First(Prop(resp, "data")), "embedding");
      if Truthy(e) {
        PropOccurs(resp, "data");
        FirstOccurs(Prop(resp, "data"));
        PropOccurs(First(Prop(resp, "data")), "embedding");
        OccursTrans(First(Prop(resp, "data")), Prop(resp, "data"), resp);
        OccursTrans(e, First(Prop(resp, "data")), resp);
      }
    }
  }

  // ---------------------------------------------------------------------------
  // getEmbedding

  /** A provider's answer the chain accepts: `Array.isArray(emb) && emb.length > 0`. */
  predicate Usable(r: Result<Json, Exception>)
  {
    r.Ok? && r.value.JArr? && |r.value.items| > 0
  }

  /** Sequential try-fallthrough: the first usable answer, else the fallback. */
  function FirstUsable(attempts: seq<Result<Json, Exception>>, fallback: Json): (r: Json)
  {
    if attempts == [] then fallback
    else if Usable(attempts[0]) then attempts[0].value
    else FirstUsable(attempts[1..], fallback)
  }

  /** The chain returns the answer of the first provider whose answer is usable, and the
      fallback exactly when no answer is usable. */
  lemma {:induction false} FirstUsableMeaning(attempts: seq<Result<Json, Exception>>, fallback: Json, k: int)
    requires 0 <= k < |attempts| && Usable(attempts[k])
    requires forall j :: 0 <= j < k ==> !Usable(attempts[j])
    ensures FirstUsable(attempts, fallback) == attempts[k].value
  {
    if k > 0 {
      FirstUsableMeaning(attempts[1..], fallback, k - 1);
    }
  }

  lemma {:induction false} FirstUsableFallback(attempts: seq<Result<Json, Exception>>, fallback: Json)
    requires forall j :: 0 <= j < |attempts| ==> !Usable(attempts[j])
    ensures FirstUsable(attempts, fallback) == fallback
  {
    if attempts != [] {
      FirstUsableFallback(attempts[1..], fallback);
    }
  }

  /** Evaluating `geminiService.getEmbedding(...)`: the module imports the Gemini wrapper
      under the name `gemini`, so `geminiService` is not bound and the call never happens. */
  const GeminiAsWritten: Result<Json, Exception> := Err(ReferenceError)

  /** `getEmbedding(text, opts)` as written: the Gemini attempt, then OpenAI, then the
      local vector of length `opts.dim || 512`. */
  function GetEmbedding(text: Json, dim: Option<nat>, hasKey: bool, openai: OpenAICall,
                        sha256: string -> Digest, rt: Runtime): Json
  {
    FirstUsable([GeminiAsWritten, TryOpenAI(hasKey, openai)],
                AsJson(LocalEmbed(text, Some(Gemini.DimOr512(dim)), sha256, rt)))
  }

  /** As written, the Gemini step always fails, so the result is the OpenAI vector when
      that is a non-empty array and otherwise the local vector of length `opts.dim || 512`;
      the call never fails. */
  lemma GetEmbeddingMeaning(text: Json, dim: Option<nat>, hasKey: bool, openai: OpenAICall,
                            sha256: string -> Digest, rt: Runtime)
    ensures Usable(TryOpenAI(hasKey, openai)) ==>
      GetEmbedding(text, dim, hasKey, openai, sha256, rt) == TryOpenAI(hasKey, openai).value
    ensures !Usable(TryOpenAI(hasKey, openai)) ==>
      GetEmbedding(text, dim, hasKey, openai, sha256, rt) ==
        AsJson(LocalVector(text, Gemini.DimOr512(dim), sha256, rt))
    ensures !hasKey ==> |GetEmbedding(text, dim, hasKey, openai, sha256, rt).items| == Gemini.DimOr512(dim)
  {
    var attempts := [GeminiAsWritten, TryOpenAI(hasKey, openai)];
    var local := AsJson(LocalEmbed(text, Some(Gemini.DimOr512(dim)), sha256, rt));
    if Usable(TryOpenAI(hasKey, openai)) {
      FirstUsableMeaning(attempts, local, 1);
    } else {
      FirstUsableFallback(attempts, local);
    }
  }

  /** The chain as evidently intended, with the Gemini wrapper's own answer first. */
  function GetEmbeddingIntended(text: Json, dim: Option<nat>, gemini: Result<Json, Exception>,
                                hasKey: bool, openai: OpenAICall,
                                sha256: string -> Digest, rt: Runtime): Json
  {
    FirstUsable([gemini, TryOpenAI(hasKey, openai)],
                AsJson(LocalEmbed(text, Some(Gemini.DimOr512(dim)), sha256, rt)))
  }

  /** The intended chain uses a usable Gemini vector before asking OpenAI, then falls
      through to OpenAI and then to the local vector. */
  lemma GetEmbeddingIntendedMeaning(text: Json, dim: Option<nat>, gemini: Result<Json, Exception>,
                                    hasKey: bool, openai: OpenAICall,
                                    sha256: string -> Digest, rt: Runtime)
    ensures Usable(gemini) ==> GetEmbeddingIntended(text, dim, gemini, hasKey, openai, sha256, rt) == gemini.value
    ensures !Usable(gemini) && Usable(TryOpenAI(hasKey, openai)) ==>
      GetEmbeddingIntended(text, dim, gemini, hasKey, openai, sha256, rt) == TryOpenAI(hasKey, openai).value
    ensures !Usable(gemini) && !Usable(TryOpenAI(hasKey, openai)) ==>
      GetEmbeddingIntended(text, dim, gemini, hasKey, openai, sha256, rt) ==
        AsJson(LocalVector(text, Gemini.DimOr512(dim), sha256, rt))
  {
    var attempts := [gemini, TryOpenAI(hasKey, openai)];
    var local := AsJson(LocalEmbed(text, Some(Gemini.DimOr512(dim)), sha256, rt));
    if Usable(gemini) {
      FirstUsableMeaning(attempts, local, 0);
    } else if Usable(TryOpenAI(hasKey, openai)) {
      FirstUsableMeaning(attempts, local, 1);
    } else {
      FirstUsableFallback(attempts, local);
    }
  }

  /** The discrepancy: a Gemini wrapper that would answer with a usable vector is never
      consulted as written, so with no OpenAI key the local vector comes back instead. */
  lemma GeminiAnswerIgnored(text: Json, hasKey: bool, openai: OpenAICall,
                            sha256: string -> Digest, rt: Runtime)
    requires !hasKey
    ensures var gemini: Result<Json, Exception> := Ok(JArr([JNum(0.5)]));
      GetEmbeddingIntended(text, None, gemini, hasKey, openai, sha256, rt) == JArr([JNum(0.5)]) &&
      GetEmbedding(text, None, hasKey, openai, sha256, rt) != JArr([JNum(0.5)])
  {
    GetEmbeddingIntendedMeaning(text, None, Ok(JArr([JNum(0.5)])), hasKey, openai, sha256, rt);
    GetEmbeddingMeaning(text, None, hasKey, openai, sha256, rt);
  }

  // ---------------------------------------------------------------------------
  // batchEmbeddings

  /** Position `i` of an accepted Gemini batch: the entry when it is an array, else the
      local vector of `texts[i]` with `opts.dim` as given. */
  function Repair(r: Json, t: Json, dim: Option<nat>, sha256: string -> Digest, rt: Runtime): Json
  {
    if r.JArr? then r else AsJson(LocalEmbed(t, dim, sha256, rt))
  }

  /** One pass of the OpenAI loop: the answer when it is an array, else the local vector. */
  function OpenAIItem(t: Json, answer: Result<Json, Exception>, dim: Option<nat>,
                      sha256: string -> Digest, rt: Runtime): Json
  {
    if answer.Ok? && answer.value.JArr? then answer.value else AsJson(LocalEmbed(t, dim, sha256, rt))
  }

  /** What the OpenAI loop pushes, position by position; `calls(i)` is what the request
      for the `i`-th text came to. */
  function OpenAIResults(ts: seq<Json>, dim: Option<nat>, hasKey: bool, calls: nat -> OpenAICall,
                         sha256: string -> Digest, rt: Runtime): (r: seq<Json>)
    ensures |r| == |ts|
  {
    seq(|ts|, i requires 0 <= i < |ts| => OpenAIItem(ts[i], TryOpenAI(hasKey, calls(i)), dim, sha256, rt))
  }

  /** The batch result: `[]` for a missing, non-array or empty input; the repaired Gemini
      batch when that call returned one vector per text; otherwise the OpenAI loop. */
  function Batch(texts: Json, dim: Option<nat>, gemini: Result<seq<Json>, Exception>,
                 hasKey: bool, calls: nat -> OpenAICall,
                 sha256: string -> Digest, rt: Runtime): seq<Json>
  {
    if !texts.JArr? || texts.items == [] then []
    else if gemini.Ok? && |gemini.value| == |texts.items| then
      seq(|texts.items|, i requires 0 <= i < |texts.items| =>
        Repair(gemini.value[i], texts.items[i], dim, sha256, rt))
    else OpenAIResults(texts.items, dim, hasKey, calls, sha256, rt)
  }

  /** A missing, non-array or empty input gives `[]`; otherwise there is one array per
      text, in order: each position holds the Gemini entry when that batch was accepted
      and the entry is an array, the OpenAI answer when the loop ran and the answer is an
      array, and otherwise the local vector of that same text. */
  lemma BatchMeaning(texts: Json, dim: Option<nat>, gemini: Result<seq<Json>, Exception>,
                     hasKey: bool, calls: nat -> OpenAICall,
                     sha256: string -> Digest, rt: Runtime)
    ensures var r := Batch(texts, dim, gemini, hasKey, calls, sha256, rt);
      r == [] <==> !texts.JArr? || texts.items == []
    ensures var r := Batch(texts, dim, gemini, hasKey, calls, sha256, rt);
      texts.JArr? ==> |r| == |texts.items| && forall i :: 0 <= i < |r| ==> r[i].JArr?
    ensures var r := Batch(texts, dim, gemini, hasKey, calls, sha256, rt);
      texts.JArr? && gemini.Ok? && |gemini.value| == |texts.items| ==> forall i :: 0 <= i < |r| ==>
        && (gemini.value[i].JArr? ==> r[i] == gemini.value[i])
        && (!gemini.value[i].JArr? ==> r[i] == AsJson(LocalEmbed(texts.items[i], dim, sha256, rt)))
    ensures var r := Batch(texts, dim, gemini, hasKey, calls, sha256, rt);
      texts.JArr? && !(gemini.Ok? && |gemini.value| == |texts.items|) ==> forall i :: 0 <= i < |r| ==>
        var answer := TryOpenAI(hasKey, calls(i));
        && (answer.Ok? && answer.value.JArr? ==> r[i] == answer.value)
        && (!(answer.Ok? && answer.value.JArr?) ==> r[i] == AsJson(LocalEmbed(texts.items[i], dim, sha256, rt)))
  {
    var r := Batch(texts, dim, gemini, hasKey, calls, sha256, rt);
    if texts.JArr? && texts.items != [] {
      if gemini.Ok? && |gemini.value| == |texts.items| {
        forall i | 0 <= i < |r|
          ensures r[i] == Repair(gemini.value[i], texts.items[i], dim, sha256, rt)
        {
        }
      } else {
        forall i | 0 <= i < |r|
          ensures r[i] == OpenAIItem(texts.items[i], TryOpenAI(hasKey, calls(i)), dim, sha256, rt)
        {
        }
      }
    }
  }

  /** The `for (const t of texts)` loop over OpenAI. */
  method OpenAILoop(ts: seq<Json>, dim: Option<nat>, hasKey: bool, calls: nat -> OpenAICall,
                    sha256: string -> Digest, rt: Runtime) returns (results: seq<Json>)
    ensures results == OpenAIResults(ts, dim, hasKey, calls, sha256, rt)
  {
    results := [];
    var i := 0;
    while i < |ts|
      invariant 0 <= i <= |ts|
      invariant results == OpenAIResults(ts, dim, hasKey, calls, sha256, rt)[..i]
    {
      var r := TryOpenAI(hasKey, calls(i));
      if r.Ok? && r.value.JArr? {
        results := results + [r.value];
      } else {
        results := results + [AsJson(LocalEmbed(ts[i], dim, sha256, rt))];
      }
      i := i + 1;
    }
  }

  /** `batchEmbeddings(texts, opts)` given what the Gemini batch call and each OpenAI
      request came to. */
  method BatchEmbeddings(texts: Json, dim: Option<nat>, gemini: Result<seq<Json>, Exception>,
                         hasKey: bool, calls: nat -> OpenAICall,
                         sha256: string -> Digest, rt: Runtime) returns (r: seq<Json>)
    ensures r == Batch(texts, dim, gemini, hasKey, calls, sha256, rt)
  {
    if !texts.JArr? || texts.items == [] {
      return [];
    }
    if gemini.Ok? && |gemini.value| == |texts.items| {
      var res := gemini.value;
      return seq(|texts.items|, i requires 0 <= i < |texts.items| =>
        Repair(res[i], texts.items[i], dim, sha256, rt));
    }
    r := OpenAILoop(texts.items, dim, hasKey, calls, sha256, rt);
  }

  /** Composed with the Gemini wrapper's own batch (which this module calls without
      options): for a non-empty array that batch always has one entry per text, so it is
      always accepted and the OpenAI loop never runs; an entry that is not an array is
      replaced by the local vector with `opts.dim` as given. */
  lemma GeminiBatchAlwaysAccepted(texts: Json, dim: Option<nat>, s: Gemini.Setup, reply: nat -> Gemini.Http,
                                  hasKey: bool, calls: nat -> OpenAICall,
                                  sha256: string -> Digest, rt: Runtime)
    requires texts.JArr? && texts.items != []
    ensures var g := Gemini.Batch(texts, None, s, reply, sha256, rt);
      g.Ok? && |g.value| == |texts.items| &&
      Batch(texts, dim, g, hasKey, calls, sha256, rt) ==
        seq(|texts.items|, i requires 0 <= i < |texts.items| => Repair(g.value[i], texts.items[i], dim, sha256, rt))
  {
    Gemini.BatchMeaning(texts, None, s, reply, sha256, rt);
  }
}

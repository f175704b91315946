/**
 * The chat message handler of the HTTP app: request check, tokenisation, the keyword
 * gate over the corpus texts, the `k` clamp, and the numbered reply with its references.
 * The corpus texts and the outcome of the vector search are inputs.
 */
module Chat {
  import opened Wrappers
  import opened Js
  import opened Text

  // ---------------------------------------------------------------------------
  // Tokens

  /** `tokenize(text)`: `[]` for a falsy value, otherwise the word tokens of `String(text)`:
      its maximal runs of word characters, lower-cased. */
  function Tokenize(text: Json, rt: Runtime): (r: seq<string>)
    ensures !Truthy(text) ==> r == []
    ensures forall t :: t in r ==> t != "" && AllWord(t) && NoUpper(t)
    ensures Truthy(text) ==> Concat(r) == WordChars(Lower(Display(text, rt)))
    ensures Truthy(text) ==> r == Runs(Lower(Display(text, rt)))
  {
    if !Truthy(text) then []
    else
      WordsAreLowerWords(Display(text, rt));
      Words(Display(text, rt))
  }

  // ---------------------------------------------------------------------------
  // Keyword gate

  /** `String(dt || "").toLowerCase()` */
  function DocLower(dt: Json, rt: Runtime): string
  {
    Lower(Display(Or(dt, JStr("")), rt))
  }

  /** `qTokens.some((t) => t && lower.includes(t))` */
  predicate Matches(dt: Json, qTokens: seq<string>, rt: Runtime)
  {
    exists k :: 0 <= k < |qTokens| && qTokens[k] != "" && Includes(DocLower(dt, rt), qTokens[k])
  }

  /** Which corpus texts contain some query token, position by position. */
  function MatchFlags(docTexts: seq<Json>, qTokens: seq<string>, rt: Runtime): (f: seq<bool>)
    ensures |f| == |docTexts|
  {
    seq(|docTexts|, i requires 0 <= i < |docTexts| => Matches(docTexts[i], qTokens, rt))
  }

  /** The number of `true` entries. */
  function CountTrue(flags: seq<bool>): nat
  {
    if flags == [] then 0
    else CountTrue(flags[..|flags| - 1]) + (if flags[|flags| - 1] then 1 else 0)
  }

  /** The number of corpus texts that contain some query token. */
  function MatchCount(docTexts: seq<Json>, qTokens: seq<string>, rt: Runtime): nat
  {
    CountTrue(MatchFlags(docTexts, qTokens, rt))
  }

  /** The indices of the corpus texts that contain some query token. */
  ghost function MatchingDocs(docTexts: seq<Json>, qTokens: seq<string>, rt: Runtime): set<int>
  {
    set i | 0 <= i < |docTexts| && Matches(docTexts[i], qTokens, rt)
  }

  lemma {:induction false} CountTrueIsCardinality(flags: seq<bool>)
    ensures CountTrue(flags) == |set i | 0 <= i < |flags| && flags[i]|
  {
    if flags != [] {
      var n := |flags| - 1;
      var front := flags[..n];
      CountTrueIsCardinality(front);
      var a := set i | 0 <= i < |front| && front[i];
      var b := set i | 0 <= i < |flags| && flags[i];
      if flags[n] {
        assert b == a + {n};
      } else {
        assert b == a;
      }
    }
  }

  /** The count is exactly the number of matching documents: a document is counted when,
      and only when, its lower-cased text contains one of the query tokens. */
  lemma MatchCountMeaning(docTexts: seq<Json>, qTokens: seq<string>, rt: Runtime)
    ensures MatchCount(docTexts, qTokens, rt) == |MatchingDocs(docTexts, qTokens, rt)|
  {
    var f := MatchFlags(docTexts, qTokens, rt);
    CountTrueIsCardinality(f);
    assert (set i | 0 <= i < |f| && f[i]) == MatchingDocs(docTexts, qTokens, rt);
  }

  lemma {:induction false} CountTrueBounds(flags: seq<bool>)
    ensures CountTrue(flags) <= |flags|
    ensures CountTrue(flags) == 0 <==> forall i :: 0 <= i < |flags| ==> !flags[i]
  {
    if flags != [] {
      var n := |flags| - 1;
      CountTrueBounds(flags[..n]);
      assert forall i :: 0 <= i < n ==> flags[..n][i] == flags[i];
    }
  }

  /** The count lies between 0 and the number of documents, is 0 without query tokens,
      and is 0 exactly when no document contains a query token. */
  lemma MatchCountBounds(docTexts: seq<Json>, qTokens: seq<string>, rt: Runtime)
    ensures 0 <= MatchCount(docTexts, qTokens, rt) <= |docTexts|
    ensures qTokens == [] ==> MatchCount(docTexts, qTokens, rt) == 0
    ensures MatchCount(docTexts, qTokens, rt) == 0 <==>
      forall i :: 0 <= i < |docTexts| ==> !Matches(docTexts[i], qTokens, rt)
  {
    var f := MatchFlags(docTexts, qTokens, rt);
    CountTrueBounds(f);
    assert forall i :: 0 <= i < |docTexts| ==> f[i] == Matches(docTexts[i], qTokens, rt);
  }

  /** The keyword check loop: count the texts in which some query token occurs. */
  method CountDocsWithToken(docTexts: seq<Json>, qTokens: seq<string>, rt: Runtime) returns (docsWithToken: nat)
    ensures docsWithToken == MatchCount(docTexts, qTokens, rt)
  {
    ghost var flags := MatchFlags(docTexts, qTokens, rt);
    docsWithToken := 0;
    if |docTexts| > 0 && |qTokens| > 0 {
      var i := 0;
      while i < |docTexts|
        invariant 0 <= i <= |docTexts|
        invariant docsWithToken == CountTrue(flags[..i])
      {
        assert flags[..i + 1][..i] == flags[..i];
        if Matches(docTexts[i], qTokens, rt) {
          docsWithToken := docsWithToken + 1;
        }
        i := i + 1;
      }
      assert flags[..i] == flags;
    } else {
      MatchCountBounds(docTexts, qTokens, rt);
    }
  }

  // ---------------------------------------------------------------------------
  // Search size

  /** `Number.isFinite(Number(k)) ? Math.max(1, Math.min(20, Number(k))) : 5` */
  function TopK(k: Num): (r: real)
    ensures 1.0 <= r <= 20.0
    ensures k.Finite? && 1.0 <= k.value <= 20.0 ==> r == k.value
    ensures k.Finite? && k.value < 1.0 ==> r == 1.0
    ensures k.Finite? && k.value > 20.0 ==> r == 20.0
    ensures !k.Finite? ==> r == 5.0
  {
    if k.Finite? then
      var m := if k.value < 20.0 then k.value else 20.0;
      if m > 1.0 then m else 1.0
    else 5.0
  }

  /** Clamping an already clamped size changes nothing. */
  lemma TopKIdempotent(k: Num)
    ensures TopK(Finite(TopK(k))) == TopK(k)
  {
  }

  // ---------------------------------------------------------------------------
  // Reply text

  /** `d.meta?.title || d.meta?.original?.title || "Untitled"` */
  function Title(d: Json): Json
  {
    var meta := Prop(d, "meta");
    Or(Or(Prop(meta, "title"), Prop(Prop(meta, "original"), "title")), JStr("Untitled"))
  }

  /** The title is the first truthy of `meta.title` and `meta.original.title`, else
      "Untitled"; so it is never empty. */
  lemma TitleFallback(d: Json)
    ensures Truthy(Title(d))
    ensures Truthy(Prop(Prop(d, "meta"), "title")) ==> Title(d) == Prop(Prop(d, "meta"), "title")
    ensures !Truthy(Prop(Prop(d, "meta"), "title")) && Truthy(Prop(Prop(Prop(d, "meta"), "original"), "title")) ==>
      Title(d) == Prop(Prop(Prop(d, "meta"), "original"), "title")
    ensures !Truthy(Prop(Prop(d, "meta"), "title")) && !Truthy(Prop(Prop(Prop(d, "meta"), "original"), "title")) ==>
      Title(d) == JStr("Untitled")
  {
  }

  /** `d.meta?.url || d.meta?.original?.url || missing` */
  function Url(d: Json, missing: Json): Json
  {
    var meta := Prop(d, "meta");
    Or(Or(Prop(meta, "url"), Prop(Prop(meta, "original"), "url")), missing)
  }

  /** The url is `meta.url` when that is truthy, else `meta.original.url` when that is,
      else the given stand-in (`null` in the items, "#" in the references). */
  lemma UrlFallback(d: Json, missing: Json)
    ensures Truthy(Url(d, missing)) || Url(d, missing) == missing
    ensures Truthy(Prop(Prop(d, "meta"), "url")) ==> Url(d, missing) == Prop(Prop(d, "meta"), "url")
    ensures !Truthy(Prop(Prop(d, "meta"), "url")) && Truthy(Prop(Prop(Prop(d, "meta"), "original"), "url")) ==>
      Url(d, missing) == Prop(Prop(Prop(d, "meta"), "original"), "url")
    ensures !Truthy(Prop(Prop(d, "meta"), "url")) && !Truthy(Prop(Prop(Prop(d, "meta"), "original"), "url")) ==>
      Url(d, missing) == missing
  {
  }

  /** A result the formatting loops can print without a TypeError: not `null`/`undefined`,
      and `d.text || ""` is a string. */
  predicate Printable(d: Json)
  {
    !Nullish(d) && Or(Prop(d, "text"), JStr("")).JStr?
  }

  /** `d.text || ""` when that is a string (the handler answers with an error otherwise). */
  function TextOf(d: Json): string
  {
    var t := Or(Prop(d, "text"), JStr(""));
    if t.JStr? then t.s else ""
  }

  /** `(d.text || "").replace(/\s+/g, " ").trim().slice(0, 280)` */
  function Snippet(d: Json): string
  {
    Take(Normalize(TextOf(d)), 280)
  }

  /** The snippet is at most 280 characters of the whitespace-collapsed, trimmed text: it
      starts with no white space, has no white space other than single spaces, and is the
      whole collapsed text when that fits. */
  lemma SnippetShape(d: Json)
    ensures |Snippet(d)| <= 280 && Tidy(Snippet(d))
    ensures Snippet(d) != [] ==> !IsSpace(Snippet(d)[0])
    ensures Snippet(d) <= Normalize(TextOf(d))
    ensures |Normalize(TextOf(d))| <= 280 ==> Snippet(d) == Normalize(TextOf(d))
  {
    var n := Normalize(TextOf(d));
    NormalizeShape(TextOf(d));
    TidySlice(n, 0, |Take(n, 280)|);
    assert Take(n, 280) == n[0..|Take(n, 280)|];
  }

  /** The line for the result at position `i` (numbered `i + 1`). */
  function ItemText(i: nat, d: Json, rt: Runtime): string
  {
    var url := Url(d, JNull);
    NatToString(i + 1) + ". " + Display(Title(d), rt) + (if Truthy(url) then " - " + Display(url, rt) else "")
      + "\n   " + Snippet(d) + "\n\n"
  }

  /** The numbered item lines, the one at position `i` numbered `i + 1`. */
  function ItemLines(docs: seq<Json>, rt: Runtime): (r: seq<string>)
    ensures |r| == |docs|
  {
    seq(|docs|, i requires 0 <= i < |docs| => ItemText(i, docs[i], rt))
  }

  /** The reference line of one result; a missing url prints as "#". */
  function RefText(d: Json, rt: Runtime): string
  {
    "• " + Display(Title(d), rt) + " — " + Display(Url(d, JStr("#")), rt) + "\n"
  }

  function RefLines(docs: seq<Json>, rt: Runtime): (r: seq<string>)
    ensures |r| == |docs|
  {
    seq(|docs|, i requires 0 <= i < |docs| => RefText(docs[i], rt))
  }

  function CountLine(n: nat): string
  {
    "I searched my documents and found " + NatToString(n) + " result(s):\n\n"
  }

  const Closing: string :=
    "If you'd like, ask me to summarize a specific document or expand on any item above.\n\nReferences:\n"

  const NoMatchReply: string :=
    "Hi — I couldn't find any documents that match those words. Try asking about a topic or phrase that appears in the news."

  const NoResultsReply: string :=
    "I couldn't find any documents matching your query. Try a different phrasing."

  /** The whole reply for a non-empty result list. */
  function ReplyText(docs: seq<Json>, rt: Runtime): string
  {
    CountLine(|docs|) + Concat(ItemLines(docs, rt)) + Closing + Concat(RefLines(docs, rt))
  }

  /** The reply opens with the count line, then item `i` is the line numbered `i + 1` for
      the `i`-th result, in order. */
  lemma ReplyLayout(docs: seq<Json>, rt: Runtime, i: int)
    requires 0 <= i < |docs|
    ensures var lines := ItemLines(docs, rt);
      ReplyText(docs, rt) == CountLine(|docs|) + Concat(lines[..i]) + lines[i]
        + (Concat(lines[i + 1..]) + Closing + Concat(RefLines(docs, rt)))
  {
    var lines, head, refs := ItemLines(docs, rt), CountLine(|docs|), Concat(RefLines(docs, rt));
    calc {
      ReplyText(docs, rt);
      head + Concat(lines) + Closing + refs;
      { AppendAssoc(head + Concat(lines), Closing, refs); }
      head + Concat(lines) + (Closing + refs);
      { ConcatLayout(head, lines, i, Closing + refs); }
      head + Concat(lines[..i]) + lines[i] + (Concat(lines[i + 1..]) + (Closing + refs));
      { AppendAssoc(Concat(lines[i + 1..]), Closing, refs); }
      head + Concat(lines[..i]) + lines[i] + (Concat(lines[i + 1..]) + Closing + refs);
    }
  }

  /** The two `forEach` loops that build the reply with `reply +=`. */
  method FormatReply(docs: seq<Json>, rt: Runtime) returns (reply: string)
    ensures reply == ReplyText(docs, rt)
  {
    reply := CountLine(|docs|);
    reply := AppendEach(reply, ItemLines(docs, rt));
    reply := reply + Closing;
    reply := AppendEach(reply, RefLines(docs, rt));
  }

  // ---------------------------------------------------------------------------
  // The handler

  /** What `vs.search(message, topK)` did: the module may lack the export, the call may
      throw, or it returns the documents. */
  datatype SearchOutcome = NoSearchExport | SearchThrew | SearchReturned(docs: seq<Json>)

  /** The JSON response; `searchLimit` is the `topK` the handler reached the search with. */
  datatype ChatResponse =
    | BadRequest(error: string)
    | Answer(reply: string, docs: seq<Json>, searchLimit: Option<real>)
    | ServerError(error: string)

  /** POST /api/chat/message, from reading the body to the JSON reply. */
  method HandleMessage(body: Json, docTexts: seq<Json>, search: SearchOutcome, rt: Runtime)
    returns (resp: ChatResponse)
    ensures var b := Or(body, JObj([], []));
      !Truthy(Prop(b, "sessionId")) || Prop(b, "message").JUndefined? <==> resp == BadRequest("sessionId and message required")
    ensures var b := Or(body, JObj([], []));
      Truthy(Prop(b, "sessionId")) && !Prop(b, "message").JUndefined? &&
      |docTexts| > 0 && MatchCount(docTexts, Tokenize(Prop(b, "message"), rt), rt) == 0 ==>
        resp == Answer(NoMatchReply, [], None)
    ensures var b := Or(body, JObj([], []));
      var topK := TopK(ToNumber(Prop(b, "k"), rt));
      Truthy(Prop(b, "sessionId")) && !Prop(b, "message").JUndefined? &&
      !(|docTexts| > 0 && MatchCount(docTexts, Tokenize(Prop(b, "message"), rt), rt) == 0) ==>
        (&& (!(search.SearchReturned? && search.docs != []) ==> resp == Answer(NoResultsReply, [], Some(topK)))
         && (search.SearchReturned? && search.docs != [] ==>
               && (resp.ServerError? <==> exists i :: 0 <= i < |search.docs| && !Printable(search.docs[i]))
               && (resp.ServerError? ==> resp == ServerError("failed to process message"))
               && (!resp.ServerError? ==> resp == Answer(ReplyText(search.docs, rt), search.docs, Some(topK)))))
    ensures resp.Answer? && resp.searchLimit.Some? ==> 1.0 <= resp.searchLimit.value <= 20.0
    ensures resp.Answer? && resp.docs != [] ==>
      (forall i :: 0 <= i < |resp.docs| ==> Printable(resp.docs[i])) && resp.reply == ReplyText(resp.docs, rt)
  {
    var b := Or(body, JObj([], []));
    var sessionId, message, k := Prop(b, "sessionId"), Prop(b, "message"), Prop(b, "k");
    if !Truthy(sessionId) || message.JUndefined? {
      return BadRequest("sessionId and message required");
    }
    var qTokens := Tokenize(message, rt);
    var docsWithToken := CountDocsWithToken(docTexts, qTokens, rt);
    if |docTexts| > 0 && docsWithToken == 0 {
      return Answer(NoMatchReply, [], None);
    }
    var topK := TopK(ToNumber(k, rt));
    var docs: seq<Json> := [];
    if search.SearchReturned? {
      docs := search.docs;
    }
    if docs == [] {
      return Answer(NoResultsReply, [], Some(topK));
    }
    if exists i :: 0 <= i < |docs| && !Printable(docs[i]) {
      return ServerError("failed to process message");
    }
    var reply := FormatReply(docs, rt);
    resp := Answer(reply, docs, Some(topK));
  }
}

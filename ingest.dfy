/**
 * News ingestion: the accepted shapes of the articles file, the article-to-document
 * normalisation, and the loop that sends the documents to the store in consecutive
 * batches of 32, carrying on past a failed batch.
 *
 * Reading the file, `JSON.parse`, `uuidv4`, the store's `initVector` and
 * `upsertDocuments` are not modelled; each is given what it came to.
 */
module Ingest {
  import opened Wrappers
  import opened Js
  import opened Text

  const BatchSize: nat := 32
  const FormatNotRecognized: string := "news_articles.json format not recognized. Expecting an array."

  /** `loadArticles()` on the parsed file: a top-level array, or the `articles` array of
      an object; anything else is refused. */
  function LoadArticles(parsed: Json): (r: Result<seq<Json>, Exception>)
    ensures parsed.JArr? ==> r == Ok(parsed.items)
    ensures !parsed.JArr? && Prop(parsed, "articles").JArr? ==> r == Ok(Prop(parsed, "articles").items)
    ensures r.Err? <==> !parsed.JArr? && !Prop(parsed, "articles").JArr?
    ensures r.Err? ==> r.error == Error(FormatNotRecognized)
  {
    if parsed.JArr? then Ok(parsed.items)
    else if Truthy(parsed) && Prop(parsed, "articles").JArr? then Ok(Prop(parsed, "articles").items)
    else Err(Error(FormatNotRecognized))
  }

  /** `a.title || a.headline || ""` */
  function TitleOf(a: Json): Json
  {
    Or(Or(Prop(a, "title"), Prop(a, "headline")), JStr(""))
  }

  /** `a.text || a.content || a.body || a.summary || ""` */
  function ContentOf(a: Json): Json
  {
    Or(Or(Or(Or(Prop(a, "text"), Prop(a, "content")), Prop(a, "body")), Prop(a, "summary")), JStr(""))
  }

  /** The first truthy value of a fallback chain, or the last entry when none is. */
  function FirstTruthy(vs: seq<Json>): (r: Json)
    requires vs != []
  {
    if |vs| == 1 || Truthy(vs[0]) then vs[0] else FirstTruthy(vs[1..])
  }

  lemma {:induction false} FirstTruthyMeaning(vs: seq<Json>, k: int)
    requires 0 <= k < |vs|
    requires forall j :: 0 <= j < k ==> !Truthy(vs[j])
    requires Truthy(vs[k]) || k == |vs| - 1
    ensures FirstTruthy(vs) == vs[k]
  {
    if k > 0 {
      FirstTruthyMeaning(vs[1..], k - 1);
    }
  }

  /** The title and content chains pick the first truthy field in their order, falling
      back to "". */
  lemma ChainsPickFirstTruthy(a: Json)
    ensures TitleOf(a) == FirstTruthy([Prop(a, "title"), Prop(a, "headline"), JStr("")])
    ensures ContentOf(a) ==
      FirstTruthy([Prop(a, "text"), Prop(a, "content"), Prop(a, "body"), Prop(a, "summary"), JStr("")])
  {
    var ts := [Prop(a, "title"), Prop(a, "headline"), JStr("")];
    if Truthy(ts[0]) {
      FirstTruthyMeaning(ts, 0);
    } else if Truthy(ts[1]) {
      FirstTruthyMeaning(ts, 1);
    } else {
      FirstTruthyMeaning(ts, 2);
    }
    var cs := [Prop(a, "text"), Prop(a, "content"), Prop(a, "body"), Prop(a, "summary"), JStr("")];
    if Truthy(cs[0]) {
      FirstTruthyMeaning(cs, 0);
    } else if Truthy(cs[1]) {
      FirstTruthyMeaning(cs, 1);
    } else if Truthy(cs[2]) {
      FirstTruthyMeaning(cs, 2);
    } else if Truthy(cs[3]) {
      FirstTruthyMeaning(cs, 3);
    } else {
      FirstTruthyMeaning(cs, 4);
    }
  }

  /** `` `${title}\n\n${content}`.trim() `` */
  function DocText(a: Json, rt: Runtime): string
  {
    Trim(Display(TitleOf(a), rt) + "\n\n" + Display(ContentOf(a), rt))
  }

  /** The document object `{ id, text, meta }`. */
  function DocOf(id: Json, text: string, meta: Json): Json
  {
    JObj(["id", "text", "meta"], [id, JStr(text), meta])
  }

  /** The meta object `{ title, url, publishedAt, original }`. */
  function MetaOf(title: Json, url: Json, publishedAt: Json, original: Json): Json
  {
    JObj(["title", "url", "publishedAt", "original"], [title, url, publishedAt, original])
  }

  lemma DocOfFields(id: Json, text: string, meta: Json)
    ensures Prop(DocOf(id, text, meta), "id") == id
    ensures Prop(DocOf(id, text, meta), "text") == JStr(text)
    ensures Prop(DocOf(id, text, meta), "meta") == meta
  {
    var ks, vs := ["id", "text", "meta"], [id, JStr(text), meta];
    assert |ks[0]| != |"text"| && |ks[0]| != |"meta"| && ks[1][0] != "meta"[0];
    LookupAt(ks, vs, "id", 0);
    LookupAt(ks, vs, "text", 1);
    LookupAt(ks, vs, "meta", 2);
  }

  lemma MetaOfFields(title: Json, url: Json, publishedAt: Json, original: Json)
    ensures Prop(MetaOf(title, url, publishedAt, original), "title") == title
    ensures Prop(MetaOf(title, url, publishedAt, original), "url") == url
    ensures Prop(MetaOf(title, url, publishedAt, original), "publishedAt") == publishedAt
    ensures Prop(MetaOf(title, url, publishedAt, original), "original") == original
  {
    var ks, vs := ["title", "url", "publishedAt", "original"], [title, url, publishedAt, original];
    assert |ks[0]| == 5 && |ks[1]| == 3 && |ks[2]| == 11 && |ks[3]| == 8;
    LookupAt(ks, vs, "title", 0);
    LookupAt(ks, vs, "url", 1);
    LookupAt(ks, vs, "publishedAt", 2);
    LookupAt(ks, vs, "original", 3);
  }

  /** `makeDocFromArticle(a)`; `freshId` is what `uuidv4()` would return, used only when
      `a.id` is falsy. Reading a field of a `null`/`undefined` article throws. */
  function MakeDoc(a: Json, freshId: string, rt: Runtime): Result<Json, Exception>
  {
    if Nullish(a) then Err(TypeError)
    else
      var meta := MetaOf(TitleOf(a), Or(Or(Prop(a, "url"), Prop(a, "source_url")), JNull),
                         Or(Or(Prop(a, "publishedAt"), Prop(a, "date")), JNull), a);
      Ok(DocOf(Or(Prop(a, "id"), JStr(freshId)), DocText(a, rt), meta))
  }

  /** A document is made for every article but `null`/`undefined`; it keeps a truthy
      `a.id`, else takes the fresh id. */
  lemma MakeDocId(a: Json, freshId: string, rt: Runtime)
    ensures MakeDoc(a, freshId, rt).Err? <==> Nullish(a)
    ensures !Nullish(a) ==>
      var d := MakeDoc(a, freshId, rt).value;
      (Truthy(Prop(a, "id")) ==> Prop(d, "id") == Prop(a, "id")) &&
      (!Truthy(Prop(a, "id")) ==> Prop(d, "id") == JStr(freshId))
  {
    if !Nullish(a) {
      DocOfFields(Or(Prop(a, "id"), JStr(freshId)), DocText(a, rt), MakeDoc(a, freshId, rt).value.vals[2]);
    }
  }

  /** The document's text is the title and the content joined by a blank line, with the
      white space at both ends removed and nothing else changed. */
  lemma MakeDocText(a: Json, freshId: string, rt: Runtime)
    requires !Nullish(a)
    ensures var t := Prop(MakeDoc(a, freshId, rt).value, "text");
      t.JStr? && (exists i :: Pads(Display(TitleOf(a), rt) + "\n\n" + Display(ContentOf(a), rt), t.s, i))
    ensures var t := Prop(MakeDoc(a, freshId, rt).value, "text");
      t.JStr? && (t.s != [] ==> !IsSpace(t.s[0]) && !IsSpace(t.s[|t.s| - 1]))
  {
    var d := MakeDoc(a, freshId, rt).value;
    DocOfFields(d.vals[0], DocText(a, rt), d.vals[2]);
  }

  /** `x || y || z` is the first truthy of the three, else `z`. */
  lemma OrChain(x: Json, y: Json, z: Json)
    ensures Or(Or(x, y), z) == FirstTruthy([x, y, z])
  {
    var vs := [x, y, z];
    if Truthy(x) {
      FirstTruthyMeaning(vs, 0);
    } else if Truthy(y) {
      FirstTruthyMeaning(vs, 1);
    } else {
      FirstTruthyMeaning(vs, 2);
    }
  }

  /** The meta keeps the title chain, the url chain `url || source_url || null`, the date
      chain `publishedAt || date || null` and the article itself, unmodified. */
  lemma MakeDocMeta(a: Json, freshId: string, rt: Runtime)
    requires !Nullish(a)
    ensures var meta := Prop(MakeDoc(a, freshId, rt).value, "meta");
      && Prop(meta, "title") == TitleOf(a) && Prop(meta, "original") == a
      && Prop(meta, "url") == FirstTruthy([Prop(a, "url"), Prop(a, "source_url"), JNull])
      && Prop(meta, "publishedAt") == FirstTruthy([Prop(a, "publishedAt"), Prop(a, "date"), JNull])
      && (Truthy(Prop(meta, "url")) || Prop(meta, "url") == JNull)
      && (Truthy(Prop(meta, "publishedAt")) || Prop(meta, "publishedAt") == JNull)
  {
    var d := MakeDoc(a, freshId, rt).value;
    DocOfFields(d.vals[0], DocText(a, rt), d.vals[2]);
    var m := d.vals[2];
    MetaOfFields(m.vals[0], m.vals[1], m.vals[2], a);
    OrChain(Prop(a, "url"), Prop(a, "source_url"), JNull);
    OrChain(Prop(a, "publishedAt"), Prop(a, "date"), JNull);
  }

  /** `articles.map(makeDocFromArticle)`: the first `null`/`undefined` article aborts it;
      `freshIds(i)` is the id `uuidv4()` would give the `i`-th article. */
  function MakeDocs(articles: seq<Json>, freshIds: nat -> string, rt: Runtime): (r: Result<seq<Json>, Exception>)
    ensures r.Err? <==> exists i :: 0 <= i < |articles| && Nullish(articles[i])
    ensures r.Ok? ==> |r.value| == |articles|
    ensures r.Ok? ==> forall i :: 0 <= i < |articles| ==> Ok(r.value[i]) == MakeDoc(articles[i], freshIds(i), rt)
  {
    if exists i :: 0 <= i < |articles| && Nullish(articles[i]) then Err(TypeError)
    else Ok(seq(|articles|, i requires 0 <= i < |articles| => MakeDoc(articles[i], freshIds(i), rt).value))
  }

  // ---------------------------------------------------------------------------
  // Batches

  function Min(a: int, b: int): int
  {
    if a <= b then a else b
  }

  /** `docs.slice(i, i + 32)` for each `i = 0, 32, 64, ...` below `docs.length`. */
  function BatchesFrom(docs: seq<Json>, i: nat): seq<seq<Json>>
    decreases |docs| - i
  {
    if i >= |docs| then []
    else [docs[i..Min(i + BatchSize, |docs|)]] + BatchesFrom(docs, i + BatchSize)
  }

  function Batches(docs: seq<Json>): seq<seq<Json>>
  {
    BatchesFrom(docs, 0)
  }

  function Flatten(bs: seq<seq<Json>>): seq<Json>
  {
    if bs == [] then [] else bs[0] + Flatten(bs[1..])
  }

  /** From offset `i`, the batches are non-empty, hold at most 32 documents, all but the
      last hold exactly 32, and put back together they are the documents from `i` on. */
  lemma {:induction false} BatchesFromShape(docs: seq<Json>, i: nat)
    requires i <= |docs|
    ensures Flatten(BatchesFrom(docs, i)) == docs[i..]
    ensures forall k :: 0 <= k < |BatchesFrom(docs, i)| ==>
      0 < |BatchesFrom(docs, i)[k]| <= BatchSize
    ensures forall k :: 0 <= k < |BatchesFrom(docs, i)| - 1 ==> |BatchesFrom(docs, i)[k]| == BatchSize
    decreases |docs| - i
  {
    if i < |docs| {
      var j := Min(i + BatchSize, |docs|);
      var rest := BatchesFrom(docs, i + BatchSize);
      if i + BatchSize <= |docs| {
        BatchesFromShape(docs, i + BatchSize);
        assert docs[i..] == docs[i..j] + docs[j..];
      } else {
        assert rest == [];
      }
      assert BatchesFrom(docs, i) == [docs[i..j]] + rest;
      assert BatchesFrom(docs, i)[1..] == rest;
    }
  }

  /** The batches of all the documents: consecutive, in order, at most 32 each, only the
      last one shorter, and as many as `ceil(n / 32)`. */
  lemma BatchesShape(docs: seq<Json>)
    ensures Flatten(Batches(docs)) == docs
    ensures forall k :: 0 <= k < |Batches(docs)| ==> 0 < |Batches(docs)[k]| <= BatchSize
    ensures forall k :: 0 <= k < |Batches(docs)| - 1 ==> |Batches(docs)[k]| == BatchSize
    ensures |Batches(docs)| == (|docs| + BatchSize - 1) / BatchSize
  {
    BatchesFromShape(docs, 0);
    BatchesFromCount(docs, 0);
  }

  lemma {:induction false} BatchesFromCount(docs: seq<Json>, i: nat)
    requires i <= |docs|
    ensures |BatchesFrom(docs, i)| == (|docs| - i + BatchSize - 1) / BatchSize
    decreases |docs| - i
  {
    if i < |docs| && i + BatchSize <= |docs| {
      BatchesFromCount(docs, i + BatchSize);
    }
  }

  /** What the store kept from offset `i` on: the batches whose upsert succeeded, in
      order; `upsertOk(i)` is what the upsert of the batch starting at `i` came to. */
  function StoredFrom(docs: seq<Json>, i: nat, upsertOk: nat -> bool): seq<Json>
    decreases |docs| - i
  {
    if i >= |docs| then []
    else
      var kept := if upsertOk(i) then docs[i..Min(i + BatchSize, |docs|)] else [];
      kept + StoredFrom(docs, i + BatchSize, upsertOk)
  }

  /** When every upsert succeeds every document is stored, in order; when none does,
      nothing is. */
  lemma {:induction false} StoredFromAll(docs: seq<Json>, i: nat, upsertOk: nat -> bool)
    requires i <= |docs|
    ensures (forall j :: upsertOk(j)) ==> StoredFrom(docs, i, upsertOk) == docs[i..]
    ensures (forall j :: !upsertOk(j)) ==> StoredFrom(docs, i, upsertOk) == []
    decreases |docs| - i
  {
    if i < |docs| {
      var j := Min(i + BatchSize, |docs|);
      if i + BatchSize <= |docs| {
        StoredFromAll(docs, i + BatchSize, upsertOk);
        assert docs[i..] == docs[i..j] + docs[j..];
      }
    }
  }

  /** The upsert loop: one call per batch in order; a failed call is logged and the loop
      goes on with the next batch. */
  method UpsertInBatches(docs: seq<Json>, upsertOk: nat -> bool) returns (sent: seq<seq<Json>>, stored: seq<Json>)
    ensures sent == Batches(docs)
    ensures stored == StoredFrom(docs, 0, upsertOk)
  {
    sent, stored := [], [];
    var i := 0;
    while i < |docs|
      invariant sent + BatchesFrom(docs, i) == Batches(docs)
      invariant stored + StoredFrom(docs, i, upsertOk) == StoredFrom(docs, 0, upsertOk)
      decreases |docs| - i
    {
      var batch := docs[i..Min(i + BatchSize, |docs|)];
      assert BatchesFrom(docs, i) == [batch] + BatchesFrom(docs, i + BatchSize);
      sent := sent + [batch];
      if upsertOk(i) {
        stored := stored + batch;
      }
      i := i + BatchSize;
    }
  }

  /** The script's exit code, the batches it sent and what the store kept. */
  datatype Run = Run(exitCode: int, sent: seq<seq<Json>>, stored: seq<Json>)

  /** `main()`: load, initialise the store, build the documents, upsert them in batches;
      a failure before the loop exits with 1, the loop itself always finishes with 0.
      `file` is what reading and parsing the articles file came to. */
  method RunIngestion(file: Result<Json, Exception>, initOk: bool, freshIds: nat -> string,
               upsertOk: nat -> bool, rt: Runtime) returns (run: Run)
    ensures run.exitCode == 0 || run.exitCode == 1
    ensures run.exitCode == 0 <==>
      file.Ok? && LoadArticles(file.value).Ok? && initOk && MakeDocs(LoadArticles(file.value).value, freshIds, rt).Ok?
    ensures run.exitCode == 0 ==>
      var docs := MakeDocs(LoadArticles(file.value).value, freshIds, rt).value;
      run.sent == Batches(docs) && run.stored == StoredFrom(docs, 0, upsertOk)
    ensures run.exitCode == 1 ==> run.sent == [] && run.stored == []
  {
    if file.Err? {
      return Run(1, [], []);
    }
    var articles := LoadArticles(file.value);
    if articles.Err? || !initOk {
      return Run(1, [], []);
    }
    var docs := MakeDocs(articles.value, freshIds, rt);
    if docs.Err? {
      return Run(1, [], []);
    }
    var sent, stored := UpsertInBatches(docs.value, upsertOk);
    run := Run(0, sent, stored);
  }
}

/**
 * The store dump script: it reads the persisted vector store, and for each stored document
 * it prints a numbered entry with its id, its title and url when it has them, and a
 * snippet of its text.
 *
 * Reading the file, `JSON.parse` and initialising the vector service are parameters. The
 * script's standard output is modelled as a sequence of lines; what it writes to standard
 * error is not.
 */
module Dump {
  import opened Wrappers
  import opened Js
  import opened Text

  const SnippetLimit: nat := 240

  /** One stored document as the script lists it. */
  datatype Record = Record(number: nat, id: Json, title: Json, url: Json, snippet: string)

  /** `text.length > 240 ? text.slice(0, 240)` normalised `+ "..."` : `text` normalised. */
  function Snippet(s: string): string
  {
    if |s| > SnippetLimit then Normalize(s[..SnippetLimit]) + "..." else Normalize(s)
  }

  /** A snippet is the first 240 characters normalised: only single spaces inside and none
      at either end, with every other character kept in order. An ellipsis is added exactly
      when the text was cut, so a snippet is at most 243 characters long. */
  lemma SnippetShape(s: string)
    ensures var body := Normalize(Take(s, SnippetLimit));
      && Snippet(s) == body + (if |s| > SnippetLimit then "..." else "")
      && |body| <= SnippetLimit
      && Tidy(body)
      && (body != [] ==> !IsSpace(body[0]) && !IsSpace(body[|body| - 1]))
      && Visible(body) == Visible(Take(s, SnippetLimit))
    ensures |Snippet(s)| <= SnippetLimit + 3
    ensures |s| <= SnippetLimit ==> Visible(Snippet(s)) == Visible(s)
  {
    var t := Take(s, SnippetLimit);
    NormalizeShape(t);
    NormalizeShorter(t);
  }

  /** The first truthy of `meta.k` and `meta.original.k`, else "". A falsy `meta` has no
      properties, so `d.meta && d.meta.k` under `||` behaves as `meta?.k`. */
  function MetaField(meta: Json, k: string): (r: Json)
    ensures Truthy(Prop(meta, k)) ==> r == Prop(meta, k)
    ensures !Truthy(Prop(meta, k)) && Truthy(Prop(Prop(meta, "original"), k)) ==>
      r == Prop(Prop(meta, "original"), k)
    ensures !Truthy(Prop(meta, k)) && !Truthy(Prop(Prop(meta, "original"), k)) ==> r == JStr("")
  {
    Or(Or(Prop(meta, k), Prop(Prop(meta, "original"), k)), JStr(""))
  }

  /** The body of the `forEach` callback for document `d` at index `i`, up to the printing:
      reading `d.id` of a `null` entry throws, and so does `replace` on a text that is not
      a string. */
  function RecordOf(d: Json, i: nat): Result<Record, Exception>
  {
    if Nullish(d) then Err(TypeError)
    else
      var meta := Prop(d, "meta");
      var id := Or(Prop(d, "id"), JStr("doc-" + NatToString(i + 1)));
      var text := TextOf(d);
      if !text.JStr? then Err(TypeError)
      else Ok(Record(i + 1, id, MetaField(meta, "title"), MetaField(meta, "url"), Snippet(text.s)))
  }

  /** The text a document is listed with: its own, else its original's, else "". */
  function TextOf(d: Json): Json
  {
    Or(Or(Prop(d, "text"), Prop(Prop(Prop(d, "meta"), "original"), "text")), JStr(""))
  }

  /** A document fails exactly when it is `null` or its text is truthy but not a string;
      otherwise it is numbered from 1, keeps a truthy id or gets `doc-<number>`, and its
      snippet is that of its text. */
  lemma RecordOfMeaning(d: Json, i: nat)
    ensures RecordOf(d, i).Err? <==> Nullish(d) || !TextOf(d).JStr?
    ensures RecordOf(d, i).Err? ==> RecordOf(d, i).error == TypeError
    ensures RecordOf(d, i).Ok? ==>
      && RecordOf(d, i).value.number == i + 1
      && (Truthy(Prop(d, "id")) ==> RecordOf(d, i).value.id == Prop(d, "id"))
      && (!Truthy(Prop(d, "id")) ==> RecordOf(d, i).value.id == JStr("doc-" + NatToString(i + 1)))
      && RecordOf(d, i).value.title == MetaField(Prop(d, "meta"), "title")
      && RecordOf(d, i).value.url == MetaField(Prop(d, "meta"), "url")
      && RecordOf(d, i).value.snippet == Snippet(TextOf(d).s)
    ensures !Nullish(d) && !Truthy(Prop(d, "text")) && !Truthy(Prop(Prop(Prop(d, "meta"), "original"), "text")) ==>
      RecordOf(d, i).Ok? && RecordOf(d, i).value.snippet == ""
  {
    if !Nullish(d) && !Truthy(Prop(d, "text")) && !Truthy(Prop(Prop(Prop(d, "meta"), "original"), "text")) {
      assert TextOf(d) == JStr("");
      assert Normalize("") == "" by {
        assert Collapse("") == "";
        assert TrimStart("") == "";
      }
    }
  }

  const Separator: string := "----"

  /** The lines printed for one document: the numbered id line, the title and url lines
      when those are truthy, the snippet line and a separator. */
  function RecordLines(r: Record, rt: Runtime): seq<string>
  {
    [NatToString(r.number) + ") id: " + Display(r.id, rt)]
    + (if Truthy(r.title) then ["   title: " + Display(r.title, rt)] else [])
    + (if Truthy(r.url) then ["   url: " + Display(r.url, rt)] else [])
    + ["   snippet: " + r.snippet, Separator]
  }

  /** A document's entry starts with its id line and ends with the separator, and has a
      title (url) line exactly when its title (url) is truthy. */
  lemma RecordLinesShape(r: Record, rt: Runtime)
    ensures var ls := RecordLines(r, rt);
      && 3 <= |ls| <= 5
      && ls[0] == NatToString(r.number) + ") id: " + Display(r.id, rt)
      && ls[|ls| - 1] == Separator
      && ls[|ls| - 2] == "   snippet: " + r.snippet
      && |ls| == 3 + (if Truthy(r.title) then 1 else 0) + (if Truthy(r.url) then 1 else 0)
      && (Truthy(r.title) ==> ls[1] == "   title: " + Display(r.title, rt))
      && (Truthy(r.url) ==> ls[|ls| - 3] == "   url: " + Display(r.url, rt))
  {
  }

  /** The entries of a run of documents, one after the other. */
  function Listing(rs: seq<Record>, rt: Runtime): seq<string>
  {
    if rs == [] then [] else RecordLines(rs[0], rt) + Listing(rs[1..], rt)
  }

  /** What the callback makes of each document, in order. */
  function Outcomes(docs: seq<Json>): (os: seq<Result<Record, Exception>>)
    ensures |os| == |docs|
    ensures forall j :: 0 <= j < |docs| ==> os[j] == RecordOf(docs[j], j)
  {
    seq(|docs|, j requires 0 <= j < |docs| => RecordOf(docs[j], j))
  }

  /** How many outcomes, from `from` on, succeed before the first that throws. */
  function OkRun(os: seq<Result<Record, Exception>>, from: nat): (n: nat)
    requires from <= |os|
    ensures from + n <= |os|
    ensures forall j :: from <= j < from + n ==> os[j].Ok?
    ensures from + n < |os| ==> os[from + n].Err?
    decreases |os| - from
  {
    if from == |os| || os[from].Err? then 0 else 1 + OkRun(os, from + 1)
  }

  /** The records of the first `n` outcomes, all of which succeeded. */
  function Oks(os: seq<Result<Record, Exception>>, n: nat): (rs: seq<Record>)
    requires n <= |os|
    requires forall j :: 0 <= j < n ==> os[j].Ok?
    ensures |rs| == n
  {
    seq(n, j requires 0 <= j < n => os[j].value)
  }

  const Initialized: string := "[dumpStore] vector service initialized (loaded persisted store if present)"
  const NoStoreHint: string := "[dumpStore] If you just ran ingestNews.js, ensure it completed successfully."
  const EmptyOrMalformed: string := "[dumpStore] persisted store is empty or malformed."

  /** What the script leaves behind: its exit code and the lines it printed. */
  datatype Run = Run(exitCode: nat, out: seq<string>)

  /** `main()`. `initOk` says whether initialising the vector service succeeded, `raw` is
      what reading the store file gave (`None` when the read failed), `parse` is
      `JSON.parse` (`None` when it throws) and `path` the resolved file name. */
  function Main(initOk: bool, raw: Option<string>, parse: string -> Option<Json>, path: string,
                rt: Runtime): Run
  {
    if !initOk then Run(1, [])
    else if raw.None? || raw.value == "" then
      Run(0, [Initialized, "[dumpStore] no persisted store found at " + path, NoStoreHint])
    else
      var parsed := parse(raw.value);
      if parsed.None? then Run(1, [Initialized])
      else if !parsed.value.JArr? || parsed.value.items == [] then Run(0, [Initialized, EmptyOrMalformed])
      else
        var docs := parsed.value.items;
        var os := Outcomes(docs);
        var n := OkRun(os, 0);
        var head := [Initialized, "[dumpStore] loaded " + NatToString(|docs|) + " docs from " + path, Separator];
        Run(if n == |docs| then 0 else 1, head + Listing(Oks(os, n), rt))
  }

  /** The script fails (exit code 1) exactly when initialisation fails, the file is not
      JSON, or some document makes the callback throw; a missing, empty or non-list store
      is not a failure. When it lists, it lists the documents before the first one that
      throws, in order, each as its own entry. */
  lemma MainMeaning(initOk: bool, raw: Option<string>, parse: string -> Option<Json>, path: string,
                    rt: Runtime)
    ensures var run := Main(initOk, raw, parse, path, rt);
      run.exitCode == 1 <==>
        (|| !initOk
         || (raw.Some? && raw.value != "" &&
             (|| parse(raw.value).None?
              || (&& parse(raw.value).value.JArr?
                  && exists j :: 0 <= j < |parse(raw.value).value.items| &&
                       RecordOf(parse(raw.value).value.items[j], j).Err?))))
    ensures Main(initOk, raw, parse, path, rt).exitCode <= 1
    ensures initOk && (raw.None? || raw.value == "") ==> Main(initOk, raw, parse, path, rt).exitCode == 0
  {
    if initOk && raw.Some? && raw.value != "" && parse(raw.value).Some? {
      var v := parse(raw.value).value;
      if v.JArr? && v.items != [] {
        var os := Outcomes(v.items);
        var n := OkRun(os, 0);
        if n < |v.items| {
          assert os[n].Err?;
        }
      }
    }
  }

  /** A store that parses to a non-empty list is announced with its size, then listed
      entry by entry: the records of the documents before the first one that throws, each
      numbered by its position, and nothing after it. */
  lemma MainListing(initOk: bool, raw: Option<string>, parse: string -> Option<Json>, path: string,
                    rt: Runtime)
    requires initOk && raw.Some? && raw.value != ""
    requires parse(raw.value).Some? && parse(raw.value).value.JArr? && parse(raw.value).value.items != []
    ensures var docs := parse(raw.value).value.items;
      exists rs: seq<Record> ::
        && |rs| <= |docs|
        && (forall j :: 0 <= j < |rs| ==> RecordOf(docs[j], j) == Ok(rs[j]) && rs[j].number == j + 1)
        && (|rs| < |docs| ==> RecordOf(docs[|rs|], |rs|).Err?)
        && Main(initOk, raw, parse, path, rt).out ==
             [Initialized, "[dumpStore] loaded " + NatToString(|docs|) + " docs from " + path, Separator]
             + Listing(rs, rt)
  {
    var docs := parse(raw.value).value.items;
    var os := Outcomes(docs);
    var n := OkRun(os, 0);
    var rs := Oks(os, n);
    MainOut(initOk, raw, parse, path, rt);
    ListedRecords(docs);
  }

  lemma MainOut(initOk: bool, raw: Option<string>, parse: string -> Option<Json>, path: string,
                rt: Runtime)
    requires initOk && raw.Some? && raw.value != ""
    requires parse(raw.value).Some? && parse(raw.value).value.JArr? && parse(raw.value).value.items != []
    ensures var docs := parse(raw.value).value.items;
      var os := Outcomes(docs);
      Main(initOk, raw, parse, path, rt).out ==
        [Initialized, "[dumpStore] loaded " + NatToString(|docs|) + " docs from " + path, Separator]
        + Listing(Oks(os, OkRun(os, 0)), rt)
  {
  }

  /** The records listed are those of the documents before the first that throws. */
  lemma ListedRecords(docs: seq<Json>)
    ensures var os := Outcomes(docs);
      var rs := Oks(os, OkRun(os, 0));
      && |rs| <= |docs|
      && (forall j :: 0 <= j < |rs| ==> RecordOf(docs[j], j) == Ok(rs[j]) && rs[j].number == j + 1)
      && (|rs| < |docs| ==> RecordOf(docs[|rs|], |rs|).Err?)
  {
    var os := Outcomes(docs);
    var rs := Oks(os, OkRun(os, 0));
    forall j | 0 <= j < |rs|
      ensures RecordOf(docs[j], j) == Ok(rs[j]) && rs[j].number == j + 1
    {
      assert os[j].Ok?;
      RecordOfMeaning(docs[j], j);
    }
  }

  /** Every document listed gets a separator line, and an entry of 3 to 5 lines. */
  lemma {:induction false} ListingLength(rs: seq<Record>, rt: Runtime)
    ensures 3 * |rs| <= |Listing(rs, rt)| <= 5 * |rs|
  {
    if rs != [] {
      RecordLinesShape(rs[0], rt);
      ListingLength(rs[1..], rt);
    }
  }
}

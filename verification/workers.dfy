/** Routing of the editor's background-worker requests by language tag,
    and the languages that get the formatting provider. */
module Workers {
  import Prettier

  /** The worker kinds the editor can start. */
  datatype Worker = JsonWorker | CssWorker | HtmlWorker | TsWorker | EditorWorker

  /** `getWorker(_moduleId, tag)`: the worker started for a tag. A
      dedicated worker is started exactly for the tags of the routing table,
      each getting the worker the table pairs it with; any other tag gets the
      generic editor worker. */
  function WorkerFor(tag: string): (w: Worker)
    ensures w != EditorWorker ==> (tag, w) in RoutingTable
    ensures w == EditorWorker <==> forall i :: 0 <= i < |RoutingTable| ==> RoutingTable[i].0 != tag
  {
    if tag == "json" then JsonWorker
    else if tag == "css" || tag == "scss" || tag == "less" then CssWorker
    else if tag == "html" || tag == "handlebars" || tag == "razor" then HtmlWorker
    else if tag == "typescript" || tag == "javascript" then TsWorker
    else EditorWorker
  }

  /** The routing as a table: each tag with its dedicated worker. */
  const RoutingTable: seq<(string, Worker)> := [
    ("json", JsonWorker),
    ("css", CssWorker), ("scss", CssWorker), ("less", CssWorker),
    ("html", HtmlWorker), ("handlebars", HtmlWorker), ("razor", HtmlWorker),
    ("typescript", TsWorker), ("javascript", TsWorker)
  ]

  /** First entry of `table` whose label is `tag`, else `fallback`. */
  function Lookup(table: seq<(string, Worker)>, tag: string, fallback: Worker): (w: Worker)
    ensures w == fallback || exists i :: 0 <= i < |table| && table[i] == (tag, w)
    ensures (forall i :: 0 <= i < |table| ==> table[i].0 != tag) ==> w == fallback
    ensures forall i ::
      (0 <= i < |table| && table[i].0 == tag && forall j :: 0 <= j < i ==> table[j].0 != tag)
      ==> w == table[i].1
  {
    if |table| == 0 then fallback
    else if table[0].0 == tag then table[0].1
    else
      var w := Lookup(table[1..], tag, fallback);
      assert forall i :: 0 <= i < |table[1..]| ==> table[1..][i] == table[i + 1];
      w
  }

  /** Every table entry is honoured: its tag is routed to its worker. */
  lemma TableEntriesRouted(i: int)
    requires 0 <= i < |RoutingTable|
    ensures WorkerFor(RoutingTable[i].0) == RoutingTable[i].1
    ensures RoutingTable[i].1 != EditorWorker
  {
  }

  /** `getWorker` agrees with a first-match table lookup that falls back to
      the generic editor worker, for every tag. */
  lemma WorkerForIsTableLookup(tag: string)
    ensures WorkerFor(tag) == Lookup(RoutingTable, tag, EditorWorker)
  {
    var w := WorkerFor(tag);
    if w != EditorWorker {
      var i :| 0 <= i < |RoutingTable| && RoutingTable[i] == (tag, w);
      TableTagsDistinct();
    }
  }

  /** No tag is listed twice, so the first match is the only match. */
  lemma TableTagsDistinct()
    ensures forall i, j :: 0 <= i < j < |RoutingTable| ==> RoutingTable[i].0 != RoutingTable[j].0
  {
  }

  /** The languages the formatting provider is registered for. */
  const FormattedLanguages: set<string> := {"javascript", "typescript", "json", "css", "html"}

  /** For every language that is formatted, the formatter's parser and the
      editor's worker agree: a script language gets the script parser and
      the TypeScript worker, and each other one the parser and worker of its
      own name. */
  lemma FormattedLanguagesAgree(languageId: string)
    requires languageId in FormattedLanguages
    ensures Prettier.ParserFor(languageId) == "babel-ts" <==> WorkerFor(languageId) == TsWorker
    ensures Prettier.ParserFor(languageId) == "json" <==> WorkerFor(languageId) == JsonWorker
    ensures Prettier.ParserFor(languageId) == "css" <==> WorkerFor(languageId) == CssWorker
    ensures Prettier.ParserFor(languageId) == "html" <==> WorkerFor(languageId) == HtmlWorker
  {
  }
}

/** The formatting adapter: which options the external formatter is called
    with for a document. The formatter itself is outside the model; what is
    modelled is the call it receives (the text and the option object). */
module Prettier {

  /** The three parser plugins bundled with the formatter. */
  datatype Plugin = BabelPlugin | HtmlPlugin | PostcssPlugin

  /** The values an option object can carry; `Undefined` is a key that is
      present with the value `undefined`. */
  datatype OptionValue =
    | Str(s: string)
    | Plugins(list: seq<Plugin>)
    | Num(n: int)
    | Undefined

  /** A JavaScript option object: own keys and their values. */
  type Options = map<string, OptionValue>

  /** A document in one editor pane: its full text and language id. */
  datatype Document = Document(text: string, languageId: string)

  /** The formatter's two entry points: plain `format` and `formatWithCursor`. */
  datatype Entry = PlainFormat | WithCursor

  /** The call handed to the formatter: the entry point called, the text to
      format and the options. */
  datatype FormatterCall = FormatterCall(entry: Entry, text: string, options: Options)

  /** The fixed defaults merged into every option object. */
  const DefaultOptions: Options := map["endOfLine" := Str("auto")]

  /** The plugin list passed on every call, in the source's order. */
  const AllPlugins: seq<Plugin> := [BabelPlugin, HtmlPlugin, PostcssPlugin]

  /** Object spread `{...base, ...over}`: every key of `over` wins, every
      other key of `base` is kept, and no other key appears. */
  function Spread(base: Options, over: Options): (r: Options)
    ensures r.Keys == base.Keys + over.Keys
    ensures forall k :: k in over ==> r[k] == over[k]
    ensures forall k :: k in base && k !in over ==> r[k] == base[k]
  {
    base + over
  }

  /** The parser chosen for a language id: `json`, `html` and `css` get the
      parser of the same name; every other id, `typescript` and `javascript`
      included, gets `babel-ts`. */
  function ParserFor(languageId: string): (parser: string)
    ensures languageId in {"json", "html", "css"} ==> parser == languageId
    ensures languageId !in {"json", "html", "css"} ==> parser == "babel-ts"
  {
    if languageId == "json" then "json"
    else if languageId == "html" then "html"
    else if languageId == "css" then "css"
    else "babel-ts"
  }

  /** `{parser, plugins, ...PRETTIER_OPTIONS}`: exactly the keys `parser`,
      `plugins` and `endOfLine`, with `endOfLine: 'auto'` and the same three
      plugins whatever the language. */
  function PrettierOptions(languageId: string): (o: Options)
    ensures o.Keys == {"parser", "plugins", "endOfLine"}
    ensures o["parser"] == Str(ParserFor(languageId))
    ensures o["plugins"] == Plugins([BabelPlugin, HtmlPlugin, PostcssPlugin])
    ensures o["endOfLine"] == Str("auto")
  {
    Spread(map["parser" := Str(ParserFor(languageId)), "plugins" := Plugins(AllPlugins)],
           DefaultOptions)
  }

  /** Two language ids get the same options exactly when they get the same
      parser: nothing but the parser depends on the language. */
  lemma OptionsDetermineParser(a: string, b: string)
    ensures PrettierOptions(a) == PrettierOptions(b) <==> ParserFor(a) == ParserFor(b)
  {
  }

  /** `format(model)`: the plain entry point, on the whole text with the
      options for its language. */
  function FormatCall(doc: Document): (c: FormatterCall)
    ensures c.entry == PlainFormat
    ensures c.text == doc.text
    ensures c.options == PrettierOptions(doc.languageId)
  {
    FormatterCall(PlainFormat, doc.text, PrettierOptions(doc.languageId))
  }

  /** `formatWithCursor(model, options)`: the cursor entry point, with the
      caller's options spread after the defaults. */
  function FormatWithCursorCall(doc: Document, callerOptions: Options): (c: FormatterCall)
    ensures c.entry == WithCursor
    ensures c.text == doc.text
    ensures c.options.Keys == {"parser", "plugins", "endOfLine"} + callerOptions.Keys
  {
    FormatterCall(WithCursor, doc.text, Spread(PrettierOptions(doc.languageId), callerOptions))
  }

  /** Every key the caller supplies (even with the value `undefined`)
      overrides the default; every key the caller leaves out keeps it. */
  lemma CallerOptionsOverride(doc: Document, callerOptions: Options, key: string)
    ensures key in callerOptions ==>
      FormatWithCursorCall(doc, callerOptions).options[key] == callerOptions[key]
    ensures key !in callerOptions && key in PrettierOptions(doc.languageId) ==>
      FormatWithCursorCall(doc, callerOptions).options[key] == PrettierOptions(doc.languageId)[key]
  {
  }

  /** A caller passing only the required `cursorOffset` reaches the cursor
      entry point with the same text as `format` and with `format`'s options
      plus that offset. */
  lemma CursorOnlyCallExtendsFormat(doc: Document, offset: int)
    ensures var c := FormatWithCursorCall(doc, map["cursorOffset" := Num(offset)]);
      && c.entry == WithCursor && FormatCall(doc).entry == PlainFormat
      && c.text == FormatCall(doc).text
      && c.options == FormatCall(doc).options["cursorOffset" := Num(offset)]
  {
  }

  /** A caller may switch the parser: a `parser` key of theirs replaces the
      one chosen from the language id. */
  lemma CallerParserWins(doc: Document, offset: int, parser: string)
    ensures var o := map["cursorOffset" := Num(offset), "parser" := Str(parser)];
      && FormatWithCursorCall(doc, o).options["parser"] == Str(parser)
      && FormatWithCursorCall(doc, o).options["endOfLine"] == Str("auto")
  {
  }
}

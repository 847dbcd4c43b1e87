/** `DataParserFactory`: a closed dispatch from an input-format name to a parser. */
module ParserFactory {
  import opened Base

  /** The parser classes the factory can build. */
  datatype ParserKind =
    | Wikipedia
    | BscCrawlJson
    | FairseqLm
    | SentencePerLine
    | Warc
    | DocumentPerLine
    | Textfile
    | Onion

  /** The part of `DataParserConfig` the factory touches. */
  datatype ParserConfig = ParserConfig(encoding: string, inputPath: string, outputPath: string)

  /** A constructed parser: its class, the configuration it holds (also the caller's
      configuration after the call, since the object is shared), and the `debug` flag
      when one is passed to the constructor. */
  datatype Parser = Parser(kind: ParserKind, config: ParserConfig, debug: Option<bool>)

  /** The exceptions `get_parser` can raise. `NotImplemented` is the unknown-format
      error. `ConstructorTypeError` is the `TypeError` Python raises when a constructor
      is given a number of positional arguments its signature does not take; `config`
      is the caller's configuration as the failed call leaves it. */
  datatype FactoryError =
    | NotImplemented(format: string)
    | ConstructorTypeError(kind: ParserKind, given: nat, accepted: nat, config: ParserConfig)

  const ValidInputFormats: seq<string> :=
    ["wikipedia", "bsc-crawl-json", "fairseq-lm", "sentence", "warc", "document", "textfile"]

  /** How the onion branch passes the logger to `OnionParser`. `LoggerPositional` is the
      call as written, `OnionParser(config, logger, debug=debug)`. `LoggerKeyword` is the
      evident intent, `OnionParser(config, logger=logger, debug=debug)`, which the
      constructor's `**kwargs` accepts. */
  datatype OnionCall = LoggerPositional | LoggerKeyword

  /** The positional arguments the onion branch gives the constructor. */
  function OnionPositionalArguments(call: OnionCall): nat
  {
    if call == LoggerPositional then 2 else 1
  }

  /** `OnionParser.__init__(self, args, **kwargs)` takes one positional argument after
      `self`. */
  const OnionPositionalParameters: nat := 1

  /** `OnionParser(...)` with `given` positional arguments: Python raises `TypeError`
      unless their number is exactly the signature's, and otherwise builds the parser
      with the configuration and the `debug` keyword. */
  function NewOnionParser(given: nat, config: ParserConfig, debug: bool): (r: Result<Parser, FactoryError>)
    ensures r.Ok? <==> given == OnionPositionalParameters
    ensures r.Ok? ==> r.value.kind == Onion && r.value.config == config && r.value.debug == Some(debug)
    ensures r.Err? ==> r.error.ConstructorTypeError? && r.error.given == given && r.error.config == config
  {
    if given == OnionPositionalParameters then Ok(Parser(Onion, config, Some(debug)))
    else Err(ConstructorTypeError(Onion, given, OnionPositionalParameters, config))
  }

  /** `get_parser`, with the onion constructor called as `call` says. */
  function GetParser(call: OnionCall, format: string, config: ParserConfig, debug: bool): (r: Result<Parser, FactoryError>)
    ensures r.Ok? ==> FormatName(r.value.kind) == format
    ensures r.Ok? ==> r.value.config.inputPath == config.inputPath && r.value.config.outputPath == config.outputPath
    ensures r.Err? && r.error.NotImplemented? ==> r.error == NotImplemented(format) && format != "onion"
    ensures r.Err? && r.error.ConstructorTypeError? ==> format == "onion" && call == LoggerPositional
  {
    if format == "wikipedia" then Ok(Parser(Wikipedia, config, None))
    else if format == "bsc-crawl-json" then Ok(Parser(BscCrawlJson, config, None))
    else if format == "fairseq-lm" then Ok(Parser(FairseqLm, config, None))
    else if format == "sentence" then Ok(Parser(SentencePerLine, config, None))
    else if format == "warc" then Ok(Parser(Warc, config, None))
    else if format == "document" then Ok(Parser(DocumentPerLine, config, None))
    else if format == "textfile" then Ok(Parser(Textfile, config, None))
    else if format == "onion" then NewOnionParser(OnionPositionalArguments(call), config.(encoding := "utf-8"), debug)
    else Err(NotImplemented(format))
  }

  /** The format name that selects each parser class. */
  function FormatName(k: ParserKind): string
  {
    match k
    case Wikipedia => "wikipedia"
    case BscCrawlJson => "bsc-crawl-json"
    case FairseqLm => "fairseq-lm"
    case SentencePerLine => "sentence"
    case Warc => "warc"
    case DocumentPerLine => "document"
    case Textfile => "textfile"
    case Onion => "onion"
  }

  /** As written, a format is accepted exactly when it is one of the seven listed names.
      "onion" is not listed and is not accepted either: it gets past the dispatch, but the
      constructor raises `TypeError` rather than `NotImplementedError`. Any other name
      raises `NotImplementedError` with the format as its message. */
  lemma AsWrittenAccepts(format: string, config: ParserConfig, debug: bool)
    ensures GetParser(LoggerPositional, format, config, debug).Ok? <==> format in ValidInputFormats
    ensures format !in ValidInputFormats && format != "onion" ==>
      GetParser(LoggerPositional, format, config, debug) == Err(NotImplemented(format))
    ensures "onion" !in ValidInputFormats
  {
  }

  /** As written, "onion" first sets the caller's encoding to UTF-8 and then raises
      `TypeError`: two positional arguments are given where the constructor takes one. */
  lemma OnionRaisesTypeError(config: ParserConfig, debug: bool)
    ensures GetParser(LoggerPositional, "onion", config, debug)
      == Err(ConstructorTypeError(Onion, 2, 1, config.(encoding := "utf-8")))
  {
  }

  /** With the logger passed by keyword, a format is accepted exactly when it is one of
      the seven listed names or "onion"; the accepted name is the one of the class built,
      and anything else raises `NotImplementedError` with the format as its message. */
  lemma GetParserAccepts(format: string, config: ParserConfig, debug: bool)
    ensures GetParser(LoggerKeyword, format, config, debug).Ok? <==> format in ValidInputFormats || format == "onion"
    ensures GetParser(LoggerKeyword, format, config, debug).Err? ==>
      GetParser(LoggerKeyword, format, config, debug).error == NotImplemented(format)
  {
  }

  /** The two calls differ only on "onion": every other format gives the same result. */
  lemma CallsAgreeOffOnion(format: string, config: ParserConfig, debug: bool)
    requires format != "onion"
    ensures GetParser(LoggerPositional, format, config, debug) == GetParser(LoggerKeyword, format, config, debug)
  {
  }

  /** With the logger passed by keyword, every class is built from its own name: dispatch
      is a bijection between the eight accepted names and the eight classes. As written,
      this holds for every class but `Onion`. */
  lemma GetParserBuildsNamedKind(call: OnionCall, k: ParserKind, config: ParserConfig, debug: bool)
    requires k != Onion || call == LoggerKeyword
    ensures GetParser(call, FormatName(k), config, debug).Ok?
    ensures GetParser(call, FormatName(k), config, debug).value.kind == k
  {
  }

  /** The seven listed names select seven distinct classes, none of them the onion parser. */
  lemma ListedFormatsDistinct(call: OnionCall, config: ParserConfig, debug: bool)
    ensures forall i, j :: 0 <= i < j < |ValidInputFormats| ==>
      GetParser(call, ValidInputFormats[i], config, debug).value.kind != GetParser(call, ValidInputFormats[j], config, debug).value.kind
    ensures forall i :: 0 <= i < |ValidInputFormats| ==> GetParser(call, ValidInputFormats[i], config, debug).value.kind != Onion
  {
    forall i | 0 <= i < |ValidInputFormats|
      ensures GetParser(call, ValidInputFormats[i], config, debug).Ok?
      ensures FormatName(GetParser(call, ValidInputFormats[i], config, debug).value.kind) == ValidInputFormats[i]
    {
      AsWrittenAccepts(ValidInputFormats[i], config, debug);
      CallsAgreeOffOnion(ValidInputFormats[i], config, debug);
    }
  }

  /** The caller's configuration after a call: the one the parser holds, the one a
      constructor `TypeError` leaves behind, or, for an unknown format, the one passed. */
  function ConfigAfter(r: Result<Parser, FactoryError>, config: ParserConfig): ParserConfig
  {
    match r
    case Ok(p) => p.config
    case Err(ConstructorTypeError(_, _, _, c)) => c
    case Err(NotImplemented(_)) => config
  }

  /** Only "onion" changes the caller's configuration (its encoding becomes UTF-8),
      whether or not the parser is then built, and only the onion parser receives
      `debug`; every other parser gets the configuration as it was. */
  lemma OnlyOnionAltersConfig(call: OnionCall, format: string, config: ParserConfig, debug: bool)
    ensures ConfigAfter(GetParser(call, format, config, debug), config)
      == if format == "onion" then config.(encoding := "utf-8") else config
    ensures GetParser(call, format, config, debug).Ok? ==>
      (GetParser(call, format, config, debug).value.debug == Some(debug) <==> format == "onion")
    ensures GetParser(call, format, config, debug).Ok? ==>
      (GetParser(call, format, config, debug).value.debug.None? <==> format != "onion")
  {
  }

  /** `DataParserMapper(parser)`: a wrapper applying the parser to each input file. */
  datatype ParserMapper = ParserMapper(parser: Parser)

  /** `get_parser_mapper`. */
  function GetParserMapper(call: OnionCall, format: string, config: ParserConfig, debug: bool): (r: Result<ParserMapper, FactoryError>)
    ensures r.Ok? ==> FormatName(r.value.parser.kind) == format
    ensures r.Err? && r.error.NotImplemented? ==> r.error == NotImplemented(format)
    ensures r.Err? && r.error.ConstructorTypeError? ==> format == "onion" && call == LoggerPositional
  {
    match GetParser(call, format, config, debug)
    case Ok(p) => Ok(ParserMapper(p))
    case Err(e) => Err(e)
  }

  /** The mapper is built for exactly the accepted formats: as written, the seven listed
      names, where "onion" passes on the constructor's `TypeError`; with the logger by
      keyword, those and "onion". It wraps the parser the factory builds, and an unknown
      format raises `NotImplementedError` with the format. */
  lemma MapperWrapsParser(call: OnionCall, format: string, config: ParserConfig, debug: bool)
    ensures GetParserMapper(call, format, config, debug).Ok? <==>
      format in ValidInputFormats || (format == "onion" && call == LoggerKeyword)
    ensures GetParserMapper(call, format, config, debug).Ok? ==>
      GetParserMapper(call, format, config, debug).value.parser == GetParser(call, format, config, debug).value
    ensures format == "onion" && call == LoggerPositional ==>
      GetParserMapper(call, format, config, debug).Err? &&
      GetParserMapper(call, format, config, debug).error.ConstructorTypeError?
    ensures format !in ValidInputFormats && format != "onion" ==>
      GetParserMapper(call, format, config, debug) == Err(NotImplemented(format))
  {
    if call == LoggerPositional {
      AsWrittenAccepts(format, config, debug);
    } else {
      GetParserAccepts(format, config, debug);
    }
  }
}

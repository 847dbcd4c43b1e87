# CorpusCleaner filtering and serialisation core, in Dafny

This project models the sequential core of CorpusCleaner, a pipeline that cleans web and
encyclopaedic text corpora, and proves properties of it. The model covers:

- **Document pre-filter** (`PreFilterer`, module `PreFilterer`). The resolved options
  build an ordered chain of checks: length, HTTP headers, digit share, non-alphanumeric
  share, that share again for the uppercase option, alphabet, language and dictionary.
  Each document first has its markup rewritten. The chain then runs as a short-circuit
  AND, and the survivors are yielded in input order. A check that raises ends the
  generator, and the output keeps the documents yielded before it.
- **Sentence filters**, the current version (module `SentenceFilter`) and the older one
  (module `LegacySentenceFilter`). Both share the document loop in module
  `SentenceSelection`: a sentence is kept when every registered check accepts it, and a
  document is emitted when one of its sentences survives.
- **Near-duplicate round trip through the Onion format.** Module `OnionFormat` is the
  tagged-block writer (`OnionOutputFormatter._write_document`). Module `OnionReader` is
  the reader (`OnionParser._parse_file`): the two copies in the repository are textually
  identical, so one definition models both. Module `OnionRoundTrip` connects the two
  through the duplicate detector's per-line marks.
- **Plain-text output formatters** (module `OutputFormatters`): one sentence per line,
  and the fairseq language-model layout with a blank line after each document.
- **Parser factory dispatch** (module `ParserFactory`): `get_parser` and
  `get_parser_mapper`. As written, the onion branch passes the logger as a second
  positional argument, which `OnionParser`'s constructor does not take. The call is a
  parameter: `LoggerPositional` as written, `LoggerKeyword` as intended.

Shared pieces:

- module `Base`: `Option` and `Result`;
- module `Documents`: `Document` and the language guess;
- module `Text`: Python's `str.isspace`, `strip`, `split`, `startswith`, `readlines` and
  `writelines`, stated over `seq<char>`;
- module `Seqs`: filtering, mapping and subsequences.

The model is functional:

- a generator is a recursive function over a `seq`;
- an exception ends the output with a `failure` value, and the documents yielded before
  it are kept;
- foreign code is passed in as function-valued parameters: the character classes
  (`str.isdigit`, `str.isalnum`, `str.isupper`), the alphabet detector, the language
  identifier and the tag-rewriting regex;
- the files read and written are `string` values.

Ratio thresholds are exact `real`s. A ratio check rejects when `a / n > t`, so it keeps
exactly when `not (a / n > t)`, which for `n > 0` is the cross-multiplied `a <= t * n`
(`ShareWithin`, proved in `RatioWithin`). The alphanumeric check keeps exactly when
`n - a <= t * n` (`ComplementRatioWithin`).

The pre-filter has two ratio-check policies. `AsWritten` raises `ZeroDivisionError` on
an empty denominator, as the code does. `DropOnEmpty` is the corrected behaviour: the
document is dropped instead. The generic stream lemmas (`PreFilterSelects`,
`PreFilterOrder`, `PreFilterFailureLocated`, `PreFilterFailureOutput`,
`StepKeepsSurvivor`, `GenerateStep`) are stated for both policies, as are
`DisablingKeepsMore` and `PassingInputsGrow`. `UnstampedOutput`, `NothingRaises` and
`DisablingKeepsMoreDocuments` hold only under `DropOnEmpty`, and
`EmptyDocumentEndsWeakerStream` shows that `AsWritten` breaks them.

The pre-filter also has two wirings of the uppercase option. `AlphanumAgain` is the code
as written: a positive uppercase threshold registers the alphanumeric check a second time
(pre_filterer.py:87-88). `UppercaseCheck` is the evident intent: it registers the
uppercase check with its own threshold. The chain a run uses is `PreFilterer.Chain`. The
generic stream lemmas, `UnstampedOutput`, `NothingRaises` and
`EmptyDocumentEndsWeakerStream` are stated for both wirings. `DisablingKeepsMore`,
`PassingInputsGrow` and `DisablingKeepsMoreDocuments` are stated for both wirings as well,
under `Shrinks`: turning options off only removes checks. That always holds under
`UppercaseCheck`. Under `AlphanumAgain` it holds exactly when the alphanumeric bound is
kept or the uppercase option is off as well (`AsWrittenDisablingIff`), and
`AlphanumOffDropsDocument` shows the case it leaves out.

Some behaviours of the code are easy to miss; each is proved:

- **Degenerate inputs.** Content made only of whitespace passes the length check and
  reaches the division in `_filter_by_alphanum` with a zero denominator
  (pre_filterer.py:117-119). The `ZeroDivisionError` ends the stream (see Findings).
- **Blocks with no surviving line.** A block whose body lines are all marked duplicate is
  still yielded at its `</doc>` line, as a document without sentences
  (onion_parser.py:22-25; `OnionRoundTrip.AllDuplicateBlockYieldsEmpty`).
- **Block without a closing tag.** Kept lines after the last `</doc>` line are never
  yielded, and nothing is raised (onion_parser.py:16-28;
  `OnionReader.ParseDropsUnclosedTail`).
- **Language identification.** Each language check is a single `classify` call whose
  confidence is compared strictly with one threshold (pre_filterer.py:134-139,
  sentence_filter.py:60-64).

## Model

| member | source | states |
|---|---|---|
| PreFilterer.BuildFilters | corpus_cleaner/components/c_pre_filterer/pre_filterer.py:79-97 | as written, the chain holds at most eight checks and never the uppercase check |
| PreFilterer.BuildFiltersLength | corpus_cleaner/components/c_pre_filterer/pre_filterer.py:79-97 | the chain holds exactly one check per enabled option, eight options in all |
| PreFilterer.BuildFiltersSound | corpus_cleaner/components/c_pre_filterer/pre_filterer.py:79-97 | every check in the chain is enabled by its option (`> 0`, flag set, or `is not None`) and carries that option's value |
| PreFilterer.BuildFiltersComplete | corpus_cleaner/components/c_pre_filterer/pre_filterer.py:79-97 | every enabled option puts its check in the chain; the alphanumeric check is present when either the alphanumeric or the uppercase option is positive |
| PreFilterer.BuildFiltersOrdered | corpus_cleaner/components/c_pre_filterer/pre_filterer.py:79-97 | the chain follows the fixed registration order: length, headers, digits, alphanumeric, alphabet, language, dictionary |
| PreFilterer.BuildFiltersAlphanumTwice | corpus_cleaner/components/c_pre_filterer/pre_filterer.py:85-88 | the alphanumeric check occurs once for each of the two options that register it, so it can run twice on one document |
| PreFilterer.UppercaseNeverRegistered | corpus_cleaner/components/c_pre_filterer/pre_filterer.py:87-88 | as written, no configuration ever puts the uppercase check in the chain; a positive uppercase option adds the alphanumeric check instead |
| PreFilterer.IntendedRegistersEachOnce | corpus_cleaner/components/c_pre_filterer/pre_filterer.py:85-88 | with the uppercase option wired to its own check, the alphanumeric check occurs once exactly when its option is positive, and the uppercase check, with the uppercase bound, once exactly when the uppercase option is positive |
| PreFilterer.DefaultChain | corpus_cleaner/components/c_pre_filterer/pre_filterer.py:17-37 | the command-line defaults build the chain length 40, headers, digits 0.1, alphanumeric 0.1 twice, Latin alphabet |
| PreFilterer.LengthKeeps | corpus_cleaner/components/c_pre_filterer/pre_filterer.py:99-102 | keeps a document exactly when its content has at least the minimum number of characters |
| PreFilterer.HeadsKeeps | corpus_cleaner/components/c_pre_filterer/pre_filterer.py:104-110 | a document without headers is kept; one with headers is kept exactly when none of the four tokens is found in them by a case-insensitive regex search |
| PreFilterer.NoTokenFound | corpus_cleaner/components/c_pre_filterer/pre_filterer.py:107-109 | the token loop keeps exactly when no token of the list is found |
| PreFilterer.Compile | corpus_cleaner/components/c_pre_filterer/pre_filterer.py:108 | a token compiles to one pattern atom per character; `.` becomes the any-character-but-newline atom |
| PreFilterer.TokenAtFound | corpus_cleaner/components/c_pre_filterer/pre_filterer.py:108 | a character-by-character, case-folded match at some offset is a search hit |
| PreFilterer.TokenRejects | corpus_cleaner/components/c_pre_filterer/pre_filterer.py:106-109 | headers containing any of the tokens are rejected |
| PreFilterer.NotFoundHeadersRejected | corpus_cleaner/components/c_pre_filterer/pre_filterer.py:104-110 | headers "404 Not Found" are rejected |
| PreFilterer.WildcardInRobotsToken | corpus_cleaner/components/c_pre_filterer/pre_filterer.py:107-108 | `.` in `robots.txt` is a regex wildcard, so headers "robots_txt" are rejected too |
| PreFilterer.UppercaseTokenRejected | corpus_cleaner/components/c_pre_filterer/pre_filterer.py:108 | matching ignores case: headers "ERROR" are rejected |
| PreFilterer.RatioWithin | corpus_cleaner/components/c_pre_filterer/pre_filterer.py:113 | for a non-empty whole, `not (part / whole > bound)` holds exactly when part ≤ bound × whole |
| PreFilterer.ComplementRatioWithin | corpus_cleaner/components/c_pre_filterer/pre_filterer.py:119 | for a non-empty whole, `not (1 - part / whole > bound)` holds exactly when whole − part ≤ bound × whole |
| PreFilterer.DigitsVerdict | corpus_cleaner/components/c_pre_filterer/pre_filterer.py:112-115 | on non-empty content, keeps exactly when the digit share is within the bound; empty content raises a division error naming the digit check (as written) or is dropped (guarded) |
| PreFilterer.AlphanumVerdict | corpus_cleaner/components/c_pre_filterer/pre_filterer.py:117-121 | the share of non-alphanumeric characters among the non-whitespace ones must be within the bound; content with no non-whitespace character raises (as written) or is dropped (guarded) |
| PreFilterer.UppercaseVerdict | corpus_cleaner/components/c_pre_filterer/pre_filterer.py:123-126 | keeps exactly when the uppercase share is within the bound; empty content raises as written and is dropped under the corrected policy |
| PreFilterer.AlphabetKeeps | corpus_cleaner/components/c_pre_filterer/pre_filterer.py:128-132 | keeps exactly when some requested alphabet is among the detected ones |
| PreFilterer.DictKeeps | corpus_cleaner/components/c_pre_filterer/pre_filterer.py:141-144 | keeps exactly when the term list is non-empty and no term occurs in the content; the empty alternation matches everything |
| PreFilterer.Verdict | corpus_cleaner/components/c_pre_filterer/pre_filterer.py:99-144 | a check raises exactly when it is a ratio check with an empty denominator under the as-written policy, and the error names that check; no check reads the document's language |
| PreFilterer.Stamp | corpus_cleaner/components/c_pre_filterer/pre_filterer.py:134-139 | only an accepting language check records a language, the classifier's guess on the content; no check changes the content, sentences or headers |
| PreFilterer.RunChain | corpus_cleaner/components/c_pre_filterer/pre_filterer.py:152-156 | the inner loop calls checks in order until one does not accept; the last call's verdict is the outcome; every earlier check accepted; only the language field may change |
| PreFilterer.KeptIffAllAccept | corpus_cleaner/components/c_pre_filterer/pre_filterer.py:152-157 | a document is kept exactly when every check of the chain accepts it |
| PreFilterer.RunChainPasses | corpus_cleaner/components/c_pre_filterer/pre_filterer.py:153-156 | a check that accepts without recording a language passes the unchanged document to the rest of the chain, so no later check is skipped |
| PreFilterer.KeptDocumentStamped | corpus_cleaner/components/c_pre_filterer/pre_filterer.py:134-139 | a kept document carries the classifier's language exactly when the chain holds a language check, and is otherwise unchanged |
| PreFilterer.UppercaseOracleUnused | corpus_cleaner/components/c_pre_filterer/pre_filterer.py:87-88 | the pre-filter's result does not depend on the uppercase character class at all |
| PreFilterer.ChainErrors | corpus_cleaner/components/c_pre_filterer/pre_filterer.py:153-156 | a run that raises was stopped by the last check it called, a ratio check facing an empty denominator, under the as-written policy; the guarded policy never raises |
| PreFilterer.OnlyAlphanumCanRaise | corpus_cleaner/components/c_pre_filterer/pre_filterer.py:79-80 | with a length threshold of at least one, the length check runs first, so only the alphanumeric check can raise |
| PreFilterer.ShortDocumentDropped | corpus_cleaner/components/c_pre_filterer/pre_filterer.py:99-102 | under the defaults, a ten-character document is dropped by the first check, which is the only one called |
| PreFilterer.BlankReachesAlphanum | corpus_cleaner/components/c_pre_filterer/pre_filterer.py:99-115 | whitespace-only content of 40 characters without headers passes the length, header and digit checks and reaches the alphanumeric check |
| PreFilterer.BlankDocumentRaises | corpus_cleaner/components/c_pre_filterer/pre_filterer.py:117-119 | as written, that document makes the fourth check raise `ZeroDivisionError` |
| PreFilterer.BlankDocumentDroppedWhenGuarded | corpus_cleaner/components/c_pre_filterer/pre_filterer.py:117-121 | with the guard, the same document is dropped by the fourth check |
| PreFilterer.Prepare | corpus_cleaner/components/c_pre_filterer/pre_filterer.py:150-151 | the tag rewrite replaces the content before any check runs, when tags are removed; nothing else changes |
| PreFilterer.Step | corpus_cleaner/components/c_pre_filterer/pre_filterer.py:148-158 | one pass of the loop yields at most one document, which has the prepared content and the input's sentences and headers; only the as-written policy raises |
| PreFilterer.Generate | corpus_cleaner/components/c_pre_filterer/pre_filterer.py:146-158 | for any loop body, a failure names a position inside the input, and the body raises on the document at that position |
| PreFilterer.GenerateStops | corpus_cleaner/components/c_pre_filterer/pre_filterer.py:148-156 | the loop stops at the first document on which the body raises |
| PreFilterer.GenerateFailureOutput | corpus_cleaner/components/c_pre_filterer/pre_filterer.py:148-158 | stopping at a position, the loop has yielded exactly what it yields on the documents before it |
| PreFilterer.GenerateSelects | corpus_cleaner/components/c_pre_filterer/pre_filterer.py:146-158 | a body yielding a rewrite of the documents a predicate accepts and nothing for the others makes the loop a selection followed by that rewrite |
| PreFilterer.GenerateBounded | corpus_cleaner/components/c_pre_filterer/pre_filterer.py:146-158 | a body yielding at most one document each time yields at most one output per input |
| PreFilterer.PreFilter | corpus_cleaner/components/c_pre_filterer/pre_filterer.py:146-161 | `apply` yields at most one document per input; a failure names an input position, and only the as-written policy fails |
| PreFilterer.StepKeepsSurvivor | corpus_cleaner/components/c_pre_filterer/pre_filterer.py:150-158 | a document no check raises on is yielded, rewritten and stamped, exactly when it passes |
| PreFilterer.GenerateStep | corpus_cleaner/components/c_pre_filterer/pre_filterer.py:148-158 | one pass of the outer loop on a document no check raises on: its survivor, if it passes, then the rest of the stream |
| PreFilterer.PreFilterSelects | corpus_cleaner/components/c_pre_filterer/pre_filterer.py:146-158 | when nothing raises, the output equals the reference definition: the passing inputs, in input order, each rewritten and stamped |
| PreFilterer.PreFilterOrder | corpus_cleaner/components/c_pre_filterer/pre_filterer.py:146-158 | when nothing raises, no failure is reported and the output is as long as the order-preserving subsequence of passing inputs |
| PreFilterer.PreFilterFailureLocated | corpus_cleaner/components/c_pre_filterer/pre_filterer.py:148-156 | a raised error comes from the first document on which a check raises; every document before it ran to completion |
| PreFilterer.PreFilterFailureOutput | corpus_cleaner/components/c_pre_filterer/pre_filterer.py:148-158 | before stopping at position k, the generator has yielded exactly what it yields for the first k documents |
| PreFilterer.FewerChecksKeepMore | corpus_cleaner/components/c_pre_filterer/pre_filterer.py:153-157 | a document every check of a chain accepts is accepted by every chain drawn from it |
| PreFilterer.DisabledChainIsSubsequence | corpus_cleaner/components/c_pre_filterer/pre_filterer.py:79-97 | with the uppercase option wired to its own check, turning options off (any threshold down to zero or below) yields a subsequence of the original chain |
| PreFilterer.AsWrittenDisablingIff | corpus_cleaner/components/c_pre_filterer/pre_filterer.py:85-88 | as written, turning options off yields a subsequence of the original chain exactly when the alphanumeric bound is kept or the uppercase option is off too |
| PreFilterer.ShrinksIsSubchain | corpus_cleaner/components/c_pre_filterer/pre_filterer.py:79-97 | when turning options off only removes checks (always under the intended wiring; as written, when the alphanumeric bound is kept or the uppercase option is off too), the weaker chain is a subsequence of the original; as written, that condition is also necessary |
| PreFilterer.DisablingKeepsMore | corpus_cleaner/components/c_pre_filterer/pre_filterer.py:76-157 | for one document, under either policy and either wiring, when turning options off only removes checks: the weaker configuration accepts every document the full one accepts |
| PreFilterer.UnstampedOutput | corpus_cleaner/components/c_pre_filterer/pre_filterer.py:146-161 | under either wiring, with empty denominators guarded, nothing raises, and the output, languages forgotten, is the passing inputs with their tags rewritten, in order |
| PreFilterer.NothingRaises | corpus_cleaner/components/c_pre_filterer/pre_filterer.py:152-156 | under either wiring, with empty denominators guarded, no document's run raises |
| PreFilterer.PassingInputsGrow | corpus_cleaner/components/c_pre_filterer/pre_filterer.py:146-158 | under either policy and either wiring, when turning options off only removes checks (as written, not when the alphanumeric option is turned off with the uppercase option on): the inputs the full configuration passes are a subsequence of those the weaker one passes |
| PreFilterer.DisablingKeepsMoreDocuments | corpus_cleaner/components/c_pre_filterer/pre_filterer.py:146-161 | for the whole stream, with empty denominators guarded, under either wiring, when turning options off only removes checks: neither run raises, and the weaker one yields every document the full configuration yields, in order |
| PreFilterer.AlphanumOffDropsDocument | corpus_cleaner/components/c_pre_filterer/pre_filterer.py:85-88 | as written, `--alphanum_filter 0` with the other defaults drops a document the defaults keep: at least 40 characters, no whitespace or digit, and a little punctuation; this weakening removes checks under the intended wiring but not as written |
| PreFilterer.EmptyDocumentEndsWeakerStream | corpus_cleaner/components/c_pre_filterer/pre_filterer.py:112-115 | as written, `--char-length-filter 0` with the other defaults turns the stream [empty document, kept document] from one output into a division error at position 0 with no output |
| SentenceSelection.FilterDocuments | corpus_cleaner/components/e_sentence_filter/sentence_filter.py:36-46 | the document loop emits at most one document per input |
| SentenceSelection.FilterDocumentsReference | corpus_cleaner/components/e_sentence_filter/sentence_filter.py:36-46 | the output equals the reference definition: the inputs with a surviving sentence, in order, each cut down to its accepted sentences |
| SentenceSelection.FilterDocumentsEmits | corpus_cleaner/components/e_sentence_filter/sentence_filter.py:39-46 | every emitted document has a sentence; all its sentences are accepted; it equals an input document except for the filtered sentence list |
| SentenceSelection.SurvivorsInOrder | corpus_cleaner/components/e_sentence_filter/sentence_filter.py:39-42 | the surviving sentences are a subsequence of the original ones |
| SentenceSelection.EmittedIffSurvivor | corpus_cleaner/components/e_sentence_filter/sentence_filter.py:43-46 | a document is emitted exactly when one of its sentences is accepted |
| SentenceSelection.FilterDocumentsIdempotent | corpus_cleaner/components/e_sentence_filter/sentence_filter.py:36-46 | filtering the output again with the same checks changes nothing |
| SentenceSelection.StricterEmitsFewer | corpus_cleaner/components/e_sentence_filter/sentence_filter.py:36-46 | a stricter selection emits no more documents and keeps a subsequence of each document's sentences |
| SentenceFilter.Filter | corpus_cleaner/components/e_sentence_filter/sentence_filter.py:36-46 | `_filter` emits at most one document per input, and every emitted document keeps a sentence |
| SentenceFilter.GetFiltersRegisters | corpus_cleaner/components/e_sentence_filter/sentence_filter.py:48-53 | each check is registered exactly when its option is not None, length check first |
| SentenceFilter.KeepIff | corpus_cleaner/components/e_sentence_filter/sentence_filter.py:55-64 | a sentence is kept exactly when it is strictly longer than a set threshold and confidently in an allowed language when a list is set |
| SentenceFilter.ZeroThresholdDropsEmpty | corpus_cleaner/components/e_sentence_filter/sentence_filter.py:49-50 | a zero threshold is still registered, and then drops exactly the empty sentences |
| SentenceFilter.LanguageNeverSet | corpus_cleaner/components/e_sentence_filter/sentence_filter.py:60-64 | emitted documents keep the language, content and headers of an input document; the language check never records a language |
| SentenceFilter.EmittedSentencesPass | corpus_cleaner/components/e_sentence_filter/sentence_filter.py:36-46 | every emitted sentence passes every registered check, and every emitted document keeps one |
| SentenceFilter.FilterIdempotent | corpus_cleaner/components/e_sentence_filter/sentence_filter.py:36-46 | applying the filter to its own output changes nothing |
| LegacySentenceFilter.Filter | src/components/sentence_filter/sentence_filter.py:28-38 | `filter` emits at most one document per input, and every emitted document keeps a sentence |
| LegacySentenceFilter.KeepIff | src/components/sentence_filter/sentence_filter.py:40-48 | a sentence is kept exactly when the threshold is zero (nothing registered) or the sentence is strictly longer |
| LegacySentenceFilter.ZeroThresholdPassesThrough | src/components/sentence_filter/sentence_filter.py:35-42 | with a zero threshold every document with a sentence passes unchanged, and documents without sentences are dropped |
| LegacySentenceFilter.RaisingThresholdShrinks | src/components/sentence_filter/sentence_filter.py:28-48 | raising the threshold never emits more documents, and never lengthens a document's surviving sentences |
| LegacySentenceFilter.FilterIdempotent | src/components/sentence_filter/sentence_filter.py:28-38 | filtering twice equals filtering once |
| LegacySentenceFilter.VersionsDifferAtZero | src/components/sentence_filter/sentence_filter.py:41-42 | at threshold zero the older filter emits a document whose only sentence is empty; the current one drops it |
| OnionFormat.WriteDocument | corpus_cleaner/components/g_document_filter/document_filter.py:39-47 | a written block begins with the `<doc>` and `<p>` tag lines; a document without sentences writes a block with one empty body line |
| OnionFormat.WriteDocuments | corpus_cleaner/components/g_document_filter/document_filter.py:45-47 | a file of written documents is empty exactly when there are no documents |
| OnionFormat.WrittenDocumentLayout | corpus_cleaner/components/g_document_filter/document_filter.py:39-46 | a written block is its two opening tag lines, its body lines each ending in a newline, and its two closing tag lines |
| OnionFormat.BlockLines | corpus_cleaner/components/g_document_filter/document_filter.py:39-40 | a written block has four tag lines around its body lines |
| OnionFormat.ReadWrittenDocument | corpus_cleaner/components/g_document_filter/document_filter.py:45-47 | a written block reads back as two opening tags, one line per sentence (one empty line for no sentences) and two closing tags |
| OnionFormat.ReadWrittenDocuments | corpus_cleaner/components/g_document_filter/document_filter.py:45-47 | a file of written documents reads back as their blocks of lines, in order |
| OnionReader.SplitIndex | corpus_cleaner/components/g_document_filter/document_filter.py:20 | the unpacking succeeds exactly when the line holds one tab, and splits the line around it |
| OnionReader.SplitAnnotated | corpus_cleaner/components/a_data_parser/onion_parser.py:17 | unpacking `index + TAB + text` gives back the index and the text |
| OnionReader.ScanMeaning | corpus_cleaner/components/g_document_filter/document_filter.py:20-25 | a line fails to unpack exactly when it lacks one tab, reporting the field count; the closing lines are recognised exactly |
| OnionReader.FoldDocsBare | corpus_cleaner/components/g_document_filter/document_filter.py:27 | every yielded document has empty content and no headers or language |
| OnionReader.ParseLines | corpus_cleaner/components/a_data_parser/onion_parser.py:16-28 | every yielded document has empty content and no headers or language; a failure names a line inside the input |
| OnionReader.ParseFile | corpus_cleaner/components/a_data_parser/onion_parser.py:14-28 | the same from the first line, and the line a failure names is one that does not hold exactly one tab |
| OnionReader.FoldFailsIffUnsplit | corpus_cleaner/components/g_document_filter/document_filter.py:19-20 | the reader stops with an error exactly when some line does not unpack |
| OnionReader.ParseFailsIffMalformed | corpus_cleaner/components/a_data_parser/onion_parser.py:16-17 | reading fails exactly when some line does not hold exactly one tab |
| OnionReader.ParseFailureLocated | corpus_cleaner/components/a_data_parser/onion_parser.py:16-28 | the error is raised at the first line without exactly one tab, after yielding exactly the documents closed before it |
| OnionReader.FoldCountsClosings | corpus_cleaner/components/g_document_filter/document_filter.py:25-28 | on unpackable lines, one document is yielded per closing line |
| OnionReader.ParseCountsClosings | corpus_cleaner/components/g_document_filter/document_filter.py:19-28 | on a well-formed file, the documents number the lines whose text starts with `</doc>` |
| OnionReader.ParseDropsUnclosedTail | corpus_cleaner/components/a_data_parser/onion_parser.py:16-28 | lines after the last `</doc>` are never yielded, and nothing is raised |
| OnionReader.FoldBlock | corpus_cleaner/components/g_document_filter/document_filter.py:25-31 | a run of non-closing lines followed by a closing line yields one document of the pending and contributed sentences, and reading restarts with an empty accumulator |
| OnionReader.TagLineSkipped | corpus_cleaner/components/a_data_parser/onion_parser.py:19-20 | a line whose text starts with `<doc>`, `<p>` or `</p>` is skipped, whatever its index |
| OnionReader.ClosingLineYields | corpus_cleaner/components/a_data_parser/onion_parser.py:22-25 | a `</doc>` line yields the collected sentences as a document without content, and resets the accumulator |
| OnionReader.TextLineKeptIffZero | corpus_cleaner/components/a_data_parser/onion_parser.py:26-28 | any other line adds its stripped text exactly when its index is "0" |
| OnionReader.MalformedLineRaises | corpus_cleaner/components/a_data_parser/onion_parser.py:17 | a line without exactly one tab stops the reader with the unpacking error and the field count |
| OnionReader.ParseBlock | corpus_cleaner/components/g_document_filter/document_filter.py:19-31 | a block of well-formed, non-closing lines followed by a closing line yields one document, then reading goes on |
| OnionRoundTrip.Survivors | corpus_cleaner/components/g_document_filter/document_filter.py:29-31 | the sentences marked "0" are a subsequence of the block's sentences |
| OnionRoundTrip.PlainLineIsText | corpus_cleaner/components/g_document_filter/document_filter.py:22-31 | a sentence line written by the cleaner is read as text, never as a tag, and stripping gives back the sentence |
| OnionRoundTrip.ScanBlock | corpus_cleaner/components/g_document_filter/document_filter.py:19-31 | the reader sees an annotated block as its opening tags, its marked body lines and its closing line |
| OnionRoundTrip.OpenScansContribute | corpus_cleaner/components/g_document_filter/document_filter.py:29-31 | the reader collects exactly the body lines marked "0" of a block |
| OnionRoundTrip.ReadBlocks | corpus_cleaner/components/g_document_filter/document_filter.py:17-31 | the annotated lines of a written file read back block by block as the deduplicated documents, without error |
| OnionRoundTrip.DedupRoundTrip | corpus_cleaner/components/g_document_filter/document_filter.py:17-47 | the detector's output for a written file reads back as one document per written one, holding in order exactly its sentences marked "0" |
| OnionRoundTrip.RoundTrip | corpus_cleaner/components/g_document_filter/document_filter.py:17-47 | when every line is kept, documents with plain sentences read back with exactly their sentences, in order, and empty content |
| OnionRoundTrip.EmptyDocumentRereadsAsBlank | corpus_cleaner/components/g_document_filter/document_filter.py:46 | a document without sentences is written with one empty body line, which reads back as one empty sentence |
| OnionRoundTrip.AllDuplicateBlockYieldsEmpty | corpus_cleaner/components/a_data_parser/onion_parser.py:22-28 | a block whose every body line is marked duplicate is still yielded, with no sentences |
| OnionRoundTrip.RepeatedSentenceDropped | corpus_cleaner/components/g_document_filter/document_filter.py:17-47 | a document repeating a sentence, with the second copy marked duplicate, reads back with the other two sentences |
| Text.StripFixesExactlyStripped | corpus_cleaner/components/g_document_filter/document_filter.py:31 | `strip()` leaves a string unchanged exactly when it has no leading or trailing whitespace |
| Text.ReadLines | corpus_cleaner/components/g_document_filter/document_filter.py:19 | the lines `readlines()` returns concatenate back to the file |
| Text.ReadLinesShape | corpus_cleaner/components/g_document_filter/document_filter.py:19 | every line is non-empty, holds a newline at most at its end, and ends in one unless it is the last |
| Text.ReadLinesTerminated | corpus_cleaner/components/i_output_formatter/sentence_output_formatter.py:18 | lines written each with a newline read back as themselves |
| OutputFormatters.SentenceOutput | corpus_cleaner/components/i_output_formatter/sentence_output_formatter.py:15-18 | a document writes nothing exactly when it has no sentences |
| OutputFormatters.SentenceStream | corpus_cleaner/components/i_output_formatter/sentence_output_formatter.py:15-18 | a run writes nothing exactly when no document of the stream has a sentence |
| OutputFormatters.SentenceStreamAppend | corpus_cleaner/components/i_output_formatter/sentence_output_formatter.py:13 | the file, opened for appending, holds the concatenation of the outputs of consecutive streams |
| OutputFormatters.SentenceStreamRoundTrip | corpus_cleaner/components/i_output_formatter/sentence_output_formatter.py:15-18 | with sentences free of line breaks (`\n` and `\r`), the file has one line per sentence, and reading it back recovers every sentence in order |
| OutputFormatters.FairseqOutput | corpus_cleaner/components/i_output_formatter/fairseq_lm_output_formatter.py:12-16 | a document writes nothing, not even the blank line, exactly when it has no sentences |
| OutputFormatters.FairseqBlankTerminated | corpus_cleaner/components/i_output_formatter/fairseq_lm_output_formatter.py:14-16 | a non-empty document is written as its sentence lines followed by one blank line |
| OutputFormatters.FairseqStream | corpus_cleaner/components/i_output_formatter/fairseq_lm_output_formatter.py:12-16 | a run writes nothing exactly when no document of the stream has a sentence |
| OutputFormatters.FairseqStreamAppend | corpus_cleaner/components/i_output_formatter/fairseq_lm_output_formatter.py:10 | the file, opened for appending, holds the concatenation of consecutive outputs |
| OutputFormatters.FairseqRoundTrip | corpus_cleaner/components/i_output_formatter/fairseq_lm_output_formatter.py:12-16 | with non-empty sentences free of line breaks (`\n` and `\r`), cutting the file at blank lines recovers exactly the sentence lists of the documents that had sentences, in order |
| ParserFactory.NewOnionParser | corpus_cleaner/components/a_data_parser/onion_parser.py:10 | the onion constructor builds a parser holding the configuration and `debug` exactly when it gets one positional argument; any other count raises `TypeError` |
| ParserFactory.GetParser | corpus_cleaner/components/a_data_parser/data_parser_factory.py:19-39 | a parser built is of the class the format names, with the input and output paths untouched; `NotImplementedError` carries the format and never comes from "onion"; a constructor `TypeError` comes only from "onion" called as written |
| ParserFactory.GetParserMapper | corpus_cleaner/components/a_data_parser/data_parser_factory.py:42-43 | a mapper built wraps a parser of the class the format names; otherwise the factory's error is raised, `TypeError` only for "onion" as written |
| ParserFactory.AsWrittenAccepts | corpus_cleaner/components/a_data_parser/data_parser_factory.py:16-39 | as written, a format is accepted exactly when it is one of the seven listed names; any name that is neither listed nor "onion" raises `NotImplementedError` with the format |
| ParserFactory.OnionRaisesTypeError | corpus_cleaner/components/a_data_parser/data_parser_factory.py:35-37 | as written, "onion" sets the caller's encoding to UTF-8 and then raises `TypeError`: two positional arguments where `OnionParser` takes one |
| ParserFactory.GetParserAccepts | corpus_cleaner/components/a_data_parser/data_parser_factory.py:16-39 | with the logger passed by keyword, a format is accepted exactly when it is one of the seven listed names or "onion"; anything else raises `NotImplementedError` with the format |
| ParserFactory.CallsAgreeOffOnion | corpus_cleaner/components/a_data_parser/data_parser_factory.py:21-39 | the call as written and the corrected call give the same result for every format but "onion" |
| ParserFactory.GetParserBuildsNamedKind | corpus_cleaner/components/a_data_parser/data_parser_factory.py:21-37 | each parser class is built from its own name; as written, every class but the onion parser |
| ParserFactory.ListedFormatsDistinct | corpus_cleaner/components/a_data_parser/data_parser_factory.py:16-34 | the seven listed names select seven distinct classes, none of them the onion parser |
| ParserFactory.OnlyOnionAltersConfig | corpus_cleaner/components/a_data_parser/data_parser_factory.py:21-37 | only "onion" changes the caller's configuration, setting its encoding to UTF-8 whether or not the parser is then built; only the onion parser receives `debug` |
| ParserFactory.MapperWrapsParser | corpus_cleaner/components/a_data_parser/data_parser_factory.py:42-43 | the mapper is built exactly for the seven listed names, plus "onion" when the logger is passed by keyword; it wraps the factory's parser; "onion" as written passes on `TypeError`, and an unknown name `NotImplementedError` |

## Left out

- The Onion subprocess (`DocumentFilter._run_onion`, `_reduce`): an external process. The
  model takes its per-line marks as an input sequence.
- File opening, closing and path handling (`_init_writing`, `_end_writing`): files are
  `string` values. The formatters' append mode is modelled as concatenation.
- Universal-newline translation on reading: `Text.ReadLines` ends a line at `\n` only,
  while Python's text mode also ends one at `\r` and `\r\n`. The two agree on text
  without `\r`. So OnionRoundTrip.DedupRoundTrip, OnionRoundTrip.RoundTrip,
  OnionRoundTrip.RepeatedSentenceDropped, OutputFormatters.SentenceStreamRoundTrip and
  OutputFormatters.FairseqRoundTrip require sentences without `\r` (`PlainSentence`,
  `NoNewlines`), and reading a sentence that holds `\r` is not modelled.
- The character classes `str.isdigit`, `str.isalnum` and `str.isupper`: Unicode tables.
  They are parameters of the model.
- `AlphabetDetector`: a foreign library, passed in as a parameter.
- `langid`'s `classify`: a foreign library, passed in as a parameter.
- The tag-rewriting regex `[. ]*(<.*?> ?)+ *`: an opaque content rewrite passed in as a
  parameter, because its lazy-match semantics are beyond this model.
- PreFilterer.DictKeeps: treats dictionary terms as literal strings, because the terms
  are joined into a regex and regex metacharacters in the terms are not modelled.
  The empty term list (the empty pattern) is modelled exactly.
- PreFilterer.HeadsKeeps: `re.IGNORECASE` folding is modelled for ASCII letters and the
  long s (U+017F), the only case pairs the four tokens can meet. Other Unicode case
  pairs are not modelled.
- PreFilterer.DisablingKeepsMore: as written, it requires that turning options off only
  removes checks (`Shrinks`), which excludes turning the alphanumeric option off while the
  uppercase option stays on. In that case the property is false
  (PreFilterer.AlphanumOffDropsDocument; see Findings).
- PreFilterer.PassingInputsGrow: the same restriction as `DisablingKeepsMore`, for the
  same reason.
- PreFilterer.DisablingKeepsMoreDocuments: stated for the guarded policy, and under
  `Shrinks`. As written, turning the length check off can end the stream early
  (PreFilterer.EmptyDocumentEndsWeakerStream; see Findings).
- Floating-point rounding: thresholds and ratios are exact reals.
- Argument parsing (`add_args`, `check_args`) and the merging of command-line values with
  constructor defaults: the model takes the resolved configuration.
- The constructors of the seven other parser classes (wikipedia_parser.py and the rest)
  are not part of this model: the factory's calls to them are taken to succeed. Only
  `OnionParser`'s signature is modelled (`ParserFactory.NewOnionParser`).
- Loggers and the `debug` flag's effect inside the onion parser: they do not affect the
  documents produced.
- `test()` in src/components/sentence_filter/sentence_filter.py: it runs real parsers and
  prints.
- The normaliser and document organiser under src/components: they are stubs.
- The parallel scheduling of pipeline stages: concurrency, not part of the core.

## Findings

| source | as written | input that shows it | evidently intended | confidence | as-written member | corrected member |
|---|---|---|---|---|---|---|
| corpus_cleaner/components/c_pre_filterer/pre_filterer.py:117-121 | `_filter_by_alphanum` divides by the length of the content with its whitespace removed. The length check before it measures the raw content, so content made only of whitespace reaches the division with a zero denominator, and the `ZeroDivisionError` ends the whole stream. | with the default options, a document whose content is 40 spaces and which has no headers | a document with no non-whitespace character is dropped by the check | high; not executed | PreFilterer.BlankDocumentRaises | PreFilterer.BlankDocumentDroppedWhenGuarded |
| corpus_cleaner/components/c_pre_filterer/pre_filterer.py:87-88 | A positive uppercase threshold registers `_filter_by_alphanum` again, and `_filter_by_uppercase` is never registered. With `--alphanum_filter 0` and the uppercase option still on, the alphanumeric check runs with bound 0, which rejects any content holding a character that is neither whitespace nor alphanumeric, so turning an option off drops documents. | the default options with `--alphanum_filter 0`, and a 40-character document of letters ending in `.`, without headers, detected as Latin | the uppercase option registers `_filter_by_uppercase` with its own threshold, and turning an option off never drops a document | high; not executed | PreFilterer.AlphanumOffDropsDocument | PreFilterer.DisablingKeepsMore |
| corpus_cleaner/components/c_pre_filterer/pre_filterer.py:112-115 | `_filter_by_digits` divides by the length of the content. Only the length check before it keeps empty content away, so with `--char-length-filter 0` an empty document raises `ZeroDivisionError`, which ends the stream and loses every later document. | the default options with `--char-length-filter 0`, and the stream [empty document, a document the defaults keep] | an empty document is dropped, and turning an option off never loses a document the full configuration yields | high; not executed | PreFilterer.EmptyDocumentEndsWeakerStream | PreFilterer.DisablingKeepsMoreDocuments |
| corpus_cleaner/components/a_data_parser/data_parser_factory.py:35-37 | The onion branch sets `config.encoding` and then calls `OnionParser(config, logger, debug=debug)`. `OnionParser.__init__(self, args, **kwargs)` (onion_parser.py:10) takes one positional argument, so the call raises `TypeError`. The caller's configuration has already been changed, and `get_parser_mapper` passes the error on. | `get_parser('onion', config)` with any configuration | the logger is passed by keyword, and "onion" builds an onion parser with UTF-8 encoding | high; not executed | ParserFactory.OnionRaisesTypeError | ParserFactory.GetParserAccepts |

The corrected division behaviour is the `DropOnEmpty` policy of `PreFilterer.AlphanumVerdict`,
`PreFilterer.DigitsVerdict` and `PreFilterer.UppercaseVerdict`. `PreFilterer.ChainErrors`
proves that under `DropOnEmpty` no chain ever raises, whatever the wiring. The corrected
registration is the `UppercaseCheck` wiring of `PreFilterer.Chain`; it changes which
checks run, not whether a check can raise. `PreFilterer.OnlyAlphanumCanRaise` shows why the digit check's own division is
safe as written whenever the length threshold is at least one. The corrected factory call
is the `LoggerKeyword` value of `ParserFactory.OnionCall`.

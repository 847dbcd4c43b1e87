/** The document pre-filter (`PreFilterer`): the configuration decides which checks enter
    an ordered chain, every document has its markup rewritten first, and the chain is
    evaluated as a short-circuit AND. Character classes, alphabet detection, language
    identification and the tag-rewriting regex are foreign code and come in as oracles. */
module PreFilterer {
  import opened Base
  import opened Text
  import opened Documents
  import Seqs

  /** The resolved options of the pre-filter (command-line values already merged with
      the constructor's defaults). */
  datatype Config = Config(
    removeTags: bool,
    charLengthFilter: int,
    headFilter: bool,
    digitsFilter: real,
    alphanumFilter: real,
    uppercaseFilter: real,
    alphabetFilter: Option<seq<string>>,
    langFilter: Option<seq<string>>,
    langFilterThreshold: real,
    dictionaryFilter: Option<seq<string>>)

  /** The foreign code the checks call. */
  datatype Oracles = Oracles(
    stripTags: string -> string,            // `re.sub('[. ]*(<.*?> ?)+ *', '. ', text)`
    isDigit: char -> bool,                  // `str.isdigit`
    isAlnum: char -> bool,                  // `str.isalnum`
    isUpper: char -> bool,                  // `str.isupper`
    detectAlphabets: string -> set<string>, // `AlphabetDetector.detect_alphabet`
    classify: string -> LangGuess)          // `LanguageIdentifier.classify`

  /** One entry of the chain, with the option values it reads. */
  datatype Check =
    | ByLength(min: int)
    | ByHeads
    | ByDigits(maxDigits: real)
    | ByAlphanum(maxNonAlnum: real)
    | ByUppercase(maxUpper: real)
    | ByAlphabet(alphabets: seq<string>)
    | ByLang(langs: seq<string>, threshold: real)
    | ByDict(terms: seq<string>)

  // ---------------------------------------------------------------------------
  // Building the chain

  /** `filters.append(check)` when `enabled`: the one-element piece the option contributes. */
  function Optional(enabled: bool, c: Check): (piece: seq<Check>)
    ensures |piece| == Count(enabled)
    ensures forall x :: x in piece <==> enabled && x == c
  {
    if enabled then [c] else []
  }

  function LengthStage(cfg: Config): seq<Check> { Optional(cfg.charLengthFilter > 0, ByLength(cfg.charLengthFilter)) }
  function HeadStage(cfg: Config): seq<Check> { Optional(cfg.headFilter, ByHeads) }
  function DigitsStage(cfg: Config): seq<Check> { Optional(cfg.digitsFilter > 0.0, ByDigits(cfg.digitsFilter)) }
  function AlphanumStage(cfg: Config): seq<Check> { Optional(cfg.alphanumFilter > 0.0, ByAlphanum(cfg.alphanumFilter)) }
  /** The uppercase option registers the alphanumeric check, not the uppercase one. */
  function UppercaseStage(cfg: Config): seq<Check> { Optional(cfg.uppercaseFilter > 0.0, ByAlphanum(cfg.alphanumFilter)) }
  function AlphabetStage(cfg: Config): seq<Check>
  {
    if cfg.alphabetFilter.Some? then [ByAlphabet(cfg.alphabetFilter.value)] else []
  }
  function LangStage(cfg: Config): seq<Check>
  {
    if cfg.langFilter.Some? then [ByLang(cfg.langFilter.value, cfg.langFilterThreshold)] else []
  }
  function DictStage(cfg: Config): seq<Check>
  {
    if cfg.dictionaryFilter.Some? then [ByDict(cfg.dictionaryFilter.value)] else []
  }

  /** `_build_filters`: the checks the options enable, in a fixed order. */
  function BuildFilters(cfg: Config): (chain: seq<Check>)
    ensures |chain| <= 8
    ensures forall u :: ByUppercase(u) !in chain
  {
    LengthStage(cfg) + HeadStage(cfg) + DigitsStage(cfg) + AlphanumStage(cfg) + UppercaseStage(cfg)
    + AlphabetStage(cfg) + LangStage(cfg) + DictStage(cfg)
  }

  /** The position of a check's kind in the fixed registration order. */
  function Rank(c: Check): nat
  {
    match c
    case ByLength(_) => 0
    case ByHeads => 1
    case ByDigits(_) => 2
    case ByAlphanum(_) => 3
    case ByUppercase(_) => 4
    case ByAlphabet(_) => 5
    case ByLang(_, _) => 6
    case ByDict(_) => 7
  }

  /** The check is one the configuration enables, with the option values it configures. */
  predicate Configured(cfg: Config, c: Check)
  {
    match c
    case ByLength(m) => cfg.charLengthFilter > 0 && m == cfg.charLengthFilter
    case ByHeads => cfg.headFilter
    case ByDigits(x) => cfg.digitsFilter > 0.0 && x == cfg.digitsFilter
    case ByAlphanum(x) => (cfg.alphanumFilter > 0.0 || cfg.uppercaseFilter > 0.0) && x == cfg.alphanumFilter
    case ByUppercase(_) => false
    case ByAlphabet(a) => cfg.alphabetFilter == Some(a)
    case ByLang(l, t) => cfg.langFilter == Some(l) && t == cfg.langFilterThreshold
    case ByDict(t) => cfg.dictionaryFilter == Some(t)
  }

  function Count(b: bool): nat
  {
    if b then 1 else 0
  }

  /** The number of options that register a check. */
  function Enabled(cfg: Config): nat
  {
    Count(cfg.charLengthFilter > 0) + Count(cfg.headFilter) + Count(cfg.digitsFilter > 0.0)
    + Count(cfg.alphanumFilter > 0.0) + Count(cfg.uppercaseFilter > 0.0) + Count(cfg.alphabetFilter.Some?)
    + Count(cfg.langFilter.Some?) + Count(cfg.dictionaryFilter.Some?)
  }

  predicate SortedByRank(chain: seq<Check>)
  {
    forall i, j :: 0 <= i < j < |chain| ==> Rank(chain[i]) <= Rank(chain[j])
  }

  /** One check per enabled option. */
  lemma BuildFiltersLength(cfg: Config)
    ensures |BuildFilters(cfg)| == Enabled(cfg)
  {
  }

  /** Every check of the chain is enabled by the configuration and carries its values. */
  lemma BuildFiltersSound(cfg: Config)
    ensures forall c :: c in BuildFilters(cfg) ==> Configured(cfg, c)
  {
    var front := LengthStage(cfg) + HeadStage(cfg) + DigitsStage(cfg) + AlphanumStage(cfg);
    var back := UppercaseStage(cfg) + AlphabetStage(cfg) + LangStage(cfg) + DictStage(cfg);
    assert BuildFilters(cfg) == front + back;
    forall c | c in front ensures Configured(cfg, c) {
      if c in LengthStage(cfg) {
      } else if c in HeadStage(cfg) {
      } else if c in DigitsStage(cfg) {
      } else {
        assert c in AlphanumStage(cfg);
      }
    }
    forall c | c in back ensures Configured(cfg, c) {
      if c in UppercaseStage(cfg) {
      } else if c in AlphabetStage(cfg) {
      } else if c in LangStage(cfg) {
      } else {
        assert c in DictStage(cfg);
      }
    }
  }

  /** Every enabled option has its check in the chain. */
  lemma BuildFiltersComplete(cfg: Config)
    ensures cfg.charLengthFilter > 0 ==> ByLength(cfg.charLengthFilter) in BuildFilters(cfg)
    ensures cfg.headFilter ==> ByHeads in BuildFilters(cfg)
    ensures cfg.digitsFilter > 0.0 ==> ByDigits(cfg.digitsFilter) in BuildFilters(cfg)
    ensures cfg.alphanumFilter > 0.0 || cfg.uppercaseFilter > 0.0 ==> ByAlphanum(cfg.alphanumFilter) in BuildFilters(cfg)
    ensures forall a :: cfg.alphabetFilter == Some(a) ==> ByAlphabet(a) in BuildFilters(cfg)
    ensures forall l :: cfg.langFilter == Some(l) ==> ByLang(l, cfg.langFilterThreshold) in BuildFilters(cfg)
    ensures forall t :: cfg.dictionaryFilter == Some(t) ==> ByDict(t) in BuildFilters(cfg)
  {
  }

  /** How many times `c` is registered in `chain`. */
  function Occurrences(chain: seq<Check>, c: Check): nat
    decreases |chain|
  {
    if chain == [] then 0 else Count(chain[0] == c) + Occurrences(chain[1..], c)
  }

  lemma {:induction false} OccurrencesAppend(xs: seq<Check>, ys: seq<Check>, c: Check)
    ensures Occurrences(xs + ys, c) == Occurrences(xs, c) + Occurrences(ys, c)
    decreases |xs|
  {
    if xs != [] {
      assert (xs + ys)[1..] == xs[1..] + ys;
      OccurrencesAppend(xs[1..], ys, c);
    } else {
      assert xs + ys == ys;
    }
  }

  lemma {:induction false} AbsentOccurrences(chain: seq<Check>, c: Check)
    requires c !in chain
    ensures Occurrences(chain, c) == 0
    decreases |chain|
  {
    if chain != [] {
      assert chain[0] != c;
      assert c !in chain[1..];
      AbsentOccurrences(chain[1..], c);
    }
  }

  lemma OptionalOccurrences(enabled: bool, c: Check, x: Check)
    ensures Occurrences(Optional(enabled, c), x) == Count(enabled && x == c)
  {
    if enabled {
      assert Optional(enabled, c)[1..] == [];
    }
  }

  /** The alphanumeric check appears once for each of the two options that register it. */
  lemma BuildFiltersAlphanumTwice(cfg: Config)
    ensures Occurrences(BuildFilters(cfg), ByAlphanum(cfg.alphanumFilter))
      == Count(cfg.alphanumFilter > 0.0) + Count(cfg.uppercaseFilter > 0.0)
  {
    var a := ByAlphanum(cfg.alphanumFilter);
    var front := LengthStage(cfg) + HeadStage(cfg) + DigitsStage(cfg);
    var s4, s5, s6, s7, s8 := AlphanumStage(cfg), UppercaseStage(cfg), AlphabetStage(cfg), LangStage(cfg), DictStage(cfg);
    FrontLacksAlphanum(cfg);
    OptionalOccurrences(cfg.alphanumFilter > 0.0, a, a);
    OptionalOccurrences(cfg.uppercaseFilter > 0.0, a, a);
    AbsentOccurrences(s6, a);
    AbsentOccurrences(s7, a);
    AbsentOccurrences(s8, a);
    OccurrencesAppend(front, s4, a);
    OccurrencesAppend(front + s4, s5, a);
    OccurrencesAppend(front + s4 + s5, s6, a);
    OccurrencesAppend(front + s4 + s5 + s6, s7, a);
    OccurrencesAppend(front + s4 + s5 + s6 + s7, s8, a);
  }

  lemma FrontLacksAlphanum(cfg: Config)
    ensures Occurrences(LengthStage(cfg) + HeadStage(cfg) + DigitsStage(cfg), ByAlphanum(cfg.alphanumFilter)) == 0
  {
    var a := ByAlphanum(cfg.alphanumFilter);
    OptionalOccurrences(cfg.charLengthFilter > 0, ByLength(cfg.charLengthFilter), a);
    OptionalOccurrences(cfg.headFilter, ByHeads, a);
    OptionalOccurrences(cfg.digitsFilter > 0.0, ByDigits(cfg.digitsFilter), a);
    OccurrencesAppend(LengthStage(cfg), HeadStage(cfg), a);
    OccurrencesAppend(LengthStage(cfg) + HeadStage(cfg), DigitsStage(cfg), a);
  }

  /** The chain follows the fixed registration order. */
  lemma BuildFiltersOrdered(cfg: Config)
    ensures SortedByRank(BuildFilters(cfg))
  {
    var p1 := LengthStage(cfg);
    var p2 := HeadStage(cfg);
    var p3 := DigitsStage(cfg);
    var p4 := AlphanumStage(cfg);
    var p5 := UppercaseStage(cfg);
    var p6 := AlphabetStage(cfg);
    var p7 := LangStage(cfg);
    var p8 := DictStage(cfg);
    SortedConcat([], p1, 0, 0);
    SortedConcat(p1, p2, 0, 1);
    SortedConcat(p1 + p2, p3, 1, 2);
    SortedConcat(p1 + p2 + p3, p4, 2, 3);
    SortedConcat(p1 + p2 + p3 + p4, p5, 3, 3);
    SortedConcat(p1 + p2 + p3 + p4 + p5, p6, 3, 5);
    SortedConcat(p1 + p2 + p3 + p4 + p5 + p6, p7, 5, 6);
    SortedConcat(p1 + p2 + p3 + p4 + p5 + p6 + p7, p8, 6, 7);
  }

  /** Sorted pieces whose ranks are separated concatenate to a sorted chain. */
  lemma SortedConcat(xs: seq<Check>, ys: seq<Check>, mid: nat, top: nat)
    requires SortedByRank(xs) && forall c :: c in xs ==> Rank(c) <= mid
    requires forall c :: c in ys ==> Rank(c) == top
    requires mid <= top
    ensures SortedByRank(xs + ys)
    ensures forall c :: c in xs + ys ==> Rank(c) <= top
  {
    var zs := xs + ys;
    forall i, j | 0 <= i < j < |zs| ensures Rank(zs[i]) <= Rank(zs[j]) {
      if j < |xs| {
        assert zs[i] == xs[i] && zs[j] == xs[j];
      } else if i < |xs| {
        assert zs[i] in xs && zs[j] in ys;
      } else {
        assert zs[i] in ys && zs[j] in ys;
      }
    }
  }

  /** The uppercase check is never registered: enabling the uppercase option adds a
      second alphanumeric check instead. */
  lemma UppercaseNeverRegistered(cfg: Config)
    ensures forall c :: c in BuildFilters(cfg) ==> !c.ByUppercase?
    ensures cfg.uppercaseFilter > 0.0 ==> ByAlphanum(cfg.alphanumFilter) in BuildFilters(cfg)
  {
    BuildFiltersSound(cfg);
    BuildFiltersComplete(cfg);
  }

  /** The options a run gets when none is given on the command line. */
  const DefaultConfig: Config := Config(true, 40, true, 0.1, 0.1, 0.4, Some(["LATIN"]), None, 0.9, None)

  /** With the command-line defaults (tags removed, at least 40 characters, the header
      check on, at most 10% digits, at most 10% non-alphanumerics, the uppercase option at
      40%, the Latin alphabet, no language or dictionary filter) the chain is fixed. */
  lemma DefaultChain()
    ensures BuildFilters(DefaultConfig)
      == [ByLength(40), ByHeads, ByDigits(0.1), ByAlphanum(0.1), ByAlphanum(0.1), ByAlphabet(["LATIN"])]
  {
  }

  /** Which check the uppercase option registers: the alphanumeric check a second time,
      as the code does, or the uppercase check its name and help text describe. */
  datatype Wiring = AlphanumAgain | UppercaseCheck

  /** The uppercase option registering `_filter_by_uppercase`. */
  function IntendedUppercaseStage(cfg: Config): seq<Check>
  {
    Optional(cfg.uppercaseFilter > 0.0, ByUppercase(cfg.uppercaseFilter))
  }

  /** The chain with the uppercase option registering the uppercase check. */
  function IntendedFilters(cfg: Config): seq<Check>
  {
    LengthStage(cfg) + HeadStage(cfg) + DigitsStage(cfg) + AlphanumStage(cfg) + IntendedUppercaseStage(cfg)
    + AlphabetStage(cfg) + LangStage(cfg) + DictStage(cfg)
  }

  /** The chain a run uses under the given wiring. */
  function Chain(w: Wiring, cfg: Config): seq<Check>
  {
    match w
    case AlphanumAgain => BuildFilters(cfg)
    case UppercaseCheck => IntendedFilters(cfg)
  }

  /** With the intended wiring each ratio option registers its own check exactly once:
      the alphanumeric check once for the alphanumeric option, the uppercase check, with
      the uppercase bound, once for the uppercase option. */
  lemma IntendedRegistersEachOnce(cfg: Config)
    ensures Occurrences(IntendedFilters(cfg), ByAlphanum(cfg.alphanumFilter)) == Count(cfg.alphanumFilter > 0.0)
    ensures Occurrences(IntendedFilters(cfg), ByUppercase(cfg.uppercaseFilter)) == Count(cfg.uppercaseFilter > 0.0)
  {
    IntendedRatioCount(cfg, ByAlphanum(cfg.alphanumFilter));
    IntendedRatioCount(cfg, ByUppercase(cfg.uppercaseFilter));
  }

  /** How often a ratio check occurs in the intended chain: once per stage that registers it. */
  lemma IntendedRatioCount(cfg: Config, c: Check)
    requires c.ByAlphanum? || c.ByUppercase?
    ensures Occurrences(IntendedFilters(cfg), c)
      == Count(cfg.alphanumFilter > 0.0 && c == ByAlphanum(cfg.alphanumFilter))
       + Count(cfg.uppercaseFilter > 0.0 && c == ByUppercase(cfg.uppercaseFilter))
  {
    var front := LengthStage(cfg) + HeadStage(cfg) + DigitsStage(cfg);
    var s4, s5, s6, s7, s8 := AlphanumStage(cfg), IntendedUppercaseStage(cfg), AlphabetStage(cfg), LangStage(cfg), DictStage(cfg);
    FrontLacksRatio(cfg, c);
    OptionalOccurrences(cfg.alphanumFilter > 0.0, ByAlphanum(cfg.alphanumFilter), c);
    OptionalOccurrences(cfg.uppercaseFilter > 0.0, ByUppercase(cfg.uppercaseFilter), c);
    AbsentOccurrences(s6, c);
    AbsentOccurrences(s7, c);
    AbsentOccurrences(s8, c);
    OccurrencesAppend(front, s4, c);
    OccurrencesAppend(front + s4, s5, c);
    OccurrencesAppend(front + s4 + s5, s6, c);
    OccurrencesAppend(front + s4 + s5 + s6, s7, c);
    OccurrencesAppend(front + s4 + s5 + s6 + s7, s8, c);
  }

  lemma FrontLacksRatio(cfg: Config, c: Check)
    requires c.ByAlphanum? || c.ByUppercase?
    ensures Occurrences(LengthStage(cfg) + HeadStage(cfg) + DigitsStage(cfg), c) == 0
  {
    assert c !in LengthStage(cfg) + HeadStage(cfg) + DigitsStage(cfg);
    AbsentOccurrences(LengthStage(cfg) + HeadStage(cfg) + DigitsStage(cfg), c);
  }

  // ---------------------------------------------------------------------------
  // The individual checks

  /** The `ZeroDivisionError` a ratio check raises on an empty denominator. */
  datatype CheckError = ZeroDivision(check: Check)

  /** How a ratio check treats an empty denominator: as the source does (it raises), or
      by dropping the document. */
  datatype DivisionPolicy = AsWritten | DropOnEmpty

  /** `_filter_by_length`: keeps a document of at least `min` characters. */
  function LengthKeeps(min: int, content: string): (keep: bool)
    ensures keep <==> |content| >= min
  {
    !(|content| < min)
  }

  /** One character of a search pattern: `.` matches any character but a newline, any
      other character matches itself ignoring case. */
  datatype Atom = AnyButNewline | Literal(c: char)

  function Compile(token: string): (atoms: seq<Atom>)
    ensures |atoms| == |token|
    ensures forall k :: 0 <= k < |token| ==> atoms[k] == (if token[k] == '.' then AnyButNewline else Literal(token[k]))
    decreases |token|
  {
    if token == [] then []
    else [if token[0] == '.' then AnyButNewline else Literal(token[0])] + Compile(token[1..])
  }

  /** Case folding under `re.IGNORECASE` for the characters of the header tokens: ASCII
      letters fold to lower case, and the long s (U+017F) folds to `s`. */
  function CaseFold(c: char): char
  {
    if 'A' <= c <= 'Z' then (c as int + 32) as char
    else if c == '\U{17F}' then 's'
    else c
  }

  predicate AtomMatches(a: Atom, c: char)
  {
    match a
    case AnyButNewline => c != '\n'
    case Literal(x) => CaseFold(x) == CaseFold(c)
  }

  predicate MatchesAt(s: string, atoms: seq<Atom>, i: nat)
  {
    i + |atoms| <= |s| && forall k :: 0 <= k < |atoms| ==> AtomMatches(atoms[k], s[i + k])
  }

  /** `re.search(token, s, re.IGNORECASE)` finds a match. */
  predicate Search(s: string, token: string)
  {
    exists i: nat :: i <= |s| && MatchesAt(s, Compile(token), i)
  }

  const HeadTokens: seq<string> := ["found", "404", "robots.txt", "error"]

  /** The `for token in [...]` loop: the first token found rejects. */
  function NoTokenFound(heads: string, tokens: seq<string>): (keep: bool)
    ensures keep <==> forall t :: t in tokens ==> !Search(heads, t)
    decreases |tokens|
  {
    if tokens == [] then true
    else if Search(heads, tokens[0]) then false
    else NoTokenFound(heads, tokens[1..])
  }

  /** `_filter_by_heads`: a document without headers is always kept; one with headers is
      rejected exactly when one of the four tokens occurs in them, ignoring case. */
  function HeadsKeeps(heads: Option<string>): (keep: bool)
    ensures heads.None? ==> keep
    ensures heads.Some? ==> (keep <==> forall t :: t in HeadTokens ==> !Search(heads.value, t))
  {
    if heads.Some? then NoTokenFound(heads.value, HeadTokens) else true
  }

  /** Number of characters of `s` in the class `p` (`sum(p(c) for c in s)`). */
  function CountWhere(s: string, p: char -> bool): nat
  {
    |Seqs.Filter(s, p)|
  }

  /** `part` is at most the fraction `bound` of `whole`. */
  predicate ShareWithin(part: int, whole: nat, bound: real)
  {
    part as real <= bound * whole as real
  }

  /** Comparing a share of a positive total with a bound is comparing the scaled values. */
  lemma ScaleStrict(r: real, n: real, bound: real)
    requires n > 0.0
    ensures r > bound <==> r * n > bound * n
  {
    assert r * n - bound * n == (r - bound) * n;
  }

  /** `not (part / whole > bound)` is the share test. */
  lemma RatioWithin(part: nat, whole: nat, bound: real)
    requires whole > 0
    ensures !(part as real / whole as real > bound) <==> ShareWithin(part, whole, bound)
  {
    var n := whole as real;
    ScaleStrict(part as real / n, n, bound);
    assert (part as real / n) * n == part as real;
  }

  /** `not (1 - part / whole > bound)` is the share test on the complement. */
  lemma ComplementRatioWithin(part: nat, whole: nat, bound: real)
    requires 0 < whole && part <= whole
    ensures !(1.0 - part as real / whole as real > bound) <==> ShareWithin(whole - part, whole, bound)
  {
    var n := whole as real;
    var x := (1.0 - part as real / n) - (whole - part) as real / n;
    assert x * n == 0.0 by {
      assert (part as real / n) * n == part as real;
      assert ((whole - part) as real / n) * n == (whole - part) as real;
    }
    ZeroFactor(x, n);
    RatioWithin(whole - part, whole, bound);
  }

  /** A product with a positive factor is zero only when the other factor is. */
  lemma ZeroFactor(x: real, n: real)
    requires n > 0.0 && x * n == 0.0
    ensures x == 0.0
  {
  }

  /** `_filter_by_digits`: the proportion of digits must not exceed the bound; an empty
      content raises, or is dropped under the corrected policy. */
  function DigitsVerdict(policy: DivisionPolicy, isDigit: char -> bool, maxDigits: real, content: string): (r: Result<bool, CheckError>)
    ensures r.Err? <==> |content| == 0 && policy == AsWritten
    ensures r.Err? ==> r.error == ZeroDivision(ByDigits(maxDigits))
    ensures |content| > 0 ==> (r == Ok(true) <==> ShareWithin(CountWhere(content, isDigit), |content|, maxDigits))
    ensures |content| == 0 && policy == DropOnEmpty ==> r == Ok(false)
  {
    if |content| == 0 then
      if policy == AsWritten then Err(ZeroDivision(ByDigits(maxDigits))) else Ok(false)
    else
      RatioWithin(CountWhere(content, isDigit), |content|, maxDigits);
      Ok(!(CountWhere(content, isDigit) as real / |content| as real > maxDigits))
  }

  /** `_filter_by_alphanum`: the proportion of non-alphanumeric characters among the
      non-whitespace ones must not exceed the bound; a content with no non-whitespace
      character raises, or is dropped under the corrected policy. */
  function AlphanumVerdict(policy: DivisionPolicy, isAlnum: char -> bool, maxNonAlnum: real, content: string): (r: Result<bool, CheckError>)
    ensures r.Err? <==> |RemoveSpaces(content)| == 0 && policy == AsWritten
    ensures r.Err? ==> r.error == ZeroDivision(ByAlphanum(maxNonAlnum))
    ensures |RemoveSpaces(content)| > 0 ==> (r == Ok(true)
      <==> ShareWithin(|RemoveSpaces(content)| - CountWhere(RemoveSpaces(content), isAlnum), |RemoveSpaces(content)|, maxNonAlnum))
    ensures |RemoveSpaces(content)| == 0 && policy == DropOnEmpty ==> r == Ok(false)
  {
    var dense := RemoveSpaces(content);
    if |dense| == 0 then
      if policy == AsWritten then Err(ZeroDivision(ByAlphanum(maxNonAlnum))) else Ok(false)
    else
      var alnum := CountWhere(dense, isAlnum);
      ComplementRatioWithin(alnum, |dense|, maxNonAlnum);
      Ok(!(1.0 - alnum as real / |dense| as real > maxNonAlnum))
  }

  /** `_filter_by_uppercase`: the proportion of uppercase characters must not exceed the
      bound; an empty content raises, or is dropped under the corrected policy. As
      written no chain calls it; the `UppercaseCheck` wiring does. */
  function UppercaseVerdict(policy: DivisionPolicy, isUpper: char -> bool, maxUpper: real, content: string): (r: Result<bool, CheckError>)
    ensures r.Err? <==> |content| == 0 && policy == AsWritten
    ensures r.Err? ==> r.error == ZeroDivision(ByUppercase(maxUpper))
    ensures |content| > 0 ==> (r == Ok(true) <==> ShareWithin(CountWhere(content, isUpper), |content|, maxUpper))
    ensures |content| == 0 && policy == DropOnEmpty ==> r == Ok(false)
  {
    if |content| == 0 then
      if policy == AsWritten then Err(ZeroDivision(ByUppercase(maxUpper))) else Ok(false)
    else
      RatioWithin(CountWhere(content, isUpper), |content|, maxUpper);
      Ok(!(CountWhere(content, isUpper) as real / |content| as real > maxUpper))
  }

  /** `_filter_by_alphabet`: some requested alphabet is among those detected. */
  function AlphabetKeeps(detected: set<string>, alphabets: seq<string>): (keep: bool)
    ensures keep <==> exists a :: a in alphabets && a in detected
  {
    var wanted := set a | a in alphabets;
    var common := detected * wanted;
    if |common| == 0 then
      assert forall a :: a in alphabets && a in detected ==> a in common;
      false
    else
      var a :| a in common;
      true
  }

  /** `_filter_by_dict`: the alternation of the terms must not occur in the content. The
      alternation of no terms is the empty pattern, which occurs everywhere. */
  function DictKeeps(terms: seq<string>, content: string): (keep: bool)
    ensures keep <==> terms != [] && forall t :: t in terms ==> !Contains(content, t)
  {
    !(terms == [] || exists t :: t in terms && Contains(content, t))
  }

  /** What one check decides about a document's content and headers. No check reads the
      document's language: a verdict is a function of the content and headers alone. Only
      a ratio check raises, only on an empty denominator, only as written, and the error
      names the check. */
  function Verdict(policy: DivisionPolicy, o: Oracles, c: Check, content: string, heads: Option<string>): (r: Result<bool, CheckError>)
    ensures r.Err? <==> policy == AsWritten && EmptyDenominator(c, content)
    ensures r.Err? ==> r.error == ZeroDivision(c)
  {
    match c
    case ByLength(m) => Ok(LengthKeeps(m, content))
    case ByHeads => Ok(HeadsKeeps(heads))
    case ByDigits(x) => DigitsVerdict(policy, o.isDigit, x, content)
    case ByAlphanum(x) => AlphanumVerdict(policy, o.isAlnum, x, content)
    case ByUppercase(x) => UppercaseVerdict(policy, o.isUpper, x, content)
    case ByAlphabet(a) => Ok(AlphabetKeeps(o.detectAlphabets(content), a))
    case ByLang(l, t) => Ok(Confident(o.classify(content), l, t))
    case ByDict(t) => Ok(DictKeeps(t, content))
  }

  /** The check accepts the document. */
  predicate Accepts(policy: DivisionPolicy, o: Oracles, c: Check, d: Document)
  {
    Verdict(policy, o, c, d.content, d.heads) == Ok(true)
  }

  /** The document after a check accepted it: `_filter_by_lang` records the language. */
  function Stamp(o: Oracles, c: Check, d: Document): (r: Document)
    ensures r.content == d.content && r.sentences == d.sentences && r.heads == d.heads
    ensures c.ByLang? ==> r.language == Some(o.classify(d.content).lang)
    ensures !c.ByLang? ==> r == d
  {
    if c.ByLang? then d.(language := Some(o.classify(d.content).lang)) else d
  }

  // ---------------------------------------------------------------------------
  // Running the chain on one document

  /** How far the chain got: how many checks were called, the last verdict (or the
      error), and the document as the checks left it. */
  datatype ChainRun = ChainRun(calls: nat, outcome: Result<bool, CheckError>, doc: Document)

  /** The inner `for filter_ in self.filters` loop. */
  function RunChain(policy: DivisionPolicy, o: Oracles, chain: seq<Check>, d: Document): (r: ChainRun)
    ensures r.calls <= |chain|
    ensures r.doc.content == d.content && r.doc.heads == d.heads && r.doc.sentences == d.sentences
    ensures r.outcome == Ok(true) ==> r.calls == |chain|
    ensures r.outcome != Ok(true) ==> 1 <= r.calls && Verdict(policy, o, chain[r.calls - 1], d.content, d.heads) == r.outcome
    ensures forall i :: 0 <= i < r.calls - 1 ==> Accepts(policy, o, chain[i], d)
    ensures r.outcome == Ok(true) ==> forall i :: 0 <= i < |chain| ==> Accepts(policy, o, chain[i], d)
    decreases |chain|
  {
    if chain == [] then ChainRun(0, Ok(true), d)
    else
      var v := Verdict(policy, o, chain[0], d.content, d.heads);
      if v != Ok(true) then ChainRun(1, v, d)
      else
        var rest := RunChain(policy, o, chain[1..], Stamp(o, chain[0], d));
        assert forall i :: 0 <= i < |chain| - 1 ==> chain[1..][i] == chain[i + 1];
        ChainRun(rest.calls + 1, rest.outcome, rest.doc)
  }

  /** Every check of the chain accepts the document. */
  predicate AllAccept(policy: DivisionPolicy, o: Oracles, chain: seq<Check>, d: Document)
  {
    forall i :: 0 <= i < |chain| ==> Accepts(policy, o, chain[i], d)
  }

  /** A document is kept exactly when every check accepts it; the first check that does
      not accept ends the run, so no later check is called. */
  lemma KeptIffAllAccept(policy: DivisionPolicy, o: Oracles, chain: seq<Check>, d: Document)
    ensures RunChain(policy, o, chain, d).outcome == Ok(true) <==> AllAccept(policy, o, chain, d)
  {
    var r := RunChain(policy, o, chain, d);
    if r.outcome == Ok(true) {
      assert AllAccept(policy, o, chain, d);
    } else {
      var k := r.calls - 1;
      assert !Accepts(policy, o, chain[k], d);
      assert !AllAccept(policy, o, chain, d);
    }
  }

  /** The language a kept document carries: the classifier's verdict when the chain holds
      a language check, the original one otherwise. */
  lemma {:induction false} KeptDocumentStamped(policy: DivisionPolicy, o: Oracles, chain: seq<Check>, d: Document)
    requires RunChain(policy, o, chain, d).outcome == Ok(true)
    ensures RunChain(policy, o, chain, d).doc
      == if exists i :: 0 <= i < |chain| && chain[i].ByLang? then d.(language := Some(o.classify(d.content).lang)) else d
    decreases |chain|
  {
    if chain != [] {
      var d' := Stamp(o, chain[0], d);
      KeptDocumentStamped(policy, o, chain[1..], d');
      assert (exists i :: 0 <= i < |chain| && chain[i].ByLang?)
        <==> chain[0].ByLang? || exists i :: 0 <= i < |chain[1..]| && chain[1..][i].ByLang? by {
        if exists i :: 0 <= i < |chain| && chain[i].ByLang? {
          var i :| 0 <= i < |chain| && chain[i].ByLang?;
          if i > 0 { assert chain[1..][i - 1].ByLang?; }
        }
        if exists i :: 0 <= i < |chain[1..]| && chain[1..][i].ByLang? {
          var i :| 0 <= i < |chain[1..]| && chain[1..][i].ByLang?;
          assert chain[i + 1].ByLang?;
        }
      }
      assert Verdict(policy, o, chain[0], d.content, d.heads) == Ok(true);
    }
  }

  /** The uppercase-character oracle never influences the pre-filter. */
  lemma UppercaseOracleUnused(policy: DivisionPolicy, cfg: Config, o: Oracles, isUpper: char -> bool, d: Document)
    ensures RunChain(policy, o, BuildFilters(cfg), d) == RunChain(policy, o.(isUpper := isUpper), BuildFilters(cfg), d)
  {
    UppercaseNeverRegistered(cfg);
    ChainIgnoresUpper(policy, o, isUpper, BuildFilters(cfg), d);
  }

  lemma {:induction false} ChainIgnoresUpper(policy: DivisionPolicy, o: Oracles, isUpper: char -> bool, chain: seq<Check>, d: Document)
    requires forall c :: c in chain ==> !c.ByUppercase?
    ensures RunChain(policy, o, chain, d) == RunChain(policy, o.(isUpper := isUpper), chain, d)
    decreases |chain|
  {
    if chain != [] {
      var o' := o.(isUpper := isUpper);
      assert chain[0] in chain;
      assert Verdict(policy, o, chain[0], d.content, d.heads) == Verdict(policy, o', chain[0], d.content, d.heads);
      assert Stamp(o, chain[0], d) == Stamp(o', chain[0], d);
      assert forall c :: c in chain[1..] ==> c in chain;
      ChainIgnoresUpper(policy, o, isUpper, chain[1..], Stamp(o, chain[0], d));
    }
  }

  /** The ratio check's denominator is empty on this content. */
  predicate EmptyDenominator(c: Check, content: string)
  {
    match c
    case ByDigits(_) => |content| == 0
    case ByUppercase(_) => |content| == 0
    case ByAlphanum(_) => |RemoveSpaces(content)| == 0
    case _ => false
  }

  /** A run that raises was stopped by the check it called last. */
  lemma ChainErrors(policy: DivisionPolicy, o: Oracles, chain: seq<Check>, d: Document)
    ensures var r := RunChain(policy, o, chain, d);
      r.outcome.Err? ==> && policy == AsWritten
                         && r.outcome.error == ZeroDivision(chain[r.calls - 1])
                         && EmptyDenominator(chain[r.calls - 1], d.content)
  {
    var r := RunChain(policy, o, chain, d);
    if r.outcome.Err? {
      assert Verdict(policy, o, chain[r.calls - 1], d.content, d.heads) == r.outcome;
    }
  }

  /** The length check runs first, so with a threshold of at least one character the
      digit check never sees empty content: the only check of a configured chain that
      can raise is the alphanumeric one. */
  lemma OnlyAlphanumCanRaise(policy: DivisionPolicy, cfg: Config, o: Oracles, d: Document)
    requires cfg.charLengthFilter >= 1
    ensures var r := RunChain(policy, o, BuildFilters(cfg), d);
      r.outcome.Err? ==> r.outcome.error.check.ByAlphanum?
  {
    var chain := BuildFilters(cfg);
    var r := RunChain(policy, o, chain, d);
    assert chain[0] == ByLength(cfg.charLengthFilter);
    ChainErrors(policy, o, chain, d);
    UppercaseNeverRegistered(cfg);
    if r.outcome.Err? {
      assert chain[r.calls - 1] in chain;
      if r.calls > 1 {
        assert Accepts(policy, o, chain[0], d);
      }
    }
  }

  /** A ten-character document is dropped by the default length check, the first one called. */
  lemma ShortDocumentDropped(policy: DivisionPolicy, o: Oracles, d: Document)
    requires |d.content| == 10
    ensures RunChain(policy, o, BuildFilters(DefaultConfig), d)
      == ChainRun(1, Ok(false), d)
  {
    DefaultChain();
  }

  /** `token` matches `s` at offset `i`, read character by character. */
  predicate TokenAt(s: string, token: string, i: nat)
  {
    i + |token| <= |s|
    && forall k :: 0 <= k < |token| ==>
         if token[k] == '.' then s[i + k] != '\n' else CaseFold(token[k]) == CaseFold(s[i + k])
  }

  /** A character-by-character match at some offset is a search hit. */
  lemma TokenAtFound(s: string, token: string, i: nat)
    requires TokenAt(s, token, i)
    ensures Search(s, token)
  {
    var atoms := Compile(token);
    forall k | 0 <= k < |atoms| ensures AtomMatches(atoms[k], s[i + k]) {
      assert atoms[k] == (if token[k] == '.' then AnyButNewline else Literal(token[k]));
    }
    assert MatchesAt(s, atoms, i);
  }

  /** A header string holding one of the tokens is rejected. */
  lemma TokenRejects(heads: string, token: string, i: nat)
    requires token in HeadTokens && TokenAt(heads, token, i)
    ensures !HeadsKeeps(Some(heads))
  {
    TokenAtFound(heads, token, i);
  }

  /** Content made only of whitespace, none of which the digit class accepts (true of
      `str.isdigit` on every whitespace character). */
  predicate Blank(o: Oracles, content: string)
  {
    forall i :: 0 <= i < |content| ==> IsSpace(content[i]) && !o.isDigit(content[i])
  }

  lemma BlankCounts(o: Oracles, content: string)
    requires Blank(o, content)
    ensures RemoveSpaces(content) == [] && CountWhere(content, o.isDigit) == 0
  {
    Seqs.FilterEmptyIff(content, c => !IsSpace(c));
    Seqs.FilterEmptyIff(content, o.isDigit);
  }

  /** A check that accepts and leaves the document unstamped hands it on unchanged. */
  lemma RunChainPasses(policy: DivisionPolicy, o: Oracles, chain: seq<Check>, d: Document)
    requires chain != [] && !chain[0].ByLang? && Verdict(policy, o, chain[0], d.content, d.heads) == Ok(true)
    ensures var rest := RunChain(policy, o, chain[1..], d);
      RunChain(policy, o, chain, d) == ChainRun(rest.calls + 1, rest.outcome, rest.doc)
  {
  }

  /** Whitespace-only content of the minimum length, without headers, passes the length,
      header and digit checks of the default chain and reaches the alphanumeric check. */
  lemma BlankReachesAlphanum(policy: DivisionPolicy, o: Oracles, d: Document)
    requires |d.content| >= 40 && Blank(o, d.content) && d.heads == None
    ensures var tail := [ByAlphanum(0.1), ByAlphanum(0.1), ByAlphabet(["LATIN"])];
      var rest := RunChain(policy, o, tail, d);
      RunChain(policy, o, BuildFilters(DefaultConfig), d) == ChainRun(rest.calls + 3, rest.outcome, rest.doc)
  {
    DefaultChain();
    BlankPassesFront(policy, o, d);
    var c0 := BuildFilters(DefaultConfig);
    var c1 := [ByHeads, ByDigits(0.1), ByAlphanum(0.1), ByAlphanum(0.1), ByAlphabet(["LATIN"])];
    var c2 := [ByDigits(0.1), ByAlphanum(0.1), ByAlphanum(0.1), ByAlphabet(["LATIN"])];
    var c3 := [ByAlphanum(0.1), ByAlphanum(0.1), ByAlphabet(["LATIN"])];
    assert c0[1..] == c1 && c1[1..] == c2 && c2[1..] == c3;
    RunChainPasses(policy, o, c2, d);
    RunChainPasses(policy, o, c1, d);
    RunChainPasses(policy, o, c0, d);
  }

  lemma BlankPassesFront(policy: DivisionPolicy, o: Oracles, d: Document)
    requires |d.content| >= 40 && Blank(o, d.content) && d.heads == None
    ensures Verdict(policy, o, ByLength(40), d.content, d.heads) == Ok(true)
    ensures Verdict(policy, o, ByHeads, d.content, d.heads) == Ok(true)
    ensures Verdict(policy, o, ByDigits(0.1), d.content, d.heads) == Ok(true)
  {
    BlankCounts(o, d.content);
    assert ShareWithin(0, |d.content|, 0.1);
  }

  /** As written, the `ZeroDivisionError` escapes from the fourth check. */
  lemma BlankDocumentRaises(o: Oracles, d: Document)
    requires |d.content| >= 40 && Blank(o, d.content) && d.heads == None
    ensures RunChain(AsWritten, o, BuildFilters(DefaultConfig), d)
      == ChainRun(4, Err(ZeroDivision(ByAlphanum(0.1))), d)
  {
    BlankReachesAlphanum(AsWritten, o, d);
    BlankCounts(o, d.content);
  }

  /** With the empty denominator guarded, the same document is dropped by the
      alphanumeric check instead. */
  lemma BlankDocumentDroppedWhenGuarded(o: Oracles, d: Document)
    requires |d.content| >= 40 && Blank(o, d.content) && d.heads == None
    ensures RunChain(DropOnEmpty, o, BuildFilters(DefaultConfig), d) == ChainRun(4, Ok(false), d)
  {
    BlankReachesAlphanum(DropOnEmpty, o, d);
    BlankCounts(o, d.content);
  }

  /** Headers reading "404 Not Found" are rejected, whatever the content. */
  lemma NotFoundHeadersRejected()
    ensures !HeadsKeeps(Some("404 Not Found"))
  {
    assert "404" in HeadTokens;
    TokenRejects("404 Not Found", "404", 0);
  }

  /** `.` in `robots.txt` is a wildcard: "robots_txt" is rejected too. */
  lemma WildcardInRobotsToken()
    ensures !HeadsKeeps(Some("robots_txt"))
  {
    assert "robots.txt" in HeadTokens;
    TokenRejects("robots_txt", "robots.txt", 0);
  }

  /** Header matching ignores case: "ERROR" is rejected. */
  lemma UppercaseTokenRejected()
    ensures !HeadsKeeps(Some("ERROR"))
  {
    assert "error" in HeadTokens;
    TokenRejects("ERROR", "error", 0);
  }

  // ---------------------------------------------------------------------------
  // The stream

  /** `doc.content = self._remove_tags(doc.content)` when tags are removed. */
  function Prepare(cfg: Config, o: Oracles, d: Document): (p: Document)
    ensures p.sentences == d.sentences && p.heads == d.heads && p.language == d.language
    ensures p.content == if cfg.removeTags then o.stripTags(d.content) else d.content
  {
    if cfg.removeTags then d.(content := o.stripTags(d.content)) else d
  }

  /** What the generator has produced when it stops: the documents yielded, and the
      position and error of the document whose check raised, if one did. */
  datatype Run = Run(out: seq<Document>, failure: Option<(nat, CheckError)>)

  /** The body of `_filter`'s loop on one document: what it yields, or what it raises. */
  type Body = Document -> Result<seq<Document>, CheckError>

  /** The loop of `_filter` around any body: every document in turn, its yield appended
      to the output, until the body raises; the failure records where, and what. */
  function Generate(body: Body, docs: seq<Document>, start: nat): (r: Run)
    ensures r.failure.Some? ==> && start <= r.failure.value.0 < start + |docs|
                                && body(docs[r.failure.value.0 - start]) == Err(r.failure.value.1)
    decreases |docs|
  {
    if docs == [] then Run([], None)
    else
      match body(docs[0])
      case Err(e) => Run([], Some((start, e)))
      case Ok(yielded) =>
        var rest := Generate(body, docs[1..], start + 1);
        assert rest.failure.Some? ==> docs[1..][rest.failure.value.0 - (start + 1)] == docs[rest.failure.value.0 - start];
        Run(yielded + rest.out, rest.failure)
  }

  /** Document `k` is the first on which the body raises, and it raises `e`. */
  predicate StopsWith(body: Body, docs: seq<Document>, k: nat, e: CheckError)
  {
    && k < |docs|
    && (forall i :: 0 <= i < k ==> body(docs[i]).Ok?)
    && body(docs[k]) == Err(e)
  }

  /** The loop stops at the first document on which the body raises. */
  lemma {:induction false} GenerateStops(body: Body, docs: seq<Document>, start: nat)
    requires Generate(body, docs, start).failure.Some?
    ensures StopsWith(body, docs, Generate(body, docs, start).failure.value.0 - start, Generate(body, docs, start).failure.value.1)
    decreases |docs|
  {
    if body(docs[0]).Ok? {
      var rest := Generate(body, docs[1..], start + 1);
      assert Generate(body, docs, start).failure == rest.failure;
      GenerateStops(body, docs[1..], start + 1);
      var k := rest.failure.value.0 - (start + 1);
      assert forall i :: 1 <= i < k + 1 ==> docs[i] == docs[1..][i - 1];
    }
  }

  /** Stopping at position `pos`, the loop has yielded exactly what it yields on the
      documents before it. */
  lemma {:induction false} GenerateFailureOutput(body: Body, docs: seq<Document>, start: nat, pos: nat, e: CheckError)
    requires Generate(body, docs, start).failure == Some((pos, e))
    ensures start <= pos < start + |docs| && Generate(body, docs, start).out == Generate(body, docs[..pos - start], start).out
    decreases |docs|
  {
    if body(docs[0]).Ok? {
      GenerateFailureOutput(body, docs[1..], start + 1, pos, e);
      var k := pos - start;
      assert docs[..k][0] == docs[0] && docs[..k][1..] == docs[1..][..k - 1];
    } else {
      assert docs[..0] == [];
    }
  }

  /** A body that yields `keep(d)` for the documents `pass` accepts and nothing for the
      others makes the loop a selection followed by a rewrite. */
  lemma {:induction false} GenerateSelects(body: Body, pass: Document -> bool, keep: Document -> Document, docs: seq<Document>, start: nat)
    requires forall i :: 0 <= i < |docs| ==> body(docs[i]) == Ok(if pass(docs[i]) then [keep(docs[i])] else [])
    ensures Generate(body, docs, start) == Run(Seqs.Map(Seqs.Filter(docs, pass), keep), None)
    decreases |docs|
  {
    if docs != [] {
      var head := if pass(docs[0]) then [docs[0]] else [];
      assert forall i :: 0 <= i < |docs| - 1 ==> docs[1..][i] == docs[i + 1];
      GenerateSelects(body, pass, keep, docs[1..], start + 1);
      assert Seqs.Filter(docs, pass) == head + Seqs.Filter(docs[1..], pass);
      Seqs.MapAppend(head, Seqs.Filter(docs[1..], pass), keep);
    }
  }

  /** A body that yields at most one document each time yields at most one per input. */
  lemma {:induction false} GenerateBounded(body: Body, docs: seq<Document>, start: nat)
    requires forall i :: 0 <= i < |docs| ==> body(docs[i]).Ok? ==> |body(docs[i]).value| <= 1
    ensures |Generate(body, docs, start).out| <= |docs|
    decreases |docs|
  {
    if docs != [] && body(docs[0]).Ok? {
      assert forall i :: 0 <= i < |docs| - 1 ==> docs[1..][i] == docs[i + 1];
      GenerateBounded(body, docs[1..], start + 1);
    }
  }

  /** One pass of the outer loop: the document yielded (if kept), or the error raised.
      Only the as-written policy raises; at most one document is yielded, and it is the
      input with its tags rewritten, its sentences and headers untouched. */
  function Step(policy: DivisionPolicy, w: Wiring, cfg: Config, o: Oracles, d: Document): (r: Result<seq<Document>, CheckError>)
    ensures r.Err? ==> policy == AsWritten
    ensures r.Ok? ==> |r.value| <= 1
    ensures r.Ok? && r.value != [] ==> && r.value[0].content == Prepare(cfg, o, d).content
                                        && r.value[0].sentences == d.sentences && r.value[0].heads == d.heads
  {
    var run := RunChain(policy, o, Chain(w, cfg), Prepare(cfg, o, d));
    match run.outcome
    case Err(e) => Err(e)
    case Ok(keep) => Ok(if keep then [run.doc] else [])
  }

  function StepFn(policy: DivisionPolicy, w: Wiring, cfg: Config, o: Oracles): Body
  {
    d => Step(policy, w, cfg, o, d)
  }

  /** `PreFilterer.apply`, `_filter`'s loop around `Step`: at most one output per input;
      a failure names an input position, and only the as-written policy fails. */
  function PreFilter(policy: DivisionPolicy, w: Wiring, cfg: Config, o: Oracles, docs: seq<Document>): (r: Run)
    ensures |r.out| <= |docs|
    ensures r.failure.Some? ==> r.failure.value.0 < |docs| && policy == AsWritten
  {
    GenerateBounded(StepFn(policy, w, cfg, o), docs, 0);
    Generate(StepFn(policy, w, cfg, o), docs, 0)
  }

  /** The document passes the configured chain once its tags are rewritten. */
  predicate Passes(policy: DivisionPolicy, w: Wiring, cfg: Config, o: Oracles, d: Document)
  {
    AllAccept(policy, o, Chain(w, cfg), Prepare(cfg, o, d))
  }

  /** No check of the configured chain raises on the document. */
  predicate Runs(policy: DivisionPolicy, w: Wiring, cfg: Config, o: Oracles, d: Document)
  {
    Step(policy, w, cfg, o, d).Ok?
  }

  /** A surviving document as yielded: tags rewritten, language recorded. */
  function Survivor(w: Wiring, cfg: Config, o: Oracles, d: Document): Document
  {
    var p := Prepare(cfg, o, d);
    var chain := Chain(w, cfg);
    if exists i :: 0 <= i < |chain| && chain[i].ByLang? then p.(language := Some(o.classify(p.content).lang)) else p
  }

  function PassesFn(policy: DivisionPolicy, w: Wiring, cfg: Config, o: Oracles): Document -> bool
  {
    d => Passes(policy, w, cfg, o, d)
  }

  function SurvivorFn(w: Wiring, cfg: Config, o: Oracles): Document -> Document
  {
    d => Survivor(w, cfg, o, d)
  }

  /** When no check raises, the output is exactly the input documents every check
      accepts, in input order, each with its tags rewritten and its language recorded. */
  lemma PreFilterSelects(policy: DivisionPolicy, w: Wiring, cfg: Config, o: Oracles, docs: seq<Document>)
    requires forall i :: 0 <= i < |docs| ==> Runs(policy, w, cfg, o, docs[i])
    ensures PreFilter(policy, w, cfg, o, docs)
      == Run(Seqs.Map(Seqs.Filter(docs, PassesFn(policy, w, cfg, o)), SurvivorFn(w, cfg, o)), None)
  {
    var body := StepFn(policy, w, cfg, o);
    var pass := PassesFn(policy, w, cfg, o);
    var keep := SurvivorFn(w, cfg, o);
    forall i | 0 <= i < |docs| ensures body(docs[i]) == Ok(if pass(docs[i]) then [keep(docs[i])] else []) {
      StepKeepsSurvivor(policy, w, cfg, o, docs[i]);
    }
    GenerateSelects(body, pass, keep, docs, 0);
  }

  /** A document no check raises on is yielded exactly when it passes, as its survivor. */
  lemma StepKeepsSurvivor(policy: DivisionPolicy, w: Wiring, cfg: Config, o: Oracles, d: Document)
    requires Runs(policy, w, cfg, o, d)
    ensures Step(policy, w, cfg, o, d) == Ok(if Passes(policy, w, cfg, o, d) then [Survivor(w, cfg, o, d)] else [])
  {
    var p := Prepare(cfg, o, d);
    var chain := Chain(w, cfg);
    KeptIffAllAccept(policy, o, chain, p);
    if RunChain(policy, o, chain, p).outcome == Ok(true) {
      KeptDocumentStamped(policy, o, chain, p);
    }
  }

  /** One pass of `_filter`'s loop on a document no check raises on. */
  lemma GenerateStep(policy: DivisionPolicy, w: Wiring, cfg: Config, o: Oracles, docs: seq<Document>, start: nat)
    requires docs != [] && Runs(policy, w, cfg, o, docs[0])
    ensures var rest := Generate(StepFn(policy, w, cfg, o), docs[1..], start + 1);
      Generate(StepFn(policy, w, cfg, o), docs, start)
        == Run((if Passes(policy, w, cfg, o, docs[0]) then [Survivor(w, cfg, o, docs[0])] else []) + rest.out, rest.failure)
  {
    StepKeepsSurvivor(policy, w, cfg, o, docs[0]);
  }

  /** The output is the subsequence of the input that passes, in input order. */
  lemma PreFilterOrder(policy: DivisionPolicy, w: Wiring, cfg: Config, o: Oracles, docs: seq<Document>)
    requires forall i :: 0 <= i < |docs| ==> Runs(policy, w, cfg, o, docs[i])
    ensures PreFilter(policy, w, cfg, o, docs).failure.None?
    ensures Seqs.IsSubsequence(Seqs.Filter(docs, PassesFn(policy, w, cfg, o)), docs)
    ensures |PreFilter(policy, w, cfg, o, docs).out| == |Seqs.Filter(docs, PassesFn(policy, w, cfg, o))|
  {
    PreFilterSelects(policy, w, cfg, o, docs);
    Seqs.FilterIsSubsequence(docs, PassesFn(policy, w, cfg, o));
  }

  /** Document `k` is the first one on which a check raises, with error `e`. */
  predicate StopsAt(policy: DivisionPolicy, w: Wiring, cfg: Config, o: Oracles, docs: seq<Document>, k: nat, e: CheckError)
  {
    StopsWith(StepFn(policy, w, cfg, o), docs, k, e)
  }

  /** When a check raises, the generator stops at the first document whose run raises. */
  lemma PreFilterFailureLocated(policy: DivisionPolicy, w: Wiring, cfg: Config, o: Oracles, docs: seq<Document>)
    requires PreFilter(policy, w, cfg, o, docs).failure.Some?
    ensures StopsAt(policy, w, cfg, o, docs, PreFilter(policy, w, cfg, o, docs).failure.value.0, PreFilter(policy, w, cfg, o, docs).failure.value.1)
  {
    GenerateStops(StepFn(policy, w, cfg, o), docs, 0);
  }

  /** Before stopping, the generator has yielded the survivors of the documents before
      the one that raised. */
  lemma PreFilterFailureOutput(policy: DivisionPolicy, w: Wiring, cfg: Config, o: Oracles, docs: seq<Document>, k: nat, e: CheckError)
    requires PreFilter(policy, w, cfg, o, docs).failure == Some((k, e))
    ensures PreFilter(policy, w, cfg, o, docs).out == PreFilter(policy, w, cfg, o, docs[..k]).out
  {
    PreFilterIsGenerate(policy, w, cfg, o, docs);
    GenerateFailureOutput(StepFn(policy, w, cfg, o), docs, 0, k, e);
    PreFilterIsGenerate(policy, w, cfg, o, docs[..k]);
  }

  lemma PreFilterIsGenerate(policy: DivisionPolicy, w: Wiring, cfg: Config, o: Oracles, docs: seq<Document>)
    ensures PreFilter(policy, w, cfg, o, docs) == Generate(StepFn(policy, w, cfg, o), docs, 0)
  {
  }

  /** Disabling checks never drops more: a document every check of a chain accepts is
      accepted by every chain drawn from it. */
  lemma FewerChecksKeepMore(policy: DivisionPolicy, o: Oracles, fewer: seq<Check>, chain: seq<Check>, d: Document)
    requires Seqs.IsSubsequence(fewer, chain)
    requires AllAccept(policy, o, chain, d)
    ensures AllAccept(policy, o, fewer, d)
  {
    Seqs.SubsequenceMembers(fewer, chain);
    forall i | 0 <= i < |fewer| ensures Accepts(policy, o, fewer[i], d) {
      assert fewer[i] in chain;
      var j :| 0 <= j < |chain| && chain[j] == fewer[i];
    }
  }

  /** `weaker` turns off some of the options of `cfg` and changes nothing else. */
  predicate Disables(weaker: Config, cfg: Config)
  {
    && weaker.removeTags == cfg.removeTags
    && (weaker.charLengthFilter == cfg.charLengthFilter || weaker.charLengthFilter <= 0)
    && (weaker.headFilter ==> cfg.headFilter)
    && (weaker.digitsFilter == cfg.digitsFilter || weaker.digitsFilter <= 0.0)
    && (weaker.alphanumFilter == cfg.alphanumFilter || weaker.alphanumFilter <= 0.0)
    && (weaker.uppercaseFilter == cfg.uppercaseFilter || weaker.uppercaseFilter <= 0.0)
    && (weaker.alphabetFilter == cfg.alphabetFilter || weaker.alphabetFilter.None?)
    && (weaker.langFilter == cfg.langFilter || weaker.langFilter.None?)
    && weaker.langFilterThreshold == cfg.langFilterThreshold
    && (weaker.dictionaryFilter == cfg.dictionaryFilter || weaker.dictionaryFilter.None?)
  }

  /** A stage of the weaker configuration is the same stage of the stronger one, or empty. */
  lemma StageSub(a: seq<Check>, b: seq<Check>)
    requires a == b || a == []
    ensures Seqs.IsSubsequence(a, b)
  {
    if a == b { Seqs.SubsequenceReflexive(a); }
  }

  /** Eight stages, each kept or emptied, concatenate to a subsequence of the eight. */
  lemma StagesSub(w1: seq<Check>, w2: seq<Check>, w3: seq<Check>, w4: seq<Check>,
                  w5: seq<Check>, w6: seq<Check>, w7: seq<Check>, w8: seq<Check>,
                  c1: seq<Check>, c2: seq<Check>, c3: seq<Check>, c4: seq<Check>,
                  c5: seq<Check>, c6: seq<Check>, c7: seq<Check>, c8: seq<Check>)
    requires (w1 == c1 || w1 == []) && (w2 == c2 || w2 == []) && (w3 == c3 || w3 == []) && (w4 == c4 || w4 == [])
    requires (w5 == c5 || w5 == []) && (w6 == c6 || w6 == []) && (w7 == c7 || w7 == []) && (w8 == c8 || w8 == [])
    ensures Seqs.IsSubsequence(w1 + w2 + w3 + w4 + w5 + w6 + w7 + w8, c1 + c2 + c3 + c4 + c5 + c6 + c7 + c8)
  {
    StageSub(w1, c1); StageSub(w2, c2); StageSub(w3, c3); StageSub(w4, c4);
    StageSub(w5, c5); StageSub(w6, c6); StageSub(w7, c7); StageSub(w8, c8);
    Seqs.SubsequenceConcat(w1, c1, w2, c2);
    Seqs.SubsequenceConcat(w1 + w2, c1 + c2, w3, c3);
    Seqs.SubsequenceConcat(w1 + w2 + w3, c1 + c2 + c3, w4, c4);
    Seqs.SubsequenceConcat(w1 + w2 + w3 + w4, c1 + c2 + c3 + c4, w5, c5);
    Seqs.SubsequenceConcat(w1 + w2 + w3 + w4 + w5, c1 + c2 + c3 + c4 + c5, w6, c6);
    Seqs.SubsequenceConcat(w1 + w2 + w3 + w4 + w5 + w6, c1 + c2 + c3 + c4 + c5 + c6, w7, c7);
    Seqs.SubsequenceConcat(w1 + w2 + w3 + w4 + w5 + w6 + w7, c1 + c2 + c3 + c4 + c5 + c6 + c7, w8, c8);
  }

  /** With the uppercase option wired to the uppercase check, turning options off yields a
      chain drawn from the original one. */
  lemma DisabledChainIsSubsequence(weaker: Config, cfg: Config)
    requires Disables(weaker, cfg)
    ensures Seqs.IsSubsequence(IntendedFilters(weaker), IntendedFilters(cfg))
  {
    StagesSub(LengthStage(weaker), HeadStage(weaker), DigitsStage(weaker), AlphanumStage(weaker),
              IntendedUppercaseStage(weaker), AlphabetStage(weaker), LangStage(weaker), DictStage(weaker),
              LengthStage(cfg), HeadStage(cfg), DigitsStage(cfg), AlphanumStage(cfg),
              IntendedUppercaseStage(cfg), AlphabetStage(cfg), LangStage(cfg), DictStage(cfg));
  }

  /** As written, turning options off yields a chain drawn from the original one exactly
      when the alphanumeric bound is kept or the uppercase option is off as well: otherwise
      the uppercase option registers the alphanumeric check with the new bound, which the
      original chain does not hold. */
  lemma AsWrittenDisablingIff(weaker: Config, cfg: Config)
    requires Disables(weaker, cfg)
    ensures Seqs.IsSubsequence(BuildFilters(weaker), BuildFilters(cfg))
      <==> weaker.alphanumFilter == cfg.alphanumFilter || weaker.uppercaseFilter <= 0.0
  {
    if weaker.alphanumFilter == cfg.alphanumFilter || weaker.uppercaseFilter <= 0.0 {
      StagesSub(LengthStage(weaker), HeadStage(weaker), DigitsStage(weaker), AlphanumStage(weaker),
                UppercaseStage(weaker), AlphabetStage(weaker), LangStage(weaker), DictStage(weaker),
                LengthStage(cfg), HeadStage(cfg), DigitsStage(cfg), AlphanumStage(cfg),
                UppercaseStage(cfg), AlphabetStage(cfg), LangStage(cfg), DictStage(cfg));
    } else {
      var x := ByAlphanum(weaker.alphanumFilter);
      BuildFiltersComplete(weaker);
      BuildFiltersSound(cfg);
      assert x in BuildFilters(weaker);
      assert x !in BuildFilters(cfg) by {
        assert !Configured(cfg, x);
      }
      Seqs.SubsequenceKeepsMembers(BuildFilters(weaker), BuildFilters(cfg));
    }
  }

  /** Turning options off from `cfg` to `weaker` only removes checks from the chain
      wiring `w` builds: always with the uppercase option wired to its own check, and as
      written exactly when the alphanumeric bound is kept or the uppercase option is off
      as well (`AsWrittenDisablingIff`). */
  predicate Shrinks(w: Wiring, weaker: Config, cfg: Config)
  {
    && Disables(weaker, cfg)
    && (w == UppercaseCheck || weaker.alphanumFilter == cfg.alphanumFilter || weaker.uppercaseFilter <= 0.0)
  }

  /** Under `Shrinks`, the weaker chain is drawn from the original one, in order; for the
      code as written, `Shrinks` is also necessary. */
  lemma ShrinksIsSubchain(w: Wiring, weaker: Config, cfg: Config)
    requires Disables(weaker, cfg)
    ensures Shrinks(w, weaker, cfg) ==> Seqs.IsSubsequence(Chain(w, weaker), Chain(w, cfg))
    ensures w == AlphanumAgain ==> (Seqs.IsSubsequence(Chain(w, weaker), Chain(w, cfg)) <==> Shrinks(w, weaker, cfg))
  {
    if w == UppercaseCheck {
      DisabledChainIsSubsequence(weaker, cfg);
    } else {
      AsWrittenDisablingIff(weaker, cfg);
    }
  }

  /** Turning options off in a way that only removes checks never drops a document the
      full configuration keeps. With the uppercase option wired to the uppercase check
      this covers every way of turning options off. */
  lemma DisablingKeepsMore(policy: DivisionPolicy, w: Wiring, weaker: Config, cfg: Config, o: Oracles, d: Document)
    requires Shrinks(w, weaker, cfg)
    requires Passes(policy, w, cfg, o, d)
    ensures Passes(policy, w, weaker, o, d)
  {
    ShrinksIsSubchain(w, weaker, cfg);
    assert Prepare(weaker, o, d) == Prepare(cfg, o, d);
    FewerChecksKeepMore(policy, o, Chain(w, weaker), Chain(w, cfg), Prepare(cfg, o, d));
  }

  /** A document with the recorded language forgotten. */
  function Unstamped(d: Document): (u: Document)
    ensures u.content == d.content && u.sentences == d.sentences && u.heads == d.heads && u.language.None?
  {
    d.(language := None)
  }

  /** A document as the stream rewrites it, with the recorded language forgotten; it
      depends only on whether tags are removed. */
  function RewrittenFn(removeTags: bool, o: Oracles): Document -> Document
  {
    (d: Document) => Unstamped(if removeTags then d.(content := o.stripTags(d.content)) else d)
  }

  /** The run's output, languages forgotten, is the rewritten passing inputs. */
  lemma UnstampedOutput(w: Wiring, cfg: Config, o: Oracles, docs: seq<Document>)
    ensures PreFilter(DropOnEmpty, w, cfg, o, docs).failure.None?
    ensures Seqs.Map(PreFilter(DropOnEmpty, w, cfg, o, docs).out, Unstamped)
      == Seqs.Map(Seqs.Filter(docs, PassesFn(DropOnEmpty, w, cfg, o)), RewrittenFn(cfg.removeTags, o))
  {
    NothingRaises(w, cfg, o, docs);
    PreFilterSelects(DropOnEmpty, w, cfg, o, docs);
    Seqs.MapCompose(Seqs.Filter(docs, PassesFn(DropOnEmpty, w, cfg, o)), SurvivorFn(w, cfg, o), Unstamped,
                    RewrittenFn(cfg.removeTags, o));
  }

  /** With empty denominators guarded, no document's run raises. */
  lemma NothingRaises(w: Wiring, cfg: Config, o: Oracles, docs: seq<Document>)
    ensures forall i :: 0 <= i < |docs| ==> Runs(DropOnEmpty, w, cfg, o, docs[i])
  {
    forall i | 0 <= i < |docs| ensures Runs(DropOnEmpty, w, cfg, o, docs[i]) {
      var r := Step(DropOnEmpty, w, cfg, o, docs[i]);
    }
  }

  /** With empty denominators guarded, turning options off in a way that only removes
      checks loses no document of the stream: no run raises, and the documents the full
      configuration yields are, in order and up to the recorded language, among those the
      weaker one yields. */
  lemma DisablingKeepsMoreDocuments(w: Wiring, weaker: Config, cfg: Config, o: Oracles, docs: seq<Document>)
    requires Shrinks(w, weaker, cfg)
    ensures PreFilter(DropOnEmpty, w, cfg, o, docs).failure.None?
    ensures PreFilter(DropOnEmpty, w, weaker, o, docs).failure.None?
    ensures Seqs.IsSubsequence(Seqs.Map(PreFilter(DropOnEmpty, w, cfg, o, docs).out, Unstamped),
                               Seqs.Map(PreFilter(DropOnEmpty, w, weaker, o, docs).out, Unstamped))
  {
    var g := RewrittenFn(cfg.removeTags, o);
    var strong := Seqs.Filter(docs, PassesFn(DropOnEmpty, w, cfg, o));
    var weak := Seqs.Filter(docs, PassesFn(DropOnEmpty, w, weaker, o));
    UnstampedOutput(w, cfg, o, docs);
    UnstampedOutput(w, weaker, o, docs);
    PassingInputsGrow(DropOnEmpty, w, weaker, cfg, o, docs);
    Seqs.MapSubsequence(strong, weak, g);
  }

  /** Under either policy, the inputs the full configuration passes are among those the
      weaker one passes, in order, whenever turning options off only removes checks. */
  lemma PassingInputsGrow(policy: DivisionPolicy, w: Wiring, weaker: Config, cfg: Config, o: Oracles, docs: seq<Document>)
    requires Shrinks(w, weaker, cfg)
    ensures Seqs.IsSubsequence(Seqs.Filter(docs, PassesFn(policy, w, cfg, o)),
                               Seqs.Filter(docs, PassesFn(policy, w, weaker, o)))
  {
    var strong := PassesFn(policy, w, cfg, o);
    var weak := PassesFn(policy, w, weaker, o);
    forall d | strong(d) ensures weak(d) {
      DisablingKeepsMore(policy, w, weaker, cfg, o, d);
    }
    Seqs.FilterMonotone(docs, strong, weak);
  }

  // ---------------------------------------------------------------------------
  // Where turning an option off loses documents, as written

  /** The default options with `--alphanum_filter 0`. */
  const AlphanumOff: Config := DefaultConfig.(alphanumFilter := 0.0)

  /** The default options with `--char-length-filter 0`. */
  const LengthOff: Config := DefaultConfig.(charLengthFilter := 0)

  /** Content of at least 40 characters with no whitespace, no digit and the Latin
      alphabet, whose share of non-alphanumeric characters is positive but within 10%. */
  predicate Punctuated(o: Oracles, content: string)
  {
    && |content| >= 40
    && (forall i :: 0 <= i < |content| ==> !IsSpace(content[i]) && !o.isDigit(content[i]))
    && (exists i :: 0 <= i < |content| && !o.isAlnum(content[i]))
    && ShareWithin(|content| - CountWhere(content, o.isAlnum), |content|, 0.1)
    && "LATIN" in o.detectAlphabets(content)
  }

  lemma PunctuatedCounts(o: Oracles, content: string)
    requires Punctuated(o, content)
    ensures RemoveSpaces(content) == content
    ensures CountWhere(content, o.isDigit) == 0
    ensures CountWhere(content, o.isAlnum) < |content|
  {
    Seqs.FilterKeepsAll(content, c => !IsSpace(c));
    Seqs.FilterEmptyIff(content, o.isDigit);
    var i :| 0 <= i < |content| && !o.isAlnum(content[i]);
    Seqs.FilterDropsFailing(content, o.isAlnum, i);
  }

  /** As written, turning the alphanumeric option off drops a document the defaults keep:
      the uppercase option still registers the alphanumeric check, now with bound 0, and
      that check rejects any non-alphanumeric character. This is the case `Shrinks`
      leaves out of `DisablingKeepsMore`. */
  lemma AlphanumOffDropsDocument(policy: DivisionPolicy, o: Oracles, d: Document)
    requires d.heads == None && o.stripTags(d.content) == d.content && Punctuated(o, d.content)
    ensures Disables(AlphanumOff, DefaultConfig)
    ensures Shrinks(UppercaseCheck, AlphanumOff, DefaultConfig) && !Shrinks(AlphanumAgain, AlphanumOff, DefaultConfig)
    ensures Passes(policy, AlphanumAgain, DefaultConfig, o, d)
    ensures !Passes(policy, AlphanumAgain, AlphanumOff, o, d)
  {
    DefaultChain();
    assert BuildFilters(AlphanumOff) == [ByLength(40), ByHeads, ByDigits(0.1), ByAlphanum(0.0), ByAlphabet(["LATIN"])];
    assert Prepare(DefaultConfig, o, d) == d;
    assert Prepare(AlphanumOff, o, d) == d;
    PunctuatedCounts(o, d.content);
    assert ShareWithin(0, |d.content|, 0.1);
    assert "LATIN" in ["LATIN"];
    var off := Chain(AlphanumAgain, AlphanumOff);
    assert off == BuildFilters(AlphanumOff) && off[3] == ByAlphanum(0.0);
    assert !Accepts(policy, o, off[3], Prepare(AlphanumOff, o, d));
  }

  /** As written, turning the length check off loses documents further down the stream:
      an empty document now reaches the digit check, whose division by zero ends the run
      before a document the defaults keep. */
  lemma EmptyDocumentEndsWeakerStream(w: Wiring, o: Oracles, good: Document)
    requires o.stripTags("") == ""
    requires Passes(AsWritten, w, DefaultConfig, o, good)
    ensures Disables(LengthOff, DefaultConfig)
    ensures PreFilter(AsWritten, w, DefaultConfig, o, [MakeDocument("", []), good])
      == Run([Survivor(w, DefaultConfig, o, good)], None)
    ensures PreFilter(AsWritten, w, LengthOff, o, [MakeDocument("", []), good])
      == Run([], Some((0, ZeroDivision(ByDigits(0.1)))))
  {
    var empty := MakeDocument("", []);
    var docs := [empty, good];
    assert Prepare(DefaultConfig, o, empty) == empty && Prepare(LengthOff, o, empty) == empty;
    var strong, weak := Chain(w, DefaultConfig), Chain(w, LengthOff);
    assert strong[0] == ByLength(40);
    assert weak[0] == ByHeads && weak[1] == ByDigits(0.1);
    RunChainPasses(AsWritten, o, weak, empty);
    assert Step(AsWritten, w, DefaultConfig, o, empty) == Ok([]);
    assert Step(AsWritten, w, LengthOff, o, empty) == Err(ZeroDivision(ByDigits(0.1)));
    KeptIffAllAccept(AsWritten, o, strong, Prepare(DefaultConfig, o, good));
    assert docs[1..] == [good] && [good][1..] == [];
    GenerateStep(AsWritten, w, DefaultConfig, o, [good], 1);
  }
}

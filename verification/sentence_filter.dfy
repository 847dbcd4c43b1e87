/** The sentence-selection loop both sentence filters share: every sentence is kept when
    all registered checks accept it, the survivors replace the document's sentences, and
    a document left without sentences is not emitted. */
module SentenceSelection {
  import opened Documents
  import Seqs

  /** The `for doc in documents` loop with `keep` standing for
      `all(_filter(sent) for _filter in self.filters)`. */
  function FilterDocuments(docs: seq<Document>, keep: string -> bool): (out: seq<Document>)
    ensures |out| <= |docs|
    decreases |docs|
  {
    if docs == [] then []
    else
      var kept := Seqs.Filter(docs[0].sentences, keep);
      (if kept != [] then [docs[0].(sentences := kept)] else []) + FilterDocuments(docs[1..], keep)
  }

  /** The document has a sentence `keep` accepts. */
  function HasSurvivorFn(keep: string -> bool): Document -> bool
  {
    (d: Document) => Seqs.Filter(d.sentences, keep) != []
  }

  /** The document with only its accepted sentences, every other field as it was. */
  function RestrictFn(keep: string -> bool): Document -> Document
  {
    (d: Document) => d.(sentences := Seqs.Filter(d.sentences, keep))
  }

  /** The output is the input documents that keep a sentence, in order, each with its
      sentence list cut down to the accepted sentences and nothing else changed. */
  lemma {:induction false} FilterDocumentsReference(docs: seq<Document>, keep: string -> bool)
    ensures FilterDocuments(docs, keep) == Seqs.Map(Seqs.Filter(docs, HasSurvivorFn(keep)), RestrictFn(keep))
    decreases |docs|
  {
    if docs != [] {
      var has := HasSurvivorFn(keep);
      var head := if has(docs[0]) then [docs[0]] else [];
      FilterDocumentsReference(docs[1..], keep);
      assert Seqs.Filter(docs, has) == head + Seqs.Filter(docs[1..], has);
      Seqs.MapAppend(head, Seqs.Filter(docs[1..], has), RestrictFn(keep));
    }
  }

  /** Every emitted document keeps at least one sentence, every one of its sentences is
      accepted, its sentences are drawn in order from an input document, and that input
      document differs from it in the sentences only. */
  lemma FilterDocumentsEmits(docs: seq<Document>, keep: string -> bool)
    ensures forall e :: e in FilterDocuments(docs, keep) ==>
      && e.sentences != []
      && (forall s :: s in e.sentences ==> keep(s))
      && exists d :: d in docs && e == d.(sentences := Seqs.Filter(d.sentences, keep))
  {
    FilterDocumentsReference(docs, keep);
    var kept := Seqs.Filter(docs, HasSurvivorFn(keep));
    forall e | e in FilterDocuments(docs, keep)
      ensures e.sentences != []
      ensures forall s :: s in e.sentences ==> keep(s)
      ensures exists d :: d in docs && e == d.(sentences := Seqs.Filter(d.sentences, keep))
    {
      var i :| 0 <= i < |kept| && e == RestrictFn(keep)(kept[i]);
      assert kept[i] in kept;
    }
  }

  /** Each emitted document's sentences are a subsequence of its original sentences. */
  lemma SurvivorsInOrder(d: Document, keep: string -> bool)
    ensures Seqs.IsSubsequence(RestrictFn(keep)(d).sentences, d.sentences)
  {
    Seqs.FilterIsSubsequence(d.sentences, keep);
  }

  /** A document is emitted exactly when one of its sentences is accepted. */
  lemma EmittedIffSurvivor(d: Document, keep: string -> bool)
    ensures FilterDocuments([d], keep) != [] <==> exists i :: 0 <= i < |d.sentences| && keep(d.sentences[i])
  {
    Seqs.FilterEmptyIff(d.sentences, keep);
    assert [d][1..] == [];
  }

  /** Filtering the output again with the same checks changes nothing. */
  lemma {:induction false} FilterDocumentsIdempotent(docs: seq<Document>, keep: string -> bool)
    ensures FilterDocuments(FilterDocuments(docs, keep), keep) == FilterDocuments(docs, keep)
    decreases |docs|
  {
    if docs != [] {
      var out := FilterDocuments(docs, keep);
      var rest := FilterDocuments(docs[1..], keep);
      FilterDocumentsIdempotent(docs[1..], keep);
      var kept := Seqs.Filter(docs[0].sentences, keep);
      if kept != [] {
        var d' := docs[0].(sentences := kept);
        assert out == [d'] + rest;
        Seqs.FilterIdempotent(docs[0].sentences, keep);
        assert out[0] == d' && out[1..] == rest;
        assert FilterDocuments(out, keep) == [d'] + FilterDocuments(rest, keep);
      } else {
        assert out == rest;
      }
    }
  }

  /** A stricter selection emits no more documents, and keeps of every document a
      subsequence of what the looser one keeps. */
  lemma {:induction false} StricterEmitsFewer(docs: seq<Document>, strict: string -> bool, loose: string -> bool)
    requires forall s :: strict(s) ==> loose(s)
    ensures |FilterDocuments(docs, strict)| <= |FilterDocuments(docs, loose)|
    ensures forall d :: Seqs.IsSubsequence(RestrictFn(strict)(d).sentences, RestrictFn(loose)(d).sentences)
    decreases |docs|
  {
    forall d ensures Seqs.IsSubsequence(RestrictFn(strict)(d).sentences, RestrictFn(loose)(d).sentences) {
      Seqs.FilterMonotone(d.sentences, strict, loose);
    }
    if docs != [] {
      StricterEmitsFewer(docs[1..], strict, loose);
      var a := Seqs.Filter(docs[0].sentences, strict);
      var b := Seqs.Filter(docs[0].sentences, loose);
      if a != [] {
        Seqs.FilterMonotone(docs[0].sentences, strict, loose);
        assert b != [];
      }
    }
  }
}

/** The sentence filter of the current pipeline: a length check registered whenever a
    threshold is configured (zero included) and a language check registered whenever a
    language list is configured. */
module SentenceFilter {
  import opened Base
  import opened Documents
  import Seqs
  import SentenceSelection

  /** The resolved options. */
  datatype Config = Config(
    charLengthFilterSentence: Option<int>,
    langFilter: Option<seq<string>>,
    langFilterThreshold: real)

  datatype SentenceCheck = ByCharLen(min: int) | ByLang(langs: seq<string>, threshold: real)

  /** `_get_filters`: registration tests `is not None`. */
  function GetFilters(cfg: Config): seq<SentenceCheck>
  {
    (if cfg.charLengthFilterSentence.Some? then [ByCharLen(cfg.charLengthFilterSentence.value)] else [])
    + (if cfg.langFilter.Some? then [ByLang(cfg.langFilter.value, cfg.langFilterThreshold)] else [])
  }

  /** `_filter_by_char_len` (strictly longer than the threshold) and `_filter_by_lang`,
      which reads the guess and writes nothing. */
  predicate Passes(classify: string -> LangGuess, c: SentenceCheck, s: string)
  {
    match c
    case ByCharLen(min) => |s| > min
    case ByLang(langs, t) => Confident(classify(s), langs, t)
  }

  /** `all(_filter(sent) for _filter in self.filters)`. */
  predicate AllPass(classify: string -> LangGuess, filters: seq<SentenceCheck>, s: string)
  {
    forall i :: 0 <= i < |filters| ==> Passes(classify, filters[i], s)
  }

  function KeepFn(cfg: Config, classify: string -> LangGuess): string -> bool
  {
    s => AllPass(classify, GetFilters(cfg), s)
  }

  /** `_filter`. */
  function Filter(cfg: Config, classify: string -> LangGuess, docs: seq<Document>): (out: seq<Document>)
    ensures |out| <= |docs|
    ensures forall i :: 0 <= i < |out| ==> out[i].sentences != []
  {
    SentenceSelection.FilterDocumentsEmits(docs, KeepFn(cfg, classify));
    SentenceSelection.FilterDocuments(docs, KeepFn(cfg, classify))
  }

  /** Each option registers its check exactly when it is set, length check first. */
  lemma GetFiltersRegisters(cfg: Config)
    ensures |GetFilters(cfg)| == (if cfg.charLengthFilterSentence.Some? then 1 else 0) + (if cfg.langFilter.Some? then 1 else 0)
    ensures forall m :: ByCharLen(m) in GetFilters(cfg) <==> cfg.charLengthFilterSentence == Some(m)
    ensures forall l, t :: ByLang(l, t) in GetFilters(cfg) <==> cfg.langFilter == Some(l) && t == cfg.langFilterThreshold
    ensures cfg.charLengthFilterSentence.Some? && cfg.langFilter.Some? ==> GetFilters(cfg)[0].ByCharLen?
  {
  }

  /** A sentence is kept exactly when it is strictly longer than the threshold (if one is
      set) and confidently in an allowed language (if a list is set). */
  lemma KeepIff(cfg: Config, classify: string -> LangGuess, s: string)
    ensures KeepFn(cfg, classify)(s) <==>
      && (cfg.charLengthFilterSentence.Some? ==> |s| > cfg.charLengthFilterSentence.value)
      && (cfg.langFilter.Some? ==> Confident(classify(s), cfg.langFilter.value, cfg.langFilterThreshold))
  {
    var f := GetFilters(cfg);
    if cfg.charLengthFilterSentence.Some? {
      assert f[0] == ByCharLen(cfg.charLengthFilterSentence.value);
    }
    if cfg.langFilter.Some? {
      assert f[|f| - 1] == ByLang(cfg.langFilter.value, cfg.langFilterThreshold);
    }
  }

  /** A threshold of zero is still registered, and then drops exactly the empty sentences. */
  lemma ZeroThresholdDropsEmpty(classify: string -> LangGuess, threshold: real, s: string)
    ensures KeepFn(Config(Some(0), None, threshold), classify)(s) <==> s != []
  {
    KeepIff(Config(Some(0), None, threshold), classify, s);
  }

  /** The output documents carry the language (and content and headers) their input
      documents had: the language check never records the language it accepted. */
  lemma LanguageNeverSet(cfg: Config, classify: string -> LangGuess, docs: seq<Document>)
    ensures forall e :: e in Filter(cfg, classify, docs) ==>
      exists d :: d in docs && e.language == d.language && e.content == d.content && e.heads == d.heads
  {
    SentenceSelection.FilterDocumentsEmits(docs, KeepFn(cfg, classify));
  }

  /** Every emitted sentence passes every registered check, and every emitted document
      keeps one. */
  lemma EmittedSentencesPass(cfg: Config, classify: string -> LangGuess, docs: seq<Document>)
    ensures forall e :: e in Filter(cfg, classify, docs) ==>
      e.sentences != [] && forall s :: s in e.sentences ==> AllPass(classify, GetFilters(cfg), s)
  {
    SentenceSelection.FilterDocumentsEmits(docs, KeepFn(cfg, classify));
  }

  /** Applying the filter to its own output changes nothing. */
  lemma FilterIdempotent(cfg: Config, classify: string -> LangGuess, docs: seq<Document>)
    ensures Filter(cfg, classify, Filter(cfg, classify, docs)) == Filter(cfg, classify, docs)
  {
    SentenceSelection.FilterDocumentsIdempotent(docs, KeepFn(cfg, classify));
  }
}

/** The earlier sentence filter: a single length check, registered when the threshold is
    truthy (non-zero). */
module LegacySentenceFilter {
  import opened Base
  import opened Documents
  import Seqs
  import SentenceSelection
  import SentenceFilter

  /** `_get_filters`: the thresholds of the registered length checks. */
  function GetFilters(threshold: int): seq<int>
  {
    if threshold != 0 then [threshold] else []
  }

  function KeepFn(threshold: int): string -> bool
  {
    s => forall i :: 0 <= i < |GetFilters(threshold)| ==> |s| > GetFilters(threshold)[i]
  }

  /** `filter`. */
  function Filter(threshold: int, docs: seq<Document>): (out: seq<Document>)
    ensures |out| <= |docs|
    ensures forall i :: 0 <= i < |out| ==> out[i].sentences != []
  {
    SentenceSelection.FilterDocumentsEmits(docs, KeepFn(threshold));
    SentenceSelection.FilterDocuments(docs, KeepFn(threshold))
  }

  /** `_check_char_len` once registered: strictly longer than a non-zero threshold; with a
      zero threshold nothing is checked. */
  lemma KeepIff(threshold: int, s: string)
    ensures KeepFn(threshold)(s) <==> threshold == 0 || |s| > threshold
  {
    if threshold != 0 {
      assert GetFilters(threshold)[0] == threshold;
    }
  }

  /** With a zero threshold every document that has a sentence passes unchanged, and the
      documents without sentences are still dropped. */
  lemma ZeroThresholdPassesThrough(docs: seq<Document>)
    ensures Filter(0, docs) == Seqs.Filter(docs, SentenceSelection.HasSurvivorFn(KeepFn(0)))
    ensures forall d :: SentenceSelection.HasSurvivorFn(KeepFn(0))(d) <==> d.sentences != []
  {
    var keep := KeepFn(0);
    forall d ensures SentenceSelection.HasSurvivorFn(keep)(d) <==> d.sentences != [] {
      Seqs.FilterKeepsAll(d.sentences, keep);
    }
    SentenceSelection.FilterDocumentsReference(docs, keep);
    var kept := Seqs.Filter(docs, SentenceSelection.HasSurvivorFn(keep));
    forall i | 0 <= i < |kept| ensures SentenceSelection.RestrictFn(keep)(kept[i]) == kept[i] {
      Seqs.FilterKeepsAll(kept[i].sentences, keep);
    }
  }

  /** Raising the threshold never lengthens a document's surviving sentences, and never
      emits more documents. */
  lemma RaisingThresholdShrinks(low: int, high: int, docs: seq<Document>)
    requires low <= high
    ensures |Filter(high, docs)| <= |Filter(low, docs)|
    ensures forall d :: Seqs.IsSubsequence(
      SentenceSelection.RestrictFn(KeepFn(high))(d).sentences, SentenceSelection.RestrictFn(KeepFn(low))(d).sentences)
  {
    forall s | KeepFn(high)(s) ensures KeepFn(low)(s) {
      KeepIff(high, s);
      KeepIff(low, s);
    }
    SentenceSelection.StricterEmitsFewer(docs, KeepFn(high), KeepFn(low));
  }

  /** Filtering twice equals filtering once. */
  lemma FilterIdempotent(threshold: int, docs: seq<Document>)
    ensures Filter(threshold, Filter(threshold, docs)) == Filter(threshold, docs)
  {
    SentenceSelection.FilterDocumentsIdempotent(docs, KeepFn(threshold));
  }

  const BlankSentenceDoc: Document := Document("", [""], None, None)

  /** The two registration tests disagree at a zero threshold: the earlier filter emits a
      document whose only sentence is empty, the current one drops it. */
  lemma VersionsDifferAtZero(classify: string -> LangGuess, t: real)
    ensures Filter(0, [BlankSentenceDoc]) == [BlankSentenceDoc]
    ensures SentenceFilter.Filter(SentenceFilter.Config(Some(0), None, t), classify, [BlankSentenceDoc]) == []
  {
    var cfg := SentenceFilter.Config(Some(0), None, t);
    var keep := SentenceFilter.KeepFn(cfg, classify);
    SentenceFilter.ZeroThresholdDropsEmpty(classify, t, "");
    assert Seqs.Filter([""], keep) == [];
    assert Seqs.Filter([""], KeepFn(0)) == [""];
    assert [BlankSentenceDoc][1..] == [];
  }
}

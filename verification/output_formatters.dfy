/** The two plain-text output formatters. Both append to one file per run, so a stream of
    documents produces the concatenation of what each document writes. */
module OutputFormatters {
  import opened Text
  import opened Documents
  import Seqs

  /** Every sentence followed by a newline: `writelines(f'{sentence}\n' for ...)`. */
  function Lines(sentences: seq<string>): (out: string)
    ensures out == "" <==> sentences == []
  {
    if sentences != [] then
      assert Terminate(sentences) == [sentences[0] + "\n"] + Terminate(sentences[1..]);
      assert |Concat(Terminate(sentences))| >= |sentences[0] + "\n"|;
      Concat(Terminate(sentences))
    else ""
  }

  lemma TerminateAppend(xs: seq<string>, ys: seq<string>)
    ensures Terminate(xs + ys) == Terminate(xs) + Terminate(ys)
  {
  }

  lemma LinesAppend(xs: seq<string>, ys: seq<string>)
    ensures Lines(xs + ys) == Lines(xs) + Lines(ys)
  {
    TerminateAppend(xs, ys);
    ConcatAppend(Terminate(xs), Terminate(ys));
  }

  /** Reading back lines written one per sentence gives each sentence with its newline,
      provided no sentence holds a newline of its own. */
  lemma ReadBackLines(sentences: seq<string>)
    requires NoNewlines(sentences)
    ensures ReadLines(Lines(sentences)) == Terminate(sentences)
    ensures Seqs.Map(ReadLines(Lines(sentences)), Chomp) == sentences
  {
    ReadLinesTerminated(sentences, "");
    assert Lines(sentences) == Concat(Terminate(sentences)) + "";
    ChompTerminated(sentences);
  }

  /** No document of the stream has a sentence. */
  predicate NoSentences(docs: seq<Document>)
  {
    forall i :: 0 <= i < |docs| ==> docs[i].sentences == []
  }

  lemma NoSentencesCons(docs: seq<Document>)
    requires docs != []
    ensures NoSentences(docs) <==> docs[0].sentences == [] && NoSentences(docs[1..])
  {
    assert forall i :: 0 < i < |docs| ==> docs[i] == docs[1..][i - 1];
  }

  // ---------------------------------------------------------------------------
  // One sentence per line

  /** `SentenceOutputFormatter._write_document`. */
  function SentenceOutput(d: Document): (out: string)
    ensures out == "" <==> d.sentences == []
  {
    if |d.sentences| > 0 then Lines(d.sentences) else ""
  }

  /** What a run writes for a stream of documents. */
  function SentenceStream(docs: seq<Document>): (out: string)
    ensures out == "" <==> NoSentences(docs)
    decreases |docs|
  {
    if docs == [] then ""
    else
      NoSentencesCons(docs);
      SentenceOutput(docs[0]) + SentenceStream(docs[1..])
  }

  /** Appending: the output of two streams written one after the other. */
  lemma {:induction false} SentenceStreamAppend(a: seq<Document>, b: seq<Document>)
    ensures SentenceStream(a + b) == SentenceStream(a) + SentenceStream(b)
    decreases |a|
  {
    if a == [] {
      assert a + b == b;
    } else {
      assert (a + b)[1..] == a[1..] + b;
      SentenceStreamAppend(a[1..], b);
    }
  }

  /** All the sentences of the stream, document after document. */
  function AllSentences(docs: seq<Document>): seq<string>
    decreases |docs|
  {
    if docs == [] then [] else docs[0].sentences + AllSentences(docs[1..])
  }

  predicate NewlineFree(docs: seq<Document>)
  {
    forall i :: 0 <= i < |docs| ==> NoNewlines(docs[i].sentences)
  }

  lemma {:induction false} SentenceStreamIsLines(docs: seq<Document>)
    ensures SentenceStream(docs) == Lines(AllSentences(docs))
    ensures NewlineFree(docs) ==> NoNewlines(AllSentences(docs))
    decreases |docs|
  {
    if docs != [] {
      SentenceStreamIsLines(docs[1..]);
      LinesAppend(docs[0].sentences, AllSentences(docs[1..]));
    }
    if NewlineFree(docs) {
      AllSentencesNewlineFree(docs);
    }
  }

  /** The documents that follow the first are free of line breaks when all are. */
  lemma NewlineFreeTail(docs: seq<Document>)
    requires docs != [] && NewlineFree(docs)
    ensures NoNewlines(docs[0].sentences) && NewlineFree(docs[1..])
  {
    forall i | 0 <= i < |docs[1..]| ensures NoNewlines(docs[1..][i].sentences) {
      assert docs[1..][i] == docs[i + 1];
    }
  }

  lemma {:induction false} AllSentencesNewlineFree(docs: seq<Document>)
    requires NewlineFree(docs)
    ensures NoNewlines(AllSentences(docs))
    decreases |docs|
  {
    if docs != [] {
      NewlineFreeTail(docs);
      AllSentencesNewlineFree(docs[1..]);
      NoNewlinesAppend(docs[0].sentences, AllSentences(docs[1..]));
    }
  }

  /** The stream file holds one line per sentence, in order: reading it back recovers
      every sentence of every document. */
  lemma SentenceStreamRoundTrip(docs: seq<Document>)
    requires NewlineFree(docs)
    ensures |ReadLines(SentenceStream(docs))| == |AllSentences(docs)|
    ensures Seqs.Map(ReadLines(SentenceStream(docs)), Chomp) == AllSentences(docs)
  {
    SentenceStreamIsLines(docs);
    ReadBackLines(AllSentences(docs));
  }

  // ---------------------------------------------------------------------------
  // Fairseq language-model format: documents separated by a blank line

  /** `FairseqLMOutputFormatter._write_document`. */
  function FairseqOutput(d: Document): (out: string)
    ensures out == "" <==> d.sentences == []
  {
    if |d.sentences| > 0 then Lines(d.sentences) + "\n" else ""
  }

  /** A non-empty document is written as its sentences followed by one blank line. */
  lemma FairseqBlankTerminated(d: Document)
    requires d.sentences != []
    ensures FairseqOutput(d) == Lines(d.sentences + [""])
  {
    LinesAppend(d.sentences, [""]);
  }

  function FairseqStream(docs: seq<Document>): (out: string)
    ensures out == "" <==> NoSentences(docs)
    decreases |docs|
  {
    if docs == [] then ""
    else
      NoSentencesCons(docs);
      FairseqOutput(docs[0]) + FairseqStream(docs[1..])
  }

  lemma {:induction false} FairseqStreamAppend(a: seq<Document>, b: seq<Document>)
    ensures FairseqStream(a + b) == FairseqStream(a) + FairseqStream(b)
    decreases |a|
  {
    if a == [] {
      assert a + b == b;
    } else {
      assert (a + b)[1..] == a[1..] + b;
      FairseqStreamAppend(a[1..], b);
    }
  }

  /** The lines of the stream: each non-empty document's sentences and a blank line. */
  function BlockLines(docs: seq<Document>): seq<string>
    decreases |docs|
  {
    if docs == [] then []
    else (if docs[0].sentences != [] then docs[0].sentences + [""] else []) + BlockLines(docs[1..])
  }

  lemma {:induction false} FairseqStreamIsLines(docs: seq<Document>)
    ensures FairseqStream(docs) == Lines(BlockLines(docs))
    ensures NewlineFree(docs) ==> NoNewlines(BlockLines(docs))
    decreases |docs|
  {
    if docs != [] {
      FairseqStreamIsLines(docs[1..]);
      var head := if docs[0].sentences != [] then docs[0].sentences + [""] else [];
      if docs[0].sentences != [] {
        FairseqBlankTerminated(docs[0]);
      }
      LinesAppend(head, BlockLines(docs[1..]));
    }
    if NewlineFree(docs) {
      BlockLinesNewlineFree(docs);
    }
  }

  lemma {:induction false} BlockLinesNewlineFree(docs: seq<Document>)
    requires NewlineFree(docs)
    ensures NoNewlines(BlockLines(docs))
    decreases |docs|
  {
    if docs != [] {
      NewlineFreeTail(docs);
      BlockLinesNewlineFree(docs[1..]);
      var head := if docs[0].sentences != [] then docs[0].sentences + [""] else [];
      assert NoNewlines(head) by {
        if docs[0].sentences != [] {
          assert NoNewlines([""]);
          NoNewlinesAppend(docs[0].sentences, [""]);
        }
      }
      NoNewlinesAppend(head, BlockLines(docs[1..]));
    }
  }

  /** Cutting a list of lines at blank lines into the runs of non-blank lines between
      them (the reading the blank separators are written for). */
  function SplitOnBlank(lines: seq<string>, pending: seq<string>): seq<seq<string>>
    decreases |lines|
  {
    if lines == [] then (if pending == [] then [] else [pending])
    else if lines[0] == "" then (if pending == [] then [] else [pending]) + SplitOnBlank(lines[1..], [])
    else SplitOnBlank(lines[1..], pending + [lines[0]])
  }

  /** No sentence is the empty string. */
  predicate NoBlank(sentences: seq<string>)
  {
    forall i :: 0 <= i < |sentences| ==> sentences[i] != ""
  }

  lemma {:induction false} SplitBlock(sentences: seq<string>, pending: seq<string>, rest: seq<string>)
    requires NoBlank(sentences) && pending + sentences != []
    ensures SplitOnBlank(sentences + [""] + rest, pending) == [pending + sentences] + SplitOnBlank(rest, [])
    decreases |sentences|
  {
    var lines := sentences + [""] + rest;
    if sentences == [] {
      assert lines[0] == "" && lines[1..] == rest;
      assert pending + sentences == pending;
    } else {
      assert lines[0] == sentences[0] && lines[1..] == sentences[1..] + [""] + rest;
      SplitBlock(sentences[1..], pending + [sentences[0]], rest);
      assert pending + [sentences[0]] + sentences[1..] == pending + sentences;
    }
  }

  /** Every document's sentences are non-empty and newline-free. */
  predicate Plain(docs: seq<Document>)
  {
    forall i :: 0 <= i < |docs| ==> NoNewlines(docs[i].sentences) && NoBlank(docs[i].sentences)
  }

  function SentencesOf(d: Document): seq<string>
  {
    d.sentences
  }

  function NonEmptyFn(): Document -> bool
  {
    (d: Document) => d.sentences != []
  }

  lemma {:induction false} SplitBlockLines(docs: seq<Document>)
    requires Plain(docs)
    ensures SplitOnBlank(BlockLines(docs), []) == Seqs.Map(Seqs.Filter(docs, NonEmptyFn()), SentencesOf)
    decreases |docs|
  {
    if docs != [] {
      var d := docs[0];
      var rest := BlockLines(docs[1..]);
      var kept := Seqs.Filter(docs[1..], NonEmptyFn());
      assert Plain(docs[1..]) by {
        assert forall i :: 0 <= i < |docs| - 1 ==> docs[1..][i] == docs[i + 1];
      }
      SplitBlockLines(docs[1..]);
      assert SplitOnBlank(rest, []) == Seqs.Map(kept, SentencesOf);
      if d.sentences != [] {
        assert NoBlank(d.sentences);
        assert BlockLines(docs) == d.sentences + [""] + rest;
        SplitBlock(d.sentences, [], rest);
        assert [] + d.sentences == d.sentences;
        assert Seqs.Filter(docs, NonEmptyFn()) == [d] + kept;
        Seqs.MapAppend([d], kept, SentencesOf);
        assert Seqs.Map([d], SentencesOf) == [d.sentences];
      } else {
        assert BlockLines(docs) == rest;
        assert Seqs.Filter(docs, NonEmptyFn()) == kept;
      }
    }
  }

  /** Splitting the written stream at its blank lines recovers exactly the sentence lists
      of the documents that had sentences, in order; documents without sentences leave no
      trace. */
  lemma FairseqRoundTrip(docs: seq<Document>)
    requires Plain(docs)
    ensures SplitOnBlank(Seqs.Map(ReadLines(FairseqStream(docs)), Chomp), [])
      == Seqs.Map(Seqs.Filter(docs, NonEmptyFn()), SentencesOf)
  {
    assert NewlineFree(docs);
    FairseqStreamIsLines(docs);
    ReadBackLines(BlockLines(docs));
    SplitBlockLines(docs);
  }
}

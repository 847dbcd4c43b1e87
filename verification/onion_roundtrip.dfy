/** The near-duplicate detection step seen from its two sides: the cleaner writes every
    document as a tagged block, the detector prefixes each line of that file with an index
    and a tab ("0" for a line it keeps, anything else for a duplicate), and the cleaner
    reads the annotated file back. The detector itself is not modelled: its verdict is an
    arbitrary list of tab-free marks, one per line. */
module OnionRoundTrip {
  import opened Base
  import opened Text
  import opened Documents
  import Seqs
  import opened OnionFormat
  import opened OnionReader

  /** Each line prefixed with its mark and a tab, as the detector's output has it. */
  function Annotate(lines: seq<string>, marks: seq<string>): (r: seq<string>)
    requires |marks| == |lines|
    ensures |r| == |lines|
    ensures forall i :: 0 <= i < |lines| ==> r[i] == marks[i] + "\t" + lines[i]
    decreases |lines|
  {
    if lines == [] then [] else [marks[0] + "\t" + lines[0]] + Annotate(lines[1..], marks[1..])
  }

  lemma AnnotateAppend(xs: seq<string>, ys: seq<string>, marks: seq<string>)
    requires |marks| == |xs| + |ys|
    ensures Annotate(xs + ys, marks) == Annotate(xs, marks[..|xs|]) + Annotate(ys, marks[|xs|..])
  {
    var l := Annotate(xs + ys, marks);
    var front := Annotate(xs, marks[..|xs|]);
    var back := Annotate(ys, marks[|xs|..]);
    assert |l| == |front + back|;
    forall i | 0 <= i < |l| ensures l[i] == (front + back)[i] {
      if i < |xs| {
        assert (xs + ys)[i] == xs[i] && marks[..|xs|][i] == marks[i];
        assert (front + back)[i] == front[i];
      } else {
        assert (xs + ys)[i] == ys[i - |xs|] && marks[|xs|..][i - |xs|] == marks[i];
        assert (front + back)[i] == back[i - |xs|];
      }
    }
  }

  /** Marks the reader can unpack: none holds a tab. */
  predicate TabFree(marks: seq<string>)
  {
    forall i :: 0 <= i < |marks| ==> '\t' !in marks[i]
  }

  /** The detector keeps every line. */
  predicate KeepAll(marks: seq<string>)
  {
    forall i :: 0 <= i < |marks| ==> marks[i] == "0"
  }

  /** A sentence that survives the trip through the file unchanged: one line (no newline
      and no carriage return), no tab, no surrounding whitespace, and not mistaken for a
      tag line. */
  predicate PlainSentence(s: string)
  {
    && '\n' !in s && '\r' !in s && '\t' !in s
    && Stripped(s)
    && !StartsWith(s, "<doc>") && !StartsWith(s, "<p>") && !StartsWith(s, "</p>") && !StartsWith(s, "</doc>")
  }

  predicate PlainDocument(d: Document)
  {
    forall i :: 0 <= i < |d.sentences| ==> PlainSentence(d.sentences[i])
  }

  /** The sentences whose mark is "0", in order. */
  function Survivors(sentences: seq<string>, marks: seq<string>): (r: seq<string>)
    requires |marks| == |sentences|
    ensures Seqs.IsSubsequence(r, sentences)
    decreases |sentences|
  {
    if sentences == [] then []
    else
      var rest := Survivors(sentences[1..], marks[1..]);
      if marks[0] == "0" then [sentences[0]] + rest else rest
  }

  /** With every mark "0", every sentence survives. */
  lemma {:induction false} SurvivorsKeepAll(sentences: seq<string>, marks: seq<string>)
    requires |marks| == |sentences| && KeepAll(marks)
    ensures Survivors(sentences, marks) == sentences
    decreases |sentences|
  {
    if sentences != [] {
      SurvivorsKeepAll(sentences[1..], marks[1..]);
    }
  }

  /** With no mark "0", nothing survives. */
  lemma {:induction false} SurvivorsNoneKept(sentences: seq<string>, marks: seq<string>)
    requires |marks| == |sentences| && forall i :: 0 <= i < |marks| ==> marks[i] != "0"
    ensures Survivors(sentences, marks) == []
    decreases |sentences|
  {
    if sentences != [] {
      SurvivorsNoneKept(sentences[1..], marks[1..]);
    }
  }

  lemma StartsWithTerminated(s: string, tag: string)
    requires '\n' !in tag
    ensures StartsWith(s + "\n", tag) ==> StartsWith(s, tag)
  {
    if StartsWith(s + "\n", tag) {
      assert (s + "\n")[|s|] == '\n';
      assert forall k :: 0 <= k < |tag| ==> tag[k] == (s + "\n")[k] && tag[k] != '\n';
      assert |tag| <= |s|;
      assert (s + "\n")[..|tag|] == s[..|tag|];
    }
  }

  /** A sentence line written by the cleaner is read as text, never as a tag. */
  lemma PlainLineIsText(s: string)
    requires s == [] || PlainSentence(s)
    ensures '\t' !in s + "\n"
    ensures !StartsWith(s + "\n", "<doc>") && !StartsWith(s + "\n", "<p>")
    ensures !StartsWith(s + "\n", "</p>") && !StartsWith(s + "\n", "</doc>")
    ensures Strip(s + "\n") == s
  {
    StartsWithTerminated(s, "<doc>");
    StartsWithTerminated(s, "<p>");
    StartsWithTerminated(s, "</p>");
    StartsWithTerminated(s, "</doc>");
    StripTerminated(s);
  }

  /** The body marks of a block: those after the two opening tags and before the two
      closing ones. */
  function BodyMarks(marks: seq<string>): seq<string>
    requires |marks| >= 4
  {
    marks[2..|marks| - 2]
  }

  /** What reading back one annotated block yields: the surviving body lines. */
  function DedupDocument(d: Document, marks: seq<string>): Document
    requires |marks| == |BlockLines(d.sentences)|
  {
    MakeDocument("", Survivors(BlockBody(d.sentences), BodyMarks(marks)))
  }

  /** How the reader sees a sentence line carrying a mark. */
  function BodyScan(sentence: string, mark: string): Scanned
  {
    Split(if mark == "0" then Kept(sentence) else Duplicate)
  }

  /** How the reader sees the annotated body lines of a block. */
  function BodyScans(body: seq<string>, marks: seq<string>): (r: seq<Scanned>)
    requires |marks| == |body|
    ensures |r| == |body|
    ensures forall i :: 0 <= i < |body| ==> r[i] == BodyScan(body[i], marks[i])
    decreases |body|
  {
    if body == [] then [] else [BodyScan(body[0], marks[0])] + BodyScans(body[1..], marks[1..])
  }

  /** How the reader sees an annotated block up to, and without, its closing line. */
  function OpenScans(d: Document, marks: seq<string>): seq<Scanned>
    requires |marks| == |BlockLines(d.sentences)|
  {
    [Split(OpeningTag), Split(OpeningTag)] + BodyScans(BlockBody(d.sentences), BodyMarks(marks)) + [Split(OpeningTag)]
  }

  lemma ScanTagLine(mark: string, tag: string)
    requires '\t' !in mark
    requires tag in {"<doc>\n", "<p>\n", "</p>\n"}
    ensures Scan(mark + "\t" + tag) == Split(OpeningTag)
  {
    assert StartsWith(tag, "<doc>") || StartsWith(tag, "<p>") || StartsWith(tag, "</p>");
    ScanAnnotated(mark, tag);
  }

  lemma ScanClosingLine(mark: string)
    requires '\t' !in mark
    ensures Scan(mark + "\t" + "</doc>\n") == Split(ClosingDoc)
  {
    var tag := "</doc>\n";
    assert StartsWith(tag, "</doc>");
    ClosingIsNoTag(tag);
    ScanAnnotated(mark, tag);
  }

  lemma ScanSentenceLine(mark: string, s: string)
    requires '\t' !in mark
    requires s == [] || PlainSentence(s)
    ensures Scan(mark + "\t" + (s + "\n")) == BodyScan(s, mark)
  {
    PlainLineIsText(s);
    ScanAnnotated(mark, s + "\n");
  }

  /** The scans of the lines of an annotated block, one line at a time. */
  lemma ScanBlockLine(d: Document, marks: seq<string>, i: nat)
    requires PlainDocument(d)
    requires |marks| == |BlockLines(d.sentences)| && TabFree(marks)
    requires i < |marks|
    ensures Scan(marks[i] + "\t" + BlockLines(d.sentences)[i]) == (OpenScans(d, marks) + [Split(ClosingDoc)])[i]
  {
    var body := BlockBody(d.sentences);
    var n := |body|;
    if 2 <= i < n + 2 {
      ScanBodyLine(d, marks, i);
    } else {
      ScanTagLines(d, marks, i);
    }
  }

  lemma ScanBodyLine(d: Document, marks: seq<string>, i: nat)
    requires PlainDocument(d)
    requires |marks| == |BlockLines(d.sentences)| && TabFree(marks)
    requires 2 <= i < |marks| - 2
    ensures Scan(marks[i] + "\t" + BlockLines(d.sentences)[i]) == (OpenScans(d, marks) + [Split(ClosingDoc)])[i]
  {
    var body := BlockBody(d.sentences);
    var lines := BlockLines(d.sentences);
    var bs := BodyScans(body, BodyMarks(marks));
    assert lines[i] == Terminate(body)[i - 2] == body[i - 2] + "\n";
    assert body[i - 2] == [] || PlainSentence(body[i - 2]);
    ScanSentenceLine(marks[i], body[i - 2]);
    assert BodyMarks(marks)[i - 2] == marks[i];
    assert (OpenScans(d, marks) + [Split(ClosingDoc)])[i] == bs[i - 2];
  }

  lemma ScanTagLines(d: Document, marks: seq<string>, i: nat)
    requires |marks| == |BlockLines(d.sentences)| && TabFree(marks)
    requires i < 2 || |marks| - 2 <= i < |marks|
    ensures Scan(marks[i] + "\t" + BlockLines(d.sentences)[i]) == (OpenScans(d, marks) + [Split(ClosingDoc)])[i]
  {
    var lines := BlockLines(d.sentences);
    var n := |marks|;
    if i < 2 || i == n - 2 {
      assert lines[i] in {"<doc>\n", "<p>\n", "</p>\n"};
      ScanTagLine(marks[i], lines[i]);
    } else {
      assert lines[i] == "</doc>\n";
      ScanClosingLine(marks[i]);
    }
  }

  /** The reader sees an annotated block as its opening tags, its body lines kept or
      dropped by their marks, and its closing tags. */
  lemma ScanBlock(d: Document, marks: seq<string>)
    requires PlainDocument(d)
    requires |marks| == |BlockLines(d.sentences)| && TabFree(marks)
    ensures Seqs.Map(Annotate(BlockLines(d.sentences), marks), Scan) == OpenScans(d, marks) + [Split(ClosingDoc)]
  {
    var lines := BlockLines(d.sentences);
    var l := Seqs.Map(Annotate(lines, marks), Scan);
    var r := OpenScans(d, marks) + [Split(ClosingDoc)];
    assert |l| == |r|;
    forall i | 0 <= i < |l| ensures l[i] == r[i] {
      ScanBlockLine(d, marks, i);
    }
  }

  lemma {:induction false} ContributionsAppend(a: seq<Scanned>, b: seq<Scanned>)
    ensures Contributions(a + b) == Contributions(a) + Contributions(b)
    decreases |a|
  {
    if a == [] {
      assert a + b == b;
    } else {
      assert (a + b)[1..] == a[1..] + b;
      ContributionsAppend(a[1..], b);
    }
  }

  lemma {:induction false} BodyContributions(body: seq<string>, marks: seq<string>)
    requires |marks| == |body|
    ensures Contributions(BodyScans(body, marks)) == Survivors(body, marks)
    decreases |body|
  {
    if body != [] {
      BodyContributions(body[1..], marks[1..]);
    }
  }

  /** The reader collects exactly the surviving body lines of a block. */
  lemma OpenScansContribute(d: Document, marks: seq<string>)
    requires |marks| == |BlockLines(d.sentences)|
    ensures OpenRun(OpenScans(d, marks))
    ensures Contributions(OpenScans(d, marks)) == DedupDocument(d, marks).sentences
  {
    var body := BlockBody(d.sentences);
    var bs := BodyScans(body, BodyMarks(marks));
    var tags := [Split(OpeningTag), Split(OpeningTag)];
    ContributionsAppend(tags + bs, [Split(OpeningTag)]);
    ContributionsAppend(tags, bs);
    BodyContributions(body, BodyMarks(marks));
    assert Contributions(tags) == [];
    assert Contributions([Split(OpeningTag)]) == [];
  }

  /** What the reader yields for a written file, block by block, given the marks. */
  function DedupResult(docs: seq<Document>, marks: seq<string>): (r: seq<Document>)
    requires |marks| == |BlockLinesOf(docs)|
    ensures |r| == |docs|
    decreases |docs|
  {
    if docs == [] then []
    else
      var k := |BlockLines(docs[0].sentences)|;
      [DedupDocument(docs[0], marks[..k])] + DedupResult(docs[1..], marks[k..])
  }

  /** How the reader sees the annotated lines of a whole written file. */
  function FileScans(docs: seq<Document>, marks: seq<string>): seq<Scanned>
    requires |marks| == |BlockLinesOf(docs)|
    decreases |docs|
  {
    if docs == [] then []
    else
      var k := |BlockLines(docs[0].sentences)|;
      OpenScans(docs[0], marks[..k]) + [Split(ClosingDoc)] + FileScans(docs[1..], marks[k..])
  }

  lemma TabFreeSplit(marks: seq<string>, k: nat)
    requires TabFree(marks) && k <= |marks|
    ensures TabFree(marks[..k]) && TabFree(marks[k..])
  {
    assert forall i :: 0 <= i < k ==> marks[..k][i] == marks[i];
    assert forall i :: 0 <= i < |marks| - k ==> marks[k..][i] == marks[k + i];
  }

  lemma {:induction false} ScanFile(docs: seq<Document>, marks: seq<string>)
    requires forall i :: 0 <= i < |docs| ==> PlainDocument(docs[i])
    requires |marks| == |BlockLinesOf(docs)| && TabFree(marks)
    ensures Seqs.Map(Annotate(BlockLinesOf(docs), marks), Scan) == FileScans(docs, marks)
    decreases |docs|
  {
    if docs == [] {
      assert Annotate(BlockLinesOf(docs), marks) == [];
    } else {
      var first := BlockLines(docs[0].sentences);
      var k := |first|;
      var more := BlockLinesOf(docs[1..]);
      assert BlockLinesOf(docs) == first + more;
      AnnotateAppend(first, more, marks);
      Seqs.MapAppend(Annotate(first, marks[..k]), Annotate(more, marks[k..]), Scan);
      TabFreeSplit(marks, k);
      ScanBlock(docs[0], marks[..k]);
      ScanFile(docs[1..], marks[k..]);
    }
  }

  lemma {:induction false} FoldFile(docs: seq<Document>, marks: seq<string>, lineNo: nat)
    requires |marks| == |BlockLinesOf(docs)|
    ensures Fold(FileScans(docs, marks), [], lineNo) == Parsed(DedupResult(docs, marks), None)
    decreases |docs|
  {
    if docs != [] {
      var k := FileSplit(docs, marks);
      var next := FoldFileHead(docs, marks, lineNo);
      FoldFile(docs[1..], marks[k..], next);
    }
  }

  /** The first block of a file reads back as its deduplicated document; the rest is read
      from the line after its closing tag. */
  lemma FoldFileHead(docs: seq<Document>, marks: seq<string>, lineNo: nat) returns (next: nat)
    requires docs != [] && |marks| == |BlockLinesOf(docs)|
    ensures var k := |BlockLines(docs[0].sentences)|;
      k <= |marks| && |marks[k..]| == |BlockLinesOf(docs[1..])|
      && var rest := Fold(FileScans(docs[1..], marks[k..]), [], next);
      && Fold(FileScans(docs, marks), [], lineNo) == Parsed([DedupDocument(docs[0], marks[..k])] + rest.docs, rest.failure)
      && DedupResult(docs, marks) == [DedupDocument(docs[0], marks[..k])] + DedupResult(docs[1..], marks[k..])
  {
    var k := FileSplit(docs, marks);
    var rest := FileScans(docs[1..], marks[k..]);
    assert FileScans(docs, marks) == OpenScans(docs[0], marks[..k]) + [Split(ClosingDoc)] + rest;
    next := FoldOpenBlock(docs[0], marks[..k], rest, lineNo);
  }

  /** One annotated block followed by the closing line reads back as its deduplicated
      document. */
  lemma FoldOpenBlock(d: Document, marks: seq<string>, rest: seq<Scanned>, lineNo: nat) returns (next: nat)
    requires |marks| == |BlockLines(d.sentences)|
    ensures var r := Fold(rest, [], next);
      Fold(OpenScans(d, marks) + [Split(ClosingDoc)] + rest, [], lineNo) == Parsed([DedupDocument(d, marks)] + r.docs, r.failure)
  {
    var a := OpenScans(d, marks);
    OpenScansContribute(d, marks);
    FoldBlock(a, rest, [], lineNo);
    next := lineNo + |a| + 1;
    assert [] + Contributions(a) == DedupDocument(d, marks).sentences;
    assert MakeDocument("", [] + Contributions(a)) == DedupDocument(d, marks);
  }

  /** The marks of the first document's block, and those of the rest of the file. */
  lemma FileSplit(docs: seq<Document>, marks: seq<string>) returns (k: nat)
    requires docs != [] && |marks| == |BlockLinesOf(docs)|
    ensures k == |BlockLines(docs[0].sentences)| && k <= |marks|
    ensures |marks[..k]| == |BlockLines(docs[0].sentences)|
    ensures |marks[k..]| == |BlockLinesOf(docs[1..])|
  {
    k := |BlockLines(docs[0].sentences)|;
    assert BlockLinesOf(docs) == BlockLines(docs[0].sentences) + BlockLinesOf(docs[1..]);
  }

  /** Reading back the annotated lines of a whole written file yields one document per
      written document, holding the sentences the detector kept, and raises nothing. */
  lemma ReadBlocks(docs: seq<Document>, marks: seq<string>)
    requires forall i :: 0 <= i < |docs| ==> PlainDocument(docs[i])
    requires |marks| == |BlockLinesOf(docs)| && TabFree(marks)
    ensures ParseFile(Annotate(BlockLinesOf(docs), marks)) == Parsed(DedupResult(docs, marks), None)
  {
    ScanFile(docs, marks);
    FoldFile(docs, marks, 0);
  }

  /** Every line a plain document writes is free of newlines, so `readlines()` finds its blocks. */
  lemma PlainHasNoNewlines(docs: seq<Document>)
    requires forall i :: 0 <= i < |docs| ==> PlainDocument(docs[i])
    ensures forall i :: 0 <= i < |docs| ==> NoNewlines(docs[i].sentences)
  {
  }

  /** The detector's output for a file of plain documents, read back: each written
      document becomes one document holding, in order, exactly the sentences marked "0";
      a document without sentences, or with none marked "0", is still yielded. */
  lemma DedupRoundTrip(docs: seq<Document>, marks: seq<string>)
    requires forall i :: 0 <= i < |docs| ==> PlainDocument(docs[i])
    requires |marks| == |ReadLines(WriteDocuments(docs))| && TabFree(marks)
    ensures |marks| == |BlockLinesOf(docs)|
    ensures ParseFile(Annotate(ReadLines(WriteDocuments(docs)), marks)) == Parsed(DedupResult(docs, marks), None)
  {
    PlainHasNoNewlines(docs);
    ReadWrittenDocuments(docs);
    ReadBlocks(docs, marks);
  }

  /** The documents with only their sentences kept, as the reader rebuilds them. */
  function Reread(d: Document): Document
  {
    MakeDocument("", d.sentences)
  }

  lemma {:induction false} DedupKeepAll(docs: seq<Document>, marks: seq<string>)
    requires |marks| == |BlockLinesOf(docs)| && KeepAll(marks)
    requires forall i :: 0 <= i < |docs| ==> docs[i].sentences != []
    ensures DedupResult(docs, marks) == Seqs.Map(docs, Reread)
    decreases |docs|
  {
    if docs != [] {
      var k := |BlockLines(docs[0].sentences)|;
      var bm := BodyMarks(marks[..k]);
      assert KeepAll(bm) by {
        assert forall i :: 0 <= i < |bm| ==> bm[i] == marks[i + 2];
      }
      SurvivorsKeepAll(docs[0].sentences, bm);
      assert KeepAll(marks[k..]) by {
        assert forall i :: 0 <= i < |marks| - k ==> marks[k..][i] == marks[k + i];
      }
      DedupKeepAll(docs[1..], marks[k..]);
      assert Seqs.Map(docs, Reread)[1..] == Seqs.Map(docs[1..], Reread);
    }
  }

  /** When the detector keeps every line, documents with at least one plain sentence read
      back with exactly their sentences, in order, and empty content. */
  lemma RoundTrip(docs: seq<Document>, marks: seq<string>)
    requires forall i :: 0 <= i < |docs| ==> PlainDocument(docs[i]) && docs[i].sentences != []
    requires |marks| == |ReadLines(WriteDocuments(docs))| && KeepAll(marks)
    ensures ParseFile(Annotate(ReadLines(WriteDocuments(docs)), marks)).docs == Seqs.Map(docs, Reread)
  {
    assert TabFree(marks) by {
      assert forall i :: 0 <= i < |marks| ==> marks[i] == "0";
    }
    DedupRoundTrip(docs, marks);
    DedupKeepAll(docs, marks);
  }

  /** A document without sentences is written with one empty line, which reads back as one
      empty sentence when kept. */
  lemma EmptyDocumentRereadsAsBlank(d: Document, marks: seq<string>)
    requires d.sentences == [] && |marks| == |BlockLines(d.sentences)| && KeepAll(marks)
    ensures DedupDocument(d, marks).sentences == [""]
  {
    assert BodyMarks(marks) == [marks[2]];
  }

  /** A block whose every body line is marked duplicate is still yielded, with no sentences. */
  lemma AllDuplicateBlockYieldsEmpty(d: Document, marks: seq<string>)
    requires |marks| == |BlockLines(d.sentences)|
    requires forall i :: 2 <= i < |marks| - 2 ==> marks[i] != "0"
    ensures DedupDocument(d, marks) == Document("", [], None, None)
  {
    var bm := BodyMarks(marks);
    assert forall i :: 0 <= i < |bm| ==> bm[i] == marks[i + 2];
    SurvivorsNoneKept(BlockBody(d.sentences), bm);
  }

  /** A document repeating a sentence, and the detector's verdict on its seven lines:
      the second copy is a duplicate. */
  const Repeated: Document := MakeDocument("Hello world. Hello world. Bonjour.", ["Hello world.", "Hello world.", "Bonjour."])
  const RepeatedMarks: seq<string> := ["0", "0", "0", "1", "0", "0", "0"]

  lemma RepeatedIsPlain()
    ensures PlainDocument(Repeated)
  {
    HelloIsPlain();
    BonjourIsPlain();
  }

  lemma HelloIsPlain()
    ensures PlainSentence("Hello world.")
  {
    assert !IsSpace('H') && !IsSpace('.');
  }

  lemma BonjourIsPlain()
    ensures PlainSentence("Bonjour.")
  {
    assert !IsSpace('B') && !IsSpace('.');
  }

  lemma RepeatedDedup()
    ensures |RepeatedMarks| == |BlockLinesOf([Repeated])|
    ensures DedupResult([Repeated], RepeatedMarks) == [Document("", ["Hello world.", "Bonjour."], None, None)]
  {
    var S := Repeated.sentences;
    var marks := RepeatedMarks;
    assert BlockLinesOf([Repeated]) == BlockLines(S) + BlockLinesOf([]);
    assert |BlockLines(S)| == 7;
    assert marks[..7] == marks && marks[7..] == [];
    assert BodyMarks(marks) == ["0", "1", "0"];
    assert Survivors(S, ["0", "1", "0"]) == ["Hello world.", "Bonjour."] by {
      assert Survivors(S[2..], ["0"]) == ["Bonjour."];
      assert Survivors(S[1..], ["1", "0"]) == ["Bonjour."];
    }
    assert DedupResult([Repeated], marks) == [DedupDocument(Repeated, marks)] + DedupResult([], []);
  }

  /** The detector marks the second copy of the repeated sentence as a duplicate, and the
      reader keeps the other two sentences. */
  lemma RepeatedSentenceDropped()
    ensures |RepeatedMarks| == |ReadLines(WriteDocuments([Repeated]))|
    ensures ParseFile(Annotate(ReadLines(WriteDocuments([Repeated])), RepeatedMarks))
         == Parsed([Document("", ["Hello world.", "Bonjour."], None, None)], None)
  {
    var docs := [Repeated];
    RepeatedIsPlain();
    assert forall i :: 0 <= i < |docs| ==> PlainDocument(docs[i]);
    PlainHasNoNewlines(docs);
    ReadWrittenDocuments(docs);
    RepeatedDedup();
    RepeatedMarksTabFree();
    DedupRoundTrip(docs, RepeatedMarks);
  }

  lemma RepeatedMarksTabFree()
    ensures TabFree(RepeatedMarks)
  {
    forall i | 0 <= i < |RepeatedMarks| ensures '\t' !in RepeatedMarks[i] {
      assert RepeatedMarks[i] == "0" || RepeatedMarks[i] == "1";
    }
  }
}

/** The reader of the near-duplicate detector's output (`OnionParser._parse_file`; the
    copy in the document filter is identical). Each line is `index<TAB>text`; tag lines
    are skipped, `</doc>` yields the block collected so far, and only index-"0" lines
    contribute their stripped text. The reader is split into scanning one line (unpacking
    and classifying it) and the loop over the scanned lines, which is what it does line
    by line. */
module OnionReader {
  import opened Base
  import opened Text
  import opened Documents
  import Seqs

  /** `line_index, line = line.split('\t')`: succeeds exactly when the line holds one tab. */
  function SplitIndex(line: string): (r: Option<(string, string)>)
    ensures r.Some? <==> CountChar(line, '\t') == 1
    ensures r.Some? ==> line == r.value.0 + "\t" + r.value.1
    ensures r.Some? ==> '\t' !in r.value.0 && '\t' !in r.value.1
  {
    var i := FindChar(line, '\t');
    if i == |line| then
      assert line[..i] == line;
      None
    else
      assert line == line[..i] + "\t" + line[i + 1..];
      CountCharAppend(line[..i] + "\t", line[i + 1..], '\t');
      CountCharAppend(line[..i], "\t", '\t');
      if '\t' in line[i + 1..] then None else Some((line[..i], line[i + 1..]))
  }

  /** Splitting `index + '\t' + text` gives back the index and the text. */
  lemma SplitAnnotated(index: string, text: string)
    requires '\t' !in index && '\t' !in text
    ensures SplitIndex(index + "\t" + text) == Some((index, text))
  {
    var line := index + "\t" + text;
    CountCharAppend(index + "\t", text, '\t');
    CountCharAppend(index, "\t", '\t');
    var r := SplitIndex(line);
    var a, b := r.value.0, r.value.1;
    assert |a| == |index| by {
      assert line == a + "\t" + b;
      assert line[|a|] == '\t' && line[|index|] == '\t';
    }
    assert a == line[..|index|] == index;
    assert b == line[|index| + 1..] == text;
  }

  /** What an unpacked line means to the reader. */
  datatype LineKind =
    | OpeningTag              // text starts with `<doc>`, `<p>` or `</p>`: ignored whatever its index
    | ClosingDoc              // text starts with `</doc>`: the current block is yielded
    | Kept(sentence: string)  // index "0": the stripped text is a surviving sentence
    | Duplicate               // any other index: a dropped duplicate
  {
    /** The sentences the line adds to the current block. */
    function Sentences(): seq<string>
    {
      if Kept? then [sentence] else []
    }
  }

  /** The reader's `if`/`elif`/`else` over the text and index of one line. */
  function Classify(index: string, text: string): LineKind
  {
    if StartsWith(text, "<doc>") || StartsWith(text, "<p>") || StartsWith(text, "</p>") then OpeningTag
    else if StartsWith(text, "</doc>") then ClosingDoc
    else if index == "0" then Kept(Strip(text))
    else Duplicate
  }

  /** A text starting with `</doc>` is no opening tag. */
  lemma ClosingIsNoTag(text: string)
    requires StartsWith(text, "</doc>")
    ensures !StartsWith(text, "<doc>") && !StartsWith(text, "<p>") && !StartsWith(text, "</p>")
  {
    assert text[1] == '/' && text[2] == 'd';
  }

  /** One line after unpacking: either the unpacking failed (with the number of fields
      `split` produced) or the line's meaning. */
  datatype Scanned = Unsplittable(fields: nat) | Split(kind: LineKind)

  /** The line holds exactly one tab. */
  predicate Splittable(line: string)
  {
    CountChar(line, '\t') == 1
  }

  /** The line unpacks and its text starts with `</doc>`. */
  predicate Closing(line: string)
  {
    var r := SplitIndex(line);
    r.Some? && StartsWith(r.value.1, "</doc>")
  }

  /** `line.split('\t')` unpacked into index and text, then classified. */
  function Scan(line: string): Scanned
  {
    match SplitIndex(line)
    case None => Unsplittable(CountChar(line, '\t') + 1)
    case Some(fields) => Split(Classify(fields.0, fields.1))
  }

  /** Scanning fails exactly on lines without exactly one tab, reporting how many fields
      the split produced, and recognises exactly the closing lines. */
  lemma ScanMeaning(line: string)
    ensures Scan(line).Unsplittable? <==> !Splittable(line)
    ensures Scan(line).Unsplittable? ==> Scan(line).fields == CountChar(line, '\t') + 1
    ensures Scan(line) == Split(ClosingDoc) <==> Closing(line)
  {
    var r := SplitIndex(line);
    if r.Some? && StartsWith(r.value.1, "</doc>") {
      ClosingIsNoTag(r.value.1);
    }
  }

  /** A line `index<TAB>text` without further tabs scans as the classification of its parts. */
  lemma ScanAnnotated(index: string, text: string)
    requires '\t' !in index && '\t' !in text
    ensures Scan(index + "\t" + text) == Split(Classify(index, text))
  {
    SplitAnnotated(index, text);
  }

  /** The `ValueError` raised when a line does not unpack into index and text. */
  datatype LineError = UnpackError(lineNo: nat, fields: nat)

  /** The documents a generator yielded, and the exception that ended it, if any. */
  datatype Parsed = Parsed(docs: seq<Document>, failure: Option<LineError>)

  /** Every scanned line unpacked. */
  predicate AllSplit(scans: seq<Scanned>)
  {
    forall i :: 0 <= i < |scans| ==> scans[i].Split?
  }

  /** The reader's loop from line `lineNo` on, `pending` holding the sentences kept in the
      current block so far. */
  function Fold(scans: seq<Scanned>, pending: seq<string>, lineNo: nat): Parsed
    decreases |scans|
  {
    if scans == [] then Parsed([], None)
    else match scans[0]
      case Unsplittable(n) => Parsed([], Some(UnpackError(lineNo, n)))
      case Split(kind) =>
        if kind.ClosingDoc? then
          var rest := Fold(scans[1..], [], lineNo + 1);
          Parsed([MakeDocument("", pending)] + rest.docs, rest.failure)
        else
          Fold(scans[1..], pending + kind.Sentences(), lineNo + 1)
  }

  /** `OnionParser._parse_file` on the lines of a file from line `lineNo` on. */
  function ParseLines(lines: seq<string>, pending: seq<string>, lineNo: nat): (r: Parsed)
    ensures AllBare(r.docs)
    ensures r.failure.Some? ==> lineNo <= r.failure.value.lineNo < lineNo + |lines|
  {
    var scans := Seqs.Map(lines, Scan);
    FoldDocsBare(scans, pending, lineNo);
    if Fold(scans, pending, lineNo).failure.Some? then
      FoldFailureLocated(scans, pending, lineNo);
      Fold(scans, pending, lineNo)
    else
      Fold(scans, pending, lineNo)
  }

  /** `OnionParser._parse_file` on the lines `readlines()` returned for one file. */
  function ParseFile(lines: seq<string>): (r: Parsed)
    ensures AllBare(r.docs)
    ensures r.failure.Some? ==> r.failure.value.lineNo < |lines| && !Splittable(lines[r.failure.value.lineNo])
  {
    if ParseLines(lines, [], 0).failure.Some? then
      ParseFailureLocated(lines, [], 0);
      ParseLines(lines, [], 0)
    else
      ParseLines(lines, [], 0)
  }

  // ---------------------------------------------------------------------------
  // The loop over scanned lines

  /** Documents as the reader builds them: no content, no heads, no language. */
  predicate AllBare(docs: seq<Document>)
  {
    forall i :: 0 <= i < |docs| ==> docs[i].content == "" && docs[i].heads.None? && docs[i].language.None?
  }

  /** Every document the reader yields has empty content and no heads or language. */
  lemma {:induction false} FoldDocsBare(scans: seq<Scanned>, pending: seq<string>, lineNo: nat)
    ensures AllBare(Fold(scans, pending, lineNo).docs)
    decreases |scans|
  {
    if scans != [] && scans[0].Split? {
      var kind := scans[0].kind;
      if kind.ClosingDoc? {
        FoldDocsBare(scans[1..], [], lineNo + 1);
        var rest := Fold(scans[1..], [], lineNo + 1);
        var docs := [MakeDocument("", pending)] + rest.docs;
        assert Fold(scans, pending, lineNo).docs == docs;
        forall i | 0 < i < |docs| ensures docs[i] == rest.docs[i - 1] { }
      } else {
        FoldDocsBare(scans[1..], pending + kind.Sentences(), lineNo + 1);
      }
    }
  }

  /** The reader stops with an error exactly when some line did not unpack. */
  lemma {:induction false} FoldFailsIffUnsplit(scans: seq<Scanned>, pending: seq<string>, lineNo: nat)
    ensures Fold(scans, pending, lineNo).failure.None? <==> AllSplit(scans)
    decreases |scans|
  {
    if scans != [] && scans[0].Split? {
      var kind := scans[0].kind;
      var pending' := if kind.ClosingDoc? then [] else pending + kind.Sentences();
      FoldFailsIffUnsplit(scans[1..], pending', lineNo + 1);
      assert AllSplit(scans) <==> AllSplit(scans[1..]) by {
        if AllSplit(scans[1..]) {
          forall i | 0 <= i < |scans| ensures scans[i].Split? {
            if i > 0 { assert scans[i] == scans[1..][i - 1]; }
          }
        }
      }
    }
  }

  lemma {:induction false} FoldFailureLocated(scans: seq<Scanned>, pending: seq<string>, lineNo: nat)
    requires Fold(scans, pending, lineNo).failure.Some?
    ensures var r := Fold(scans, pending, lineNo);
      var k := r.failure.value.lineNo - lineNo;
      && lineNo <= r.failure.value.lineNo < lineNo + |scans|
      && AllSplit(scans[..k])
      && scans[k] == Unsplittable(r.failure.value.fields)
      && r.docs == Fold(scans[..k], pending, lineNo).docs
    decreases |scans|
  {
    var r := Fold(scans, pending, lineNo);
    if scans[0].Split? {
      var k := r.failure.value.lineNo - lineNo;
      var kind := scans[0].kind;
      var pending' := if kind.ClosingDoc? then [] else pending + kind.Sentences();
      FoldFailureLocated(scans[1..], pending', lineNo + 1);
      var prefix := scans[..k];
      assert prefix[0] == scans[0];
      assert prefix[1..] == scans[1..][..k - 1];
    } else {
      assert scans[..0] == [];
    }
  }

  /** The scanned line closes a block. */
  predicate IsClosing(s: Scanned)
  {
    s == Split(ClosingDoc)
  }

  lemma {:induction false} FoldCountsClosings(scans: seq<Scanned>, pending: seq<string>, lineNo: nat)
    requires AllSplit(scans)
    ensures |Fold(scans, pending, lineNo).docs| == |Seqs.Filter(scans, IsClosing)|
    decreases |scans|
  {
    if scans != [] {
      var kind := scans[0].kind;
      var pending' := if kind.ClosingDoc? then [] else pending + kind.Sentences();
      FoldCountsClosings(scans[1..], pending', lineNo + 1);
    }
  }

  /** The sentences a run of scanned lines contributes, in order. */
  function Contributions(scans: seq<Scanned>): seq<string>
    decreases |scans|
  {
    if scans == [] then []
    else (if scans[0].Split? then scans[0].kind.Sentences() else []) + Contributions(scans[1..])
  }

  /** A run of unpacked lines, none of which closes a block. */
  predicate OpenRun(scans: seq<Scanned>)
  {
    forall i :: 0 <= i < |scans| ==> scans[i].Split? && !scans[i].kind.ClosingDoc?
  }

  lemma {:induction false} FoldDropsUnclosedTail(scans: seq<Scanned>, pending: seq<string>, lineNo: nat)
    requires OpenRun(scans)
    ensures Fold(scans, pending, lineNo) == Parsed([], None)
    decreases |scans|
  {
    if scans != [] {
      FoldDropsUnclosedTail(scans[1..], pending + scans[0].kind.Sentences(), lineNo + 1);
    }
  }

  lemma {:induction false} FoldBlock(a: seq<Scanned>, b: seq<Scanned>, pending: seq<string>, lineNo: nat)
    requires OpenRun(a)
    ensures var rest := Fold(b, [], lineNo + |a| + 1);
      Fold(a + [Split(ClosingDoc)] + b, pending, lineNo)
        == Parsed([MakeDocument("", pending + Contributions(a))] + rest.docs, rest.failure)
    decreases |a|
  {
    var scans := a + [Split(ClosingDoc)] + b;
    if a == [] {
      assert scans[0] == Split(ClosingDoc);
      assert scans[1..] == b;
      assert pending + Contributions(a) == pending;
    } else {
      assert scans[0] == a[0];
      assert scans[1..] == a[1..] + [Split(ClosingDoc)] + b;
      var pending' := pending + a[0].kind.Sentences();
      FoldBlock(a[1..], b, pending', lineNo + 1);
      assert lineNo + 1 + |a[1..]| + 1 == lineNo + |a| + 1;
      assert pending' + Contributions(a[1..]) == pending + Contributions(a);
    }
  }

  // ---------------------------------------------------------------------------
  // The reader on lines of text

  /** Every line holds exactly one tab. */
  predicate WellFormed(lines: seq<string>)
  {
    forall i :: 0 <= i < |lines| ==> Splittable(lines[i])
  }

  /** Every line of a file unpacks exactly when it is well-formed. */
  lemma ScansAllSplit(lines: seq<string>)
    ensures AllSplit(Seqs.Map(lines, Scan)) <==> WellFormed(lines)
  {
    var scans := Seqs.Map(lines, Scan);
    forall i | 0 <= i < |lines| ensures scans[i].Split? <==> Splittable(lines[i]) {
      ScanMeaning(lines[i]);
    }
  }

  /** Reading fails exactly when some line does not hold exactly one tab. */
  lemma ParseFailsIffMalformed(lines: seq<string>, pending: seq<string>, lineNo: nat)
    ensures ParseLines(lines, pending, lineNo).failure.None? <==> WellFormed(lines)
  {
    ScansAllSplit(lines);
    FoldFailsIffUnsplit(Seqs.Map(lines, Scan), pending, lineNo);
  }

  /** On a malformed line the reader raises at the first line without exactly one tab,
      after yielding exactly the documents closed before it. */
  lemma ParseFailureLocated(lines: seq<string>, pending: seq<string>, lineNo: nat)
    requires ParseLines(lines, pending, lineNo).failure.Some?
    ensures var r := ParseLines(lines, pending, lineNo);
      var k := r.failure.value.lineNo - lineNo;
      && lineNo <= r.failure.value.lineNo < lineNo + |lines|
      && WellFormed(lines[..k])
      && !Splittable(lines[k])
      && r.failure.value.fields == CountChar(lines[k], '\t') + 1
      && r.docs == ParseLines(lines[..k], pending, lineNo).docs
  {
    var scans := Seqs.Map(lines, Scan);
    var r := Fold(scans, pending, lineNo);
    FoldFailureLocated(scans, pending, lineNo);
    var k := r.failure.value.lineNo - lineNo;
    assert scans[k] == Scan(lines[k]);
    ScanMeaning(lines[k]);
    Seqs.MapPrefix(lines, k, Scan);
    ScansAllSplit(lines[..k]);
  }

  /** On a well-formed file, one document is yielded per line whose text starts with `</doc>`. */
  lemma ParseCountsClosings(lines: seq<string>)
    requires WellFormed(lines)
    ensures |ParseFile(lines).docs| == |Seqs.Filter(lines, Closing)|
  {
    ScansAllSplit(lines);
    var scans := Seqs.Map(lines, Scan);
    FoldCountsClosings(scans, [], 0);
    forall line ensures Closing(line) <==> IsClosing(Scan(line)) {
      ScanMeaning(line);
    }
    Seqs.FilterMapCount(lines, Closing, Scan, IsClosing);
  }

  lemma OpenRunOfLines(a: seq<string>)
    requires WellFormed(a) && forall i :: 0 <= i < |a| ==> !Closing(a[i])
    ensures OpenRun(Seqs.Map(a, Scan))
  {
    var sa := Seqs.Map(a, Scan);
    forall i | 0 <= i < |sa| ensures sa[i].Split? && !sa[i].kind.ClosingDoc? {
      assert sa[i] == Scan(a[i]);
      ScanMeaning(a[i]);
    }
  }

  /** Kept lines after the last `</doc>` are never yielded, and nothing is raised. */
  lemma ParseDropsUnclosedTail(lines: seq<string>, pending: seq<string>, lineNo: nat)
    requires WellFormed(lines)
    requires forall i :: 0 <= i < |lines| ==> !Closing(lines[i])
    ensures ParseLines(lines, pending, lineNo) == Parsed([], None)
  {
    OpenRunOfLines(lines);
    FoldDropsUnclosedTail(Seqs.Map(lines, Scan), pending, lineNo);
  }

  lemma ScansCons(line: string, rest: seq<string>)
    ensures Seqs.Map([line] + rest, Scan) == [Scan(line)] + Seqs.Map(rest, Scan)
  {
    var scans := Seqs.Map([line] + rest, Scan);
    assert scans[0] == Scan(line);
    assert scans[1..] == Seqs.Map(rest, Scan);
  }

  lemma FoldPassOver(s: Scanned, rest: seq<Scanned>, pending: seq<string>, lineNo: nat)
    requires s.Split? && !s.kind.ClosingDoc?
    ensures Fold([s] + rest, pending, lineNo) == Fold(rest, pending + s.kind.Sentences(), lineNo + 1)
  {
    assert ([s] + rest)[1..] == rest;
  }

  lemma FoldClose(rest: seq<Scanned>, pending: seq<string>, lineNo: nat)
    ensures var tail := Fold(rest, [], lineNo + 1);
      Fold([Split(ClosingDoc)] + rest, pending, lineNo) == Parsed([MakeDocument("", pending)] + tail.docs, tail.failure)
  {
    assert ([Split(ClosingDoc)] + rest)[1..] == rest;
  }

  /** A line whose text starts with `<doc>`, `<p>` or `</p>` is skipped, whatever its index. */
  lemma TagLineSkipped(index: string, text: string, rest: seq<string>, pending: seq<string>, lineNo: nat)
    requires '\t' !in index && '\t' !in text
    requires StartsWith(text, "<doc>") || StartsWith(text, "<p>") || StartsWith(text, "</p>")
    ensures ParseLines([index + "\t" + text] + rest, pending, lineNo) == ParseLines(rest, pending, lineNo + 1)
  {
    var line := index + "\t" + text;
    ScanAnnotated(index, text);
    assert Scan(line) == Split(OpeningTag);
    ScansCons(line, rest);
    FoldPassOver(Split(OpeningTag), Seqs.Map(rest, Scan), pending, lineNo);
    assert pending + OpeningTag.Sentences() == pending;
  }

  /** A line whose text starts with `</doc>` yields the sentences collected so far, as a
      document without content, and starts a new block. */
  lemma ClosingLineYields(index: string, text: string, rest: seq<string>, pending: seq<string>, lineNo: nat)
    requires '\t' !in index && '\t' !in text
    requires StartsWith(text, "</doc>")
    ensures var tail := ParseLines(rest, [], lineNo + 1);
      ParseLines([index + "\t" + text] + rest, pending, lineNo)
        == Parsed([Document("", pending, None, None)] + tail.docs, tail.failure)
  {
    var line := index + "\t" + text;
    ScanAnnotated(index, text);
    ClosingIsNoTag(text);
    assert Scan(line) == Split(ClosingDoc);
    ScansCons(line, rest);
    FoldClose(Seqs.Map(rest, Scan), pending, lineNo);
  }

  /** Any other line adds its stripped text to the block when its index is exactly "0",
      and nothing otherwise. */
  lemma TextLineKeptIffZero(index: string, text: string, rest: seq<string>, pending: seq<string>, lineNo: nat)
    requires '\t' !in index && '\t' !in text
    requires !StartsWith(text, "<doc>") && !StartsWith(text, "<p>") && !StartsWith(text, "</p>") && !StartsWith(text, "</doc>")
    ensures ParseLines([index + "\t" + text] + rest, pending, lineNo)
      == ParseLines(rest, if index == "0" then pending + [Strip(text)] else pending, lineNo + 1)
  {
    var line := index + "\t" + text;
    ScanAnnotated(index, text);
    var kind := if index == "0" then Kept(Strip(text)) else Duplicate;
    assert Scan(line) == Split(kind);
    assert pending + kind.Sentences() == if index == "0" then pending + [Strip(text)] else pending;
    ScansCons(line, rest);
    FoldPassOver(Split(kind), Seqs.Map(rest, Scan), pending, lineNo);
  }

  /** A line without exactly one tab stops the reader with the unpacking error. */
  lemma MalformedLineRaises(line: string, rest: seq<string>, pending: seq<string>, lineNo: nat)
    requires !Splittable(line)
    ensures ParseLines([line] + rest, pending, lineNo) == Parsed([], Some(UnpackError(lineNo, CountChar(line, '\t') + 1)))
  {
    ScanMeaning(line);
    ScansCons(line, rest);
  }

  /** The sentences a run of lines contributes to its block. */
  function KeptSentences(lines: seq<string>): seq<string>
  {
    Contributions(Seqs.Map(lines, Scan))
  }

  lemma ScansOfBlock(a: seq<string>, closing: string, b: seq<string>)
    requires Scan(closing) == Split(ClosingDoc)
    ensures Seqs.Map(a + [closing] + b, Scan) == Seqs.Map(a, Scan) + [Split(ClosingDoc)] + Seqs.Map(b, Scan)
  {
    Seqs.MapAppend(a + [closing], b, Scan);
    Seqs.MapAppend(a, [closing], Scan);
    assert Seqs.Map([closing], Scan) == [Split(ClosingDoc)];
  }

  lemma ParseScannedBlock(a: seq<string>, closing: string, b: seq<string>, pending: seq<string>, lineNo: nat)
    requires OpenRun(Seqs.Map(a, Scan))
    requires Seqs.Map(a + [closing] + b, Scan) == Seqs.Map(a, Scan) + [Split(ClosingDoc)] + Seqs.Map(b, Scan)
    ensures var rest := ParseLines(b, [], lineNo + |a| + 1);
      ParseLines(a + [closing] + b, pending, lineNo)
        == Parsed([MakeDocument("", pending + KeptSentences(a))] + rest.docs, rest.failure)
  {
    FoldBlock(Seqs.Map(a, Scan), Seqs.Map(b, Scan), pending, lineNo);
  }

  /** A block of unpackable, non-closing lines followed by a closing line yields one
      document holding the pending sentences and those the block kept, then reading goes on. */
  lemma ParseBlock(a: seq<string>, closing: string, b: seq<string>, pending: seq<string>, lineNo: nat)
    requires WellFormed(a) && forall i :: 0 <= i < |a| ==> !Closing(a[i])
    requires Closing(closing)
    ensures var rest := ParseLines(b, [], lineNo + |a| + 1);
      ParseLines(a + [closing] + b, pending, lineNo)
        == Parsed([MakeDocument("", pending + KeptSentences(a))] + rest.docs, rest.failure)
  {
    OpenRunOfLines(a);
    ScanMeaning(closing);
    ScansOfBlock(a, closing, b);
    ParseScannedBlock(a, closing, b, pending, lineNo);
  }
}

/** The line-oriented tagged-block format around the near-duplicate detector (Onion):
    the writer that produces its input (`OnionOutputFormatter._write_document`) and the
    reader of its output (`OnionParser._parse_file`, present in two identical copies). */
module OnionFormat {
  import opened Base
  import opened Text
  import opened Documents
  import Seqs

  const StartDocTag: string := "<doc>\n<p>\n"
  const EndDocTag: string := "\n</p>\n</doc>\n"

  /** One document as a tagged block: the sentences joined by newlines between the tags. */
  function WriteDocument(d: Document): (s: string)
    ensures |s| >= |StartDocTag| + |EndDocTag| && s[..|StartDocTag|] == StartDocTag
    ensures d.sentences == [] ==> s == "<doc>\n<p>\n\n</p>\n</doc>\n"
  {
    StartDocTag + Join("\n", d.sentences) + EndDocTag
  }

  /** Every document written, in order, into one file. */
  function WriteDocuments(docs: seq<Document>): (s: string)
    ensures s == "" <==> docs == []
    decreases |docs|
  {
    if docs == [] then "" else WriteDocument(docs[0]) + WriteDocuments(docs[1..])
  }

  /** The sentence lines of a block: an empty list still produces one empty line. */
  function BlockBody(sentences: seq<string>): (body: seq<string>)
    ensures |body| > 0
    ensures sentences != [] ==> body == sentences
  {
    if sentences == [] then [""] else sentences
  }

  /** The lines of a written block, as `readlines()` returns them. */
  function BlockLines(sentences: seq<string>): (lines: seq<string>)
    ensures |lines| == |BlockBody(sentences)| + 4
  {
    ["<doc>\n", "<p>\n"] + Terminate(BlockBody(sentences)) + ["</p>\n", "</doc>\n"]
  }

  lemma ReadOpeningTags(rest: string)
    ensures ReadLines("<doc>\n" + ("<p>\n" + rest)) == ["<doc>\n", "<p>\n"] + ReadLines(rest)
  {
    ReadLinesCons("<p>", rest);
    ReadLinesCons("<doc>", "<p>\n" + rest);
    assert "<doc>" + "\n" == "<doc>\n" && "<p>" + "\n" == "<p>\n";
  }

  lemma ReadClosingTags(rest: string)
    ensures ReadLines("</p>\n" + ("</doc>\n" + rest)) == ["</p>\n", "</doc>\n"] + ReadLines(rest)
  {
    ReadLinesCons("</doc>", rest);
    ReadLinesCons("</p>", "</doc>\n" + rest);
    assert "</doc>" + "\n" == "</doc>\n" && "</p>" + "\n" == "</p>\n";
  }

  /** A written block, followed by more text, is the two opening tag lines, the body
      lines each with its newline, and the two closing tag lines. */
  lemma WrittenDocumentLayout(d: Document, rest: string)
    ensures WriteDocument(d) + rest
      == "<doc>\n" + ("<p>\n" + (Concat(Terminate(BlockBody(d.sentences))) + ("</p>\n" + ("</doc>\n" + rest))))
  {
    var body := BlockBody(d.sentences);
    assert Join("\n", body) == Join("\n", d.sentences);
    JoinThenNewline(body);
    assert EndDocTag == "\n" + "</p>\n" + "</doc>\n";
  }

  /** A written block reads back as the two opening tags, one line per sentence (one
      empty line for a document without sentences) and the two closing tags. */
  lemma ReadWrittenDocument(d: Document, rest: string)
    requires NoNewlines(d.sentences)
    ensures ReadLines(WriteDocument(d) + rest) == BlockLines(d.sentences) + ReadLines(rest)
  {
    var body := BlockBody(d.sentences);
    var closing := "</p>\n" + ("</doc>\n" + rest);
    var mid := Concat(Terminate(body)) + closing;
    WrittenDocumentLayout(d, rest);
    calc {
      ReadLines(WriteDocument(d) + rest);
      ReadLines("<doc>\n" + ("<p>\n" + mid));
      { ReadOpeningTags(mid); }
      ["<doc>\n", "<p>\n"] + ReadLines(mid);
      { ReadLinesTerminated(body, closing); }
      ["<doc>\n", "<p>\n"] + (Terminate(body) + ReadLines(closing));
      { ReadClosingTags(rest); }
      ["<doc>\n", "<p>\n"] + (Terminate(body) + (["</p>\n", "</doc>\n"] + ReadLines(rest)));
      BlockLines(d.sentences) + ReadLines(rest);
    }
  }

  /** The lines of a whole written file: every document's block, in order. */
  function BlockLinesOf(docs: seq<Document>): seq<string>
    decreases |docs|
  {
    if docs == [] then [] else BlockLines(docs[0].sentences) + BlockLinesOf(docs[1..])
  }

  /** Every document of a written file reads back as its block of lines, in order. */
  lemma {:induction false} ReadWrittenDocuments(docs: seq<Document>)
    requires forall i :: 0 <= i < |docs| ==> NoNewlines(docs[i].sentences)
    ensures ReadLines(WriteDocuments(docs)) == BlockLinesOf(docs)
    decreases |docs|
  {
    if docs != [] {
      ReadWrittenDocuments(docs[1..]);
      ReadWrittenDocument(docs[0], WriteDocuments(docs[1..]));
    } else {
      assert ReadLines("") == [];
    }
  }
}

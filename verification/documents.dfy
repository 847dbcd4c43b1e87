/** The unit of data flowing through the cleaner, and the language-identification
    verdict shared by the document and sentence filters. */
module Documents {
  import opened Base

  /** A document: raw or normalised text, its ordered sentences, the crawler's HTTP
      headers when it was crawled, and the language tag once one has been accepted. */
  datatype Document = Document(
    content: string,
    sentences: seq<string>,
    heads: Option<string>,
    language: Option<string>)

  /** `Document(content=..., sentences=...)`: no headers, no language. */
  function MakeDocument(content: string, sentences: seq<string>): Document
  {
    Document(content, sentences, None, None)
  }

  /** What `langid`'s `classify` returns: the best language and its normalised probability. */
  datatype LangGuess = LangGuess(lang: string, score: real)

  /** `res[0] in langs and res[1] > threshold`: the guess names an allowed language with a
      probability strictly above the threshold. */
  predicate Confident(g: LangGuess, langs: seq<string>, threshold: real)
  {
    g.lang in langs && g.score > threshold
  }
}

/** The parsed document the extractors start from, and the nested book they produce. */
module BookModel {
  import opened Wrappers

  /** A `div.chapter` as the extractors see it: the text of its first `h2` (if any) and the text
      of each of its `p` elements, in document order. */
  datatype ParsedChapter = ParsedChapter(heading: Option<string>, paragraphs: seq<string>)

  /** A parsed Gutenberg page: for each `meta` name, the `content` of the first tag with that
      name (None when that tag has no content); the text of the first `h1` and of the first `h2`
      whose parent is `body`; and every `div.chapter` in document order. */
  datatype ParsedDocument = ParsedDocument(
    meta: map<string, Option<string>>,
    bodyH1: Option<string>,
    bodyH2: Option<string>,
    chapters: seq<ParsedChapter>)

  /** The "author" value: the `dc.creator` string, or the list of capitalised name runs found in
      the body-level `h2`. */
  datatype Author = Creator(name: string) | NameRuns(names: seq<string>)

  /** The "meta" object of the output. */
  datatype MetaOut = MetaOut(language: Option<string>, subject: Option<string>, citation: string)

  /** A paragraph object; `seqNo` is the "seq" key. */
  datatype ParagraphOut = ParagraphOut(seqNo: int, text: string)

  /** A chapter object; `seqNo` is the "seq" key. */
  datatype ChapterOut = ChapterOut(
    title: Option<string>,
    seqNo: int,
    text: string,
    paragraphs: seq<ParagraphOut>)

  /** The book dictionary that the extractors write as JSON and the loader reads back. */
  datatype BookOut = BookOut(
    title: Option<string>,
    author: Option<Author>,
    meta: MetaOut,
    chapters: seq<ChapterOut>)
}

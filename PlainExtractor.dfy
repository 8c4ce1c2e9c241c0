/** The older extractor (extractors/gutenberg.py and its identical copy gutenberg_modified.py):
    every chapter div and every paragraph is kept and numbered by position, texts are cleaned by
    TextCleaner.clean, and a chapter title is the second line of its h2. */
module PlainExtractor {
  import opened Wrappers
  import opened Text
  import opened BookModel
  import opened Metadata
  import opened TextCleaner
  import HtmlExtractor

  /** Chapter.title. The pattern `(?:.*?)(?:\n)(.*)` needs a newline, which its lazy prefix
      reaches first; group 1 is then the text up to the following newline. */
  function ChapterTitle(heading: Option<string>): Option<string> {
    match heading
    case None => None
    case Some(t) => if IndexOf(t, '\n') < |t| then Some(FirstLine(AfterFirstLine(t))) else None
  }

  /** The title is None exactly when there is no h2 or its text has no newline; otherwise it is
      the newline-free stretch between the first newline and the next one (or the end). */
  lemma ChapterTitleIsSecondLine(heading: Option<string>)
    ensures ChapterTitle(heading).None? <==> heading.None? || '\n' !in heading.value
    ensures ChapterTitle(heading).Some? ==>
              var t, r := heading.value, ChapterTitle(heading).value;
              var k := IndexOf(t, '\n');
              && k < |t| && t[k] == '\n' && '\n' !in t[..k]
              && '\n' !in r
              && k + 1 + |r| <= |t|
              && t[k + 1..k + 1 + |r|] == r
              && (k + 1 + |r| == |t| || t[k + 1 + |r|] == '\n')
  {
    if heading.Some? {
      IndexOfFinds(heading.value, '\n');
      var t := heading.value;
      if IndexOf(t, '\n') < |t| {
        assert AfterFirstLine(t) == t[IndexOf(t, '\n') + 1..];
        SecondLineOf(t);
      }
    }
  }

  /** The first line of the text after the first newline lies between that newline and the next. */
  lemma SecondLineOf(t: string)
    requires IndexOf(t, '\n') < |t|
    ensures var k := IndexOf(t, '\n');
            var r := FirstLine(t[k + 1..]);
            && '\n' !in t[..k] && k + 1 + |r| <= |t| && t[k + 1..k + 1 + |r|] == r
            && (k + 1 + |r| == |t| || t[k + 1 + |r|] == '\n')
  {
    var k := IndexOf(t, '\n');
    LineInSuffix(t, k + 1, FirstLine(t[k + 1..]));
    NothingBefore(t, '\n');
  }

  /** `c` does not occur before its first occurrence. */
  lemma NothingBefore(t: string, c: char)
    ensures c !in t[..IndexOf(t, c)]
  {
    var k := IndexOf(t, c);
    forall j | 0 <= j < k ensures t[..k][j] != c {
    }
  }

  /** A prefix of the suffix of `t` from `m` sits in `t` at `m`, and so does the character after it. */
  lemma LineInSuffix(t: string, m: nat, r: string)
    requires m <= |t| && r <= t[m..]
    ensures m + |r| <= |t| && t[m..m + |r|] == r
    ensures m + |r| < |t| ==> t[m + |r|] == t[m..][|r|]
  {
    assert t[m..][..|r|] == r;
  }

  /** The two extractors disagree on a two-line heading: the registered one takes the first line,
      this one the second. */
  lemma TitleRulesDiffer(line: string, rest: string)
    requires line != [] && '\n' !in line
    ensures HtmlExtractor.GetTitle(Some(line + "\n" + rest)) == Some(line)
    ensures ChapterTitle(Some(line + "\n" + rest)) == Some(FirstLine(rest))
  {
    FirstLineOf(line, rest);
    HtmlExtractor.GetTitleOfTwoLines(line, rest);
  }

  /** Chapter.whole_chapter: the paragraph texts joined with newlines, then cleaned. */
  function WholeChapter(normalize: string -> string, paragraphs: seq<string>): string {
    Clean(normalize, Join("\n", paragraphs))
  }

  /** The newlines of the join are all replaced and the curly double quotes substituted, so
      the chapter text is one line without curly quotes or surrounding whitespace. */
  lemma WholeChapterIsSingleLine(normalize: string -> string, paragraphs: seq<string>)
    requires IntroducesNone(normalize)
    ensures var w := WholeChapter(normalize, paragraphs);
            && NoQuotesOrNewlines(w)
            && (w == [] || (!IsSpace(w[0]) && !IsSpace(w[|w| - 1])))
  {
    CleanIsSingleLine(normalize, Join("\n", paragraphs));
  }

  /** Paragraph.get. */
  function ParagraphOf(normalize: string -> string, text: string, seqNo: int): ParagraphOut {
    ParagraphOut(seqNo, Clean(normalize, text))
  }

  /** The "paragraphs" value: the comprehension over enumerate(paragraphs, start=1). */
  function Paragraphs(normalize: string -> string, texts: seq<string>): seq<ParagraphOut> {
    seq(|texts|, k requires 0 <= k < |texts| => ParagraphOf(normalize, texts[k], k + 1))
  }

  /** Chapter.get. */
  function ChapterOf(normalize: string -> string, c: ParsedChapter, seqNo: int): ChapterOut {
    ChapterOut(ChapterTitle(c.heading), seqNo, WholeChapter(normalize, c.paragraphs),
      Paragraphs(normalize, c.paragraphs))
  }

  /** The "chapters" value: Chapter.get for every chapter div, numbered from 1. */
  function Chapters(normalize: string -> string, chapters: seq<ParsedChapter>): seq<ChapterOut> {
    seq(|chapters|, k requires 0 <= k < |chapters| => ChapterOf(normalize, chapters[k], k + 1))
  }

  /** Book.get, with the comprehension over enumerate(chapters, start=1). */
  function GetBook(normalize: string -> string, doc: ParsedDocument): BookOut {
    BookOut(Title(doc), AuthorOf(doc), MetaOf(doc), Chapters(normalize, doc.chapters))
  }

  /** Within a chapter nothing is dropped: one paragraph per `p`, numbered by position, each
      its input cleaned. */
  lemma KeepsEveryParagraph(normalize: string -> string, texts: seq<string>)
    ensures var r := Paragraphs(normalize, texts);
            && |r| == |texts|
            && forall j :: 0 <= j < |r| ==> r[j].seqNo == j + 1 && r[j].text == Clean(normalize, texts[j])
  {
  }

  /** Nothing is dropped: there is one chapter per chapter div, and every chapter seq value is
      its 1-based position. */
  lemma NumberedWithoutFiltering(normalize: string -> string, chapters: seq<ParsedChapter>)
    ensures var r := Chapters(normalize, chapters);
            && |r| == |chapters|
            && forall k :: 0 <= k < |r| ==> r[k].seqNo == k + 1 && r[k] == ChapterOf(normalize, chapters[k], k + 1)
  {
  }
}

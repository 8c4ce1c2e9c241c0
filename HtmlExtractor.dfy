/** The registered extractor for Gutenberg HTML: chapters and paragraphs pass a materiality filter
    (a cleaned text of two characters or fewer is dropped) and the survivors are renumbered from 1.
    The cleaning step `clean_soup` that clean_paragraph relies on is a parameter `soup`. */
module HtmlExtractor {
  import opened Wrappers
  import opened Text
  import opened Filtering
  import opened BookModel
  import opened Metadata

  /** GutenbergExtractor.clean_paragraph: clean the text, then turn every newline into a space. */
  function CleanParagraph(soup: string -> string, text: string): (r: string)
    ensures |r| == |soup(text)|
    ensures '\n' !in r
    ensures forall k :: 0 <= k < |r| && soup(text)[k] == '\n' ==> r[k] == ' '
    ensures forall k :: 0 <= k < |r| && soup(text)[k] != '\n' ==> r[k] == soup(text)[k]
  {
    ReplaceChar(soup(text), '\n', ' ')
  }

  /** The negation of `is_empty`: a text survives unless its length is 0, 1 or 2. */
  predicate IsMaterial(text: string) {
    |text| >= 3
  }

  // ---- chapter titles ----

  /** Chapters.get_title. The pattern `(?:.*?)?(?:\n)?(.*)` always matches at the start; its lazy
      prefix matches nothing, so group 1 is the first line, or the second line when the text
      starts with a newline. Only a missing h2 gives None. */
  function GetTitle(heading: Option<string>): Option<string> {
    match heading
    case None => None
    case Some(t) => Some(FirstLine(if |t| > 0 && t[0] == '\n' then t[1..] else t))
  }

  /** The title is None exactly when there is no h2; otherwise it is a newline-free stretch that
      begins the text (after at most one leading newline) and runs up to the next newline or the
      end. */
  lemma GetTitleIsLine(heading: Option<string>)
    ensures GetTitle(heading).None? <==> heading.None?
    ensures heading.Some? ==>
              var t, r := heading.value, GetTitle(heading).value;
              var lead := if |t| > 0 && t[0] == '\n' then 1 else 0;
              && '\n' !in r
              && lead + |r| <= |t|
              && t[lead..lead + |r|] == r
              && (lead + |r| == |t| || t[lead + |r|] == '\n')
  {
  }

  /** A heading of two lines, the first not empty, gives its first line. */
  lemma GetTitleOfTwoLines(line: string, rest: string)
    requires line != [] && '\n' !in line
    ensures GetTitle(Some(line + "\n" + rest)) == Some(line)
  {
    FirstLineOf(line, rest);
  }

  // ---- paragraphs ----

  /** The cleaned text of every paragraph, in order. */
  function Cleaned(soup: string -> string, texts: seq<string>): (r: seq<string>)
    ensures |r| == |texts|
    ensures forall k :: 0 <= k < |texts| ==> r[k] == CleanParagraph(soup, texts[k])
  {
    seq(|texts|, k requires 0 <= k < |texts| => CleanParagraph(soup, texts[k]))
  }

  /** The cleaned paragraph texts that survive the filter, in document order. */
  function KeptTexts(soup: string -> string, texts: seq<string>): seq<string> {
    Filter(Cleaned(soup, texts), IsMaterial)
  }

  /** Paragraph objects for a sequence of texts, numbered from 1. */
  function Numbered(texts: seq<string>): (r: seq<ParagraphOut>)
    ensures |r| == |texts|
    ensures forall k :: 0 <= k < |r| ==> r[k].seqNo == k + 1 && r[k].text == texts[k]
  {
    seq(|texts|, k requires 0 <= k < |texts| => ParagraphOut(k + 1, texts[k]))
  }

  lemma NumberedSnoc(texts: seq<string>, t: string)
    ensures Numbered(texts + [t]) == Numbered(texts) + [ParagraphOut(|texts| + 1, t)]
  {
  }

  /** Paragraphs.build_paragraph_set: the counter advances only for a surviving paragraph, so the
      numbers are exactly 1..N over the N surviving cleaned texts, in document order, and every
      surviving text has at least three characters. */
  method BuildParagraphSet(soup: string -> string, texts: seq<string>) returns (r: seq<ParagraphOut>)
    ensures r == Numbered(KeptTexts(soup, texts))
    ensures forall k :: 0 <= k < |r| ==> r[k].seqNo == k + 1 && |r[k].text| >= 3
  {
    r := [];
    var seqNo := 1;
    var i := 0;
    while i < |texts|
      invariant 0 <= i <= |texts|
      invariant r == Numbered(KeptTexts(soup, texts[..i]))
      invariant seqNo == |r| + 1
    {
      var para := CleanParagraph(soup, texts[i]);
      assert Cleaned(soup, texts[..i + 1]) == Cleaned(soup, texts[..i]) + [para];
      FilterSnoc(Cleaned(soup, texts[..i]), para, IsMaterial);
      if IsMaterial(para) {
        NumberedSnoc(KeptTexts(soup, texts[..i]), para);
        r := r + [ParagraphOut(seqNo, para)];
        seqNo := seqNo + 1;
      }
      i := i + 1;
    }
    assert texts[..i] == texts;
  }

  /** The surviving paragraphs are exactly the cleaned texts of length at least three: paragraph k
      of the output is the cleaned text of input position ix[k], the positions increase, and an
      input position appears among them iff its cleaned text is material. */
  lemma KeptTextsAreMaterialInputs(soup: string -> string, texts: seq<string>)
    ensures var ix := KeptIndices(Cleaned(soup, texts), IsMaterial);
            && |KeptTexts(soup, texts)| == |ix|
            && StrictlyIncreasing(ix)
            && (forall k :: 0 <= k < |ix| ==>
                  ix[k] < |texts| && KeptTexts(soup, texts)[k] == CleanParagraph(soup, texts[ix[k]]))
            && (forall i :: 0 <= i < |texts| ==>
                  (IsMaterial(CleanParagraph(soup, texts[i])) <==> i in ix))
  {
    FilterByIndices(Cleaned(soup, texts), IsMaterial);
  }

  // ---- chapters ----

  /** One element of the list clean_chapters builds: the title, the cleaned chapter text and the
      chapter's paragraphs still uncleaned. */
  datatype RetainedChapter = RetainedChapter(title: Option<string>, text: string, paragraphs: seq<string>)

  /** The chapter text: the paragraph texts joined with single spaces, then cleaned. */
  function ChapterText(soup: string -> string, c: ParsedChapter): string {
    CleanParagraph(soup, Join(" ", c.paragraphs))
  }

  /** The chapter filter: keep a chapter whose text is material. */
  function Material(soup: string -> string): ParsedChapter -> bool {
    c => IsMaterial(ChapterText(soup, c))
  }

  function Retain(soup: string -> string, c: ParsedChapter): RetainedChapter {
    RetainedChapter(GetTitle(c.heading), ChapterText(soup, c), c.paragraphs)
  }

  function RetainAll(soup: string -> string, cs: seq<ParsedChapter>): (r: seq<RetainedChapter>)
    ensures |r| == |cs|
    ensures forall k :: 0 <= k < |cs| ==> r[k] == Retain(soup, cs[k])
  {
    seq(|cs|, k requires 0 <= k < |cs| => Retain(soup, cs[k]))
  }

  /** Chapters.clean_chapters: the material chapters in document order, each with its title and
      cleaned text. */
  method CleanChapters(soup: string -> string, chapters: seq<ParsedChapter>) returns (r: seq<RetainedChapter>)
    ensures r == RetainAll(soup, Filter(chapters, Material(soup)))
    ensures forall k :: 0 <= k < |r| ==> |r[k].text| >= 3
  {
    r := [];
    var i := 0;
    while i < |chapters|
      invariant 0 <= i <= |chapters|
      invariant r == RetainAll(soup, Filter(chapters[..i], Material(soup)))
    {
      var chap := chapters[i];
      var text := CleanParagraph(soup, Join(" ", chap.paragraphs));
      assert chapters[..i + 1] == chapters[..i] + [chap];
      FilterSnoc(chapters[..i], chap, Material(soup));
      if IsMaterial(text) {
        RetainSnoc(soup, Filter(chapters[..i], Material(soup)), chap);
        r := r + [RetainedChapter(GetTitle(chap.heading), text, chap.paragraphs)];
      }
      i := i + 1;
    }
    assert chapters[..i] == chapters;
    RetainedAreMaterial(soup, chapters);
  }

  lemma RetainSnoc(soup: string -> string, cs: seq<ParsedChapter>, c: ParsedChapter)
    ensures RetainAll(soup, cs + [c]) == RetainAll(soup, cs) + [Retain(soup, c)]
  {
    assert forall k :: 0 <= k < |cs| ==> (cs + [c])[k] == cs[k];
  }

  /** Every retained chapter's text has at least three characters. */
  lemma RetainedAreMaterial(soup: string -> string, chapters: seq<ParsedChapter>)
    ensures var r := RetainAll(soup, Filter(chapters, Material(soup)));
            forall k :: 0 <= k < |r| ==> |r[k].text| >= 3
  {
    var f := Filter(chapters, Material(soup));
    forall k | 0 <= k < |f| ensures |Retain(soup, f[k]).text| >= 3 {
      assert Material(soup)(f[k]);
    }
  }

  /** The chapter object for a retained chapter with its sequence number. */
  function ChapterOf(soup: string -> string, c: RetainedChapter, seqNo: int): ChapterOut {
    ChapterOut(c.title, seqNo, c.text, Numbered(KeptTexts(soup, c.paragraphs)))
  }

  /** The "chapters" value of the registered extractor. */
  function Chapters(soup: string -> string, chapters: seq<ParsedChapter>): (r: seq<ChapterOut>) {
    var kept := RetainAll(soup, Filter(chapters, Material(soup)));
    seq(|kept|, k requires 0 <= k < |kept| => ChapterOf(soup, kept[k], k + 1))
  }

  /** Chapters.get: the retained chapters numbered 1..N in order, each with its paragraph set. */
  method GetChapters(soup: string -> string, chapters: seq<ParsedChapter>) returns (r: seq<ChapterOut>)
    ensures r == Chapters(soup, chapters)
  {
    var kept := CleanChapters(soup, chapters);
    r := [];
    var i := 0;
    while i < |kept|
      invariant 0 <= i <= |kept|
      invariant |r| == i
      invariant forall k :: 0 <= k < i ==> r[k] == ChapterOf(soup, kept[k], k + 1)
    {
      var seqNo := i + 1;
      var paragraphs := BuildParagraphSet(soup, kept[i].paragraphs);
      r := r + [ChapterOut(kept[i].title, seqNo, kept[i].text, paragraphs)];
      i := i + 1;
    }
    ChaptersOfKept(soup, chapters, kept, r);
  }

  /** A list that numbers the retained chapters one by one is the "chapters" value. */
  lemma ChaptersOfKept(soup: string -> string, chapters: seq<ParsedChapter>, kept: seq<RetainedChapter>,
                       r: seq<ChapterOut>)
    requires kept == RetainAll(soup, Filter(chapters, Material(soup)))
    requires |r| == |kept|
    requires forall k :: 0 <= k < |kept| ==> r[k] == ChapterOf(soup, kept[k], k + 1)
    ensures r == Chapters(soup, chapters)
  {
  }

  /** Chapter k of the output is input chapter ix[k], retained and numbered k + 1. */
  lemma ChapterAt(soup: string -> string, chapters: seq<ParsedChapter>, k: nat)
    requires k < |Filter(chapters, Material(soup))|
    ensures var f := Filter(chapters, Material(soup));
            var r := Chapters(soup, chapters);
            && k < |r|
            && r[k] == ChapterOut(GetTitle(f[k].heading), k + 1, ChapterText(soup, f[k]),
                                  Numbered(KeptTexts(soup, f[k].paragraphs)))
            && |r[k].text| >= 3
  {
    var f := Filter(chapters, Material(soup));
    var kept := RetainAll(soup, f);
    assert kept[k] == Retain(soup, f[k]);
    assert Material(soup)(f[k]);
  }

  /** What Chapters states about the source: chapter k is numbered k + 1 and has a material text;
      it comes from input chapter ix[k], the positions increase, and an input chapter is among
      them iff its cleaned, space-joined paragraph text has at least three characters. */
  lemma ChaptersFilteredAndNumbered(soup: string -> string, chapters: seq<ParsedChapter>)
    ensures var r, ix := Chapters(soup, chapters), KeptIndices(chapters, Material(soup));
            && |r| == |ix|
            && StrictlyIncreasing(ix)
            && (forall k :: 0 <= k < |r| ==>
                  && ix[k] < |chapters|
                  && r[k].seqNo == k + 1
                  && r[k].title == GetTitle(chapters[ix[k]].heading)
                  && r[k].text == ChapterText(soup, chapters[ix[k]])
                  && |r[k].text| >= 3
                  && r[k].paragraphs == Numbered(KeptTexts(soup, chapters[ix[k]].paragraphs)))
            && (forall i :: 0 <= i < |chapters| ==>
                  (IsMaterial(ChapterText(soup, chapters[i])) <==> i in ix))
  {
    FilterByIndices(chapters, Material(soup));
    var ix := KeptIndices(chapters, Material(soup));
    var f := Filter(chapters, Material(soup));
    var r := Chapters(soup, chapters);
    assert |r| == |f|;
    forall k | 0 <= k < |r|
      ensures && ix[k] < |chapters|
              && r[k].seqNo == k + 1
              && r[k].title == GetTitle(chapters[ix[k]].heading)
              && r[k].text == ChapterText(soup, chapters[ix[k]])
              && |r[k].text| >= 3
              && r[k].paragraphs == Numbered(KeptTexts(soup, chapters[ix[k]].paragraphs))
    {
      ChapterAt(soup, chapters, k);
      assert f[k] == chapters[ix[k]];
    }
    forall i | 0 <= i < |chapters|
      ensures IsMaterial(ChapterText(soup, chapters[i])) <==> i in ix
    {
      assert Material(soup)(chapters[i]) == IsMaterial(ChapterText(soup, chapters[i]));
    }
  }

  /** Chapters and paragraphs are filtered separately: a chapter whose paragraphs all clean to
      two characters or fewer, but whose joined text cleans to three or more, is kept with no
      paragraphs at all. */
  lemma RetainedChapterWithoutParagraphs(soup: string -> string, c: ParsedChapter)
    requires forall k :: 0 <= k < |c.paragraphs| ==> |soup(c.paragraphs[k])| <= 2
    requires |soup(Join(" ", c.paragraphs))| >= 3
    ensures Chapters(soup, [c]) == [ChapterOut(GetTitle(c.heading), 1, ChapterText(soup, c), [])]
  {
    FilterSnoc([], c, Material(soup));
    assert [] + [c] == [c];
    assert Filter([c], Material(soup)) == [c];
    FilterNone(Cleaned(soup, c.paragraphs), IsMaterial);
  }

  /** An instance: the paragraphs "ab" and "cd", left as they are by the cleaning step, join
      into the five-character chapter text "ab cd". */
  lemma RetainedChapterWithoutParagraphsExample()
    ensures |Chapters(s => s, [ParsedChapter(None, ["ab", "cd"])])| == 1
    ensures Chapters(s => s, [ParsedChapter(None, ["ab", "cd"])])[0].paragraphs == []
  {
    var soup: string -> string := s => s;
    var c := ParsedChapter(None, ["ab", "cd"]);
    JoinLength(" ", c.paragraphs);
    assert c.paragraphs[..1] == ["ab"];
    assert TotalLength(c.paragraphs) == 4;
    RetainedChapterWithoutParagraphs(soup, c);
  }

  /** Book.get of the registered extractor. */
  method GetBook(soup: string -> string, doc: ParsedDocument) returns (r: BookOut)
    ensures r == BookOut(Title(doc), AuthorOf(doc), MetaOf(doc), Chapters(soup, doc.chapters))
  {
    var chapters := GetChapters(soup, doc.chapters);
    r := BookOut(Title(doc), AuthorOf(doc), MetaOf(doc), chapters);
  }
}

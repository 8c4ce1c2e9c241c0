/** The front matter of Book.get, the same in both extractors: metadata lookup, the title and
    author fallbacks, and the citation string. */
module Metadata {
  import opened Wrappers
  import opened Text
  import opened BookModel
  import Dates

  /** Book.get_meta: the content of the first `meta` tag with this name, None when there is no
      such tag or it has no content. */
  function GetMeta(doc: ParsedDocument, name: string): (r: Option<string>)
    ensures name !in doc.meta ==> r.None?
  {
    if name in doc.meta then doc.meta[name] else None
  }

  // ---- the author regex `(?:[A-Z][a-z\-']+\s?){1,}` with re.findall ----

  predicate IsUpper(c: char) {
    'A' <= c <= 'Z'
  }

  /** `[a-z\-']` */
  predicate IsNameTail(c: char) {
    'a' <= c <= 'z' || c == '-' || c == '\''
  }

  /** A character that can be part of a match. */
  predicate IsNameChar(c: char) {
    IsUpper(c) || IsNameTail(c) || IsSpace(c)
  }

  /** One repetition of the group can start at index i. */
  predicate WordAt(s: string, i: int) {
    0 <= i && i + 1 < |s| && IsUpper(s[i]) && IsNameTail(s[i + 1])
  }

  /** The end of the greedy `[a-z\-']+` run that starts at j. */
  function TailEnd(s: string, j: nat): (k: nat)
    requires j <= |s|
    ensures j <= k <= |s|
    ensures k == |s| || !IsNameTail(s[k])
    ensures forall m :: j <= m < k ==> IsNameTail(s[m])
    decreases |s| - j
  {
    if j < |s| && IsNameTail(s[j]) then TailEnd(s, j + 1) else j
  }

  /** The end of one repetition `[A-Z][a-z\-']+\s?` starting at i. */
  function WordEnd(s: string, i: nat): (e: nat)
    requires WordAt(s, i)
    ensures i + 2 <= e <= |s|
    ensures forall m :: i <= m < e ==> IsNameChar(s[m])
  {
    var k := TailEnd(s, i + 2);
    if k < |s| && IsSpace(s[k]) then k + 1 else k
  }

  /** The end of the greedy match starting at i: repetitions as long as another one can start. */
  function MatchEnd(s: string, i: nat): (e: nat)
    requires WordAt(s, i)
    ensures i + 2 <= e <= |s|
    ensures forall m :: i <= m < e ==> IsNameChar(s[m])
    decreases |s| - i
  {
    var w := WordEnd(s, i);
    if WordAt(s, w) then MatchEnd(s, w) else w
  }

  /** re.findall from index i: try a match at each position, resume after each match. */
  function FindNames(s: string, i: nat): seq<string>
    requires i <= |s|
    decreases |s| - i
  {
    if i == |s| then []
    else if WordAt(s, i) then [s[i..MatchEnd(s, i)]] + FindNames(s, MatchEnd(s, i))
    else FindNames(s, i + 1)
  }

  function FindNameRuns(s: string): seq<string> {
    FindNames(s, 0)
  }

  /** A run of capitalised words: a capital, a lower-case letter, and only name characters. */
  predicate IsNameRun(w: string) {
    |w| >= 2 && IsUpper(w[0]) && IsNameTail(w[1]) && forall k :: 0 <= k < |w| ==> IsNameChar(w[k])
  }

  /** Every string the author regex finds is a run of capitalised words. */
  lemma {:induction false} FindNamesAreNameRuns(s: string, i: nat)
    requires i <= |s|
    ensures forall k :: 0 <= k < |FindNames(s, i)| ==> IsNameRun(FindNames(s, i)[k])
    decreases |s| - i
  {
    if i < |s| {
      if WordAt(s, i) {
        var e := MatchEnd(s, i);
        FindNamesAreNameRuns(s, e);
        var w := s[i..e];
        assert forall m :: 0 <= m < |w| ==> w[m] == s[i + m];
        assert IsNameRun(w);
      } else {
        FindNamesAreNameRuns(s, i + 1);
      }
    }
  }

  /** A text with no capital letter yields no names. */
  lemma {:induction false} FindNamesNeedCapitals(s: string, i: nat)
    requires i <= |s|
    requires forall k :: i <= k < |s| ==> !IsUpper(s[k])
    ensures FindNames(s, i) == []
    decreases |s| - i
  {
    if i < |s| {
      FindNamesNeedCapitals(s, i + 1);
    }
  }

  /** A match ends where the regex can go no further: no repetition starts at its end, and
      unless it ended with the optional whitespace, the next character is neither a
      `[a-z\-']` letter nor whitespace. */
  lemma {:induction false} MatchEndIsMaximal(s: string, i: nat)
    requires WordAt(s, i)
    ensures var e := MatchEnd(s, i);
            && !WordAt(s, e)
            && (IsSpace(s[e - 1]) || e == |s| || (!IsNameTail(s[e]) && !IsSpace(s[e])))
    decreases |s| - i
  {
    var w := WordEnd(s, i);
    if WordAt(s, w) {
      MatchEndIsMaximal(s, w);
    } else {
      var k := TailEnd(s, i + 2);
      assert w == k || (w == k + 1 && IsSpace(s[k]));
    }
  }

  /** Without a repetition start from i on, re.findall finds nothing. */
  lemma {:induction false} FindNamesNone(s: string, i: nat)
    requires i <= |s|
    requires forall q :: i <= q < |s| ==> !WordAt(s, q)
    ensures FindNames(s, i) == []
    decreases |s| - i
  {
    if i < |s| {
      FindNamesNone(s, i + 1);
    }
  }

  /** re.findall skips no position where a match can start: the first match begins at the
      leftmost repetition start p, runs to its maximal end, and the search resumes there. */
  lemma {:induction false} FindNamesLeftmost(s: string, i: nat, p: nat)
    requires i <= p && WordAt(s, p)
    requires forall q :: i <= q < p ==> !WordAt(s, q)
    ensures FindNames(s, i) == [s[p..MatchEnd(s, p)]] + FindNames(s, MatchEnd(s, p))
    decreases p - i
  {
    if i < p {
      FindNamesLeftmost(s, i + 1, p);
    }
  }

  /** re.findall finds something iff a repetition can start somewhere from i on. */
  lemma {:induction false} FindNamesEmptyIff(s: string, i: nat)
    requires i <= |s|
    ensures FindNames(s, i) == [] <==> forall q :: i <= q < |s| ==> !WordAt(s, q)
    decreases |s| - i
  {
    if i < |s| && !WordAt(s, i) {
      FindNamesEmptyIff(s, i + 1);
    }
  }

  // ---- title and author with their fallbacks ----

  /** The "title" value: dc.title if present, otherwise the body-level h1 text. */
  function Title(doc: ParsedDocument): Option<string> {
    if GetMeta(doc, "dc.title").Some? then GetMeta(doc, "dc.title") else doc.bodyH1
  }

  /** The "author" value: dc.creator if present, otherwise the name runs of the body-level h2,
      otherwise None. */
  function AuthorOf(doc: ParsedDocument): Option<Author> {
    match GetMeta(doc, "dc.creator")
    case Some(name) => Some(Creator(name))
    case None =>
      match doc.bodyH2
      case Some(text) => Some(NameRuns(FindNameRuns(text)))
      case None => None
  }

  /** The title is dc.title when present and the h1 text otherwise, so it is missing only when
      both are; the fallback is consulted only when the metadata is missing. */
  lemma TitlePolicy(doc: ParsedDocument, other: ParsedDocument)
    ensures Title(doc).None? <==> GetMeta(doc, "dc.title").None? && doc.bodyH1.None?
    ensures GetMeta(doc, "dc.title").Some? ==> Title(doc) == GetMeta(doc, "dc.title")
    ensures GetMeta(doc, "dc.title").None? ==> Title(doc) == doc.bodyH1
    ensures doc.meta == other.meta && GetMeta(doc, "dc.title").Some? ==> Title(doc) == Title(other)
  {
  }

  /** The author is dc.creator when present, otherwise every match of the name regex in the h2
      text; a fallback author is always a list of capitalised name runs. */
  lemma AuthorPolicy(doc: ParsedDocument)
    ensures AuthorOf(doc).None? <==> GetMeta(doc, "dc.creator").None? && doc.bodyH2.None?
    ensures GetMeta(doc, "dc.creator").Some? ==> AuthorOf(doc) == Some(Creator(GetMeta(doc, "dc.creator").value))
    ensures GetMeta(doc, "dc.creator").None? && doc.bodyH2.Some? ==>
              AuthorOf(doc) == Some(NameRuns(FindNameRuns(doc.bodyH2.value)))
    ensures AuthorOf(doc).Some? && AuthorOf(doc).value.NameRuns? ==>
              forall k :: 0 <= k < |AuthorOf(doc).value.names| ==> IsNameRun(AuthorOf(doc).value.names[k])
  {
    if GetMeta(doc, "dc.creator").None? && doc.bodyH2.Some? {
      FindNamesAreNameRuns(doc.bodyH2.value, 0);
    }
  }

  // ---- citation ----

  /** How an f-string renders an optional string: None becomes the text "None". */
  function Render(o: Option<string>): string {
    match o
    case None => "None"
    case Some(s) => s
  }

  /** The citation f-string, applied to rendered values. */
  function CitationOf(rights: string, author: string, title: string, retrieved: string, source: string): string {
    rights + " " + author + ". " + title + ". Urbana, Illinois: Project Gutenberg. "
    + "Retrieved " + retrieved + " from " + source
  }

  /** The citation, over the metadata values only (never the h1/h2 fallbacks). */
  function Citation(doc: ParsedDocument): string {
    CitationOf(
      Render(GetMeta(doc, "dc.rights")), Render(GetMeta(doc, "dc.creator")),
      Render(GetMeta(doc, "dc.title")),
      Render(Dates.ConvertDate(GetMeta(doc, "dcterms.modified"))),
      Render(GetMeta(doc, "dcterms.source")))
  }

  /** The "meta" object of Book.get. */
  function MetaOf(doc: ParsedDocument): MetaOut {
    MetaOut(GetMeta(doc, "dc.language"), GetMeta(doc, "dc.subject"), Citation(doc))
  }

  /** The citation depends on the metadata alone: documents that differ only in their h1, h2 and
      chapters have the same citation, even when the title or author came from a fallback. */
  lemma CitationIgnoresFallbacks(a: ParsedDocument, b: ParsedDocument)
    requires a.meta == b.meta
    ensures Citation(a) == Citation(b)
    ensures MetaOf(a) == MetaOf(b)
  {
  }

  /** With no metadata at all every component is rendered as "None", whatever fallbacks exist. */
  lemma CitationWithoutMetadata(doc: ParsedDocument)
    requires doc.meta == map[]
    ensures Citation(doc) == CitationOf("None", "None", "None", "None", "None")
  {
  }

  /** The documented citation example: the modification date is converted and every other
      metadata value is used verbatim. */
  lemma CitationExample(doc: ParsedDocument)
    requires GetMeta(doc, "dc.rights") == Some("Public domain")
    requires GetMeta(doc, "dc.creator") == Some("Herman Melville")
    requires GetMeta(doc, "dc.title") == Some("Moby-Dick")
    requires GetMeta(doc, "dcterms.modified") == Some("2021-05-01")
    requires GetMeta(doc, "dcterms.source") == Some("http://example")
    ensures Citation(doc) ==
      CitationOf("Public domain", "Herman Melville", "Moby-Dick", "May 01, 2021", "http://example")
  {
    Dates.ConvertDateExample();
  }
}

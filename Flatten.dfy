/** Flattening a book (loaders/gutenberg.py): the book becomes a Book entry, a Meta entry, one
    Chapter entry per chapter and one Paragraph entry per paragraph, and every parent/child edge
    gets a pair of one-way references, one held by each end. */
module Flatten {
  import opened Wrappers
  import opened BookModel
  import opened Entries

  // ---- the `entry` projections ----

  /** A JSON value of the projected dicts. */
  datatype Value = Null | Text(text: string) | Number(number: int) | TextList(texts: seq<string>)

  function OptText(o: Option<string>): Value {
    match o
    case None => Null
    case Some(s) => Text(s)
  }

  /** The "author" value as read back from the JSON: a string, a list of strings, or null. */
  function AuthorValue(a: Option<Author>): Value {
    match a
    case None => Null
    case Some(Creator(name)) => Text(name)
    case Some(NameRuns(names)) => TextList(names)
  }

  /** The `entry` property of each subclass: the keys it reads from its data. None stands for the
      KeyError raised when the data lacks one of them. */
  function Projection(subclass: Subclass, data: EntryData): Option<map<string, Value>> {
    match (subclass, data)
    case (BookEntry, BookData(b)) =>
      Some(map["title" := OptText(b.title), "author" := AuthorValue(b.author)])
    case (MetaEntry, BookData(b)) =>
      Some(map["language" := OptText(b.meta.language), "subject" := OptText(b.meta.subject),
               "citation" := Text(b.meta.citation)])
    case (ChapterEntry, ChapterData(c)) =>
      Some(map["title" := OptText(c.title), "seq" := Number(c.seqNo), "text" := Text(c.text)])
    case (ParagraphEntry, ChapterData(c)) =>
      Some(map["seq" := Number(c.seqNo), "text" := Text(c.text)])
    case (ParagraphEntry, ParagraphData(p)) =>
      Some(map["seq" := Number(p.seqNo), "text" := Text(p.text)])
    case _ => None
  }

  /** The keys each projection exposes for the data the flattening gives it; the nested children
      ("chapters", "paragraphs", "meta") are never among them. */
  function ProjectedKeys(subclass: Subclass): set<string> {
    match subclass
    case BookEntry => {"title", "author"}
    case MetaEntry => {"language", "subject", "citation"}
    case ChapterEntry => {"title", "seq", "text"}
    case ParagraphEntry => {"seq", "text"}
  }

  /** The data kind each entry subclass is built from by the flattening. */
  predicate Fits(subclass: Subclass, data: EntryData) {
    match subclass
    case BookEntry => data.BookData?
    case MetaEntry => data.BookData?
    case ChapterEntry => data.ChapterData?
    case ParagraphEntry => data.ParagraphData?
  }

  /** The projections exclude nested children: on the data the flattening uses, each subclass
      projects exactly its own keys; the Meta entry takes its values from the book's "meta". */
  lemma ProjectionsExcludeChildren(subclass: Subclass, data: EntryData)
    requires Fits(subclass, data)
    ensures Projection(subclass, data).Some?
    ensures Projection(subclass, data).value.Keys == ProjectedKeys(subclass)
    ensures "chapters" !in ProjectedKeys(subclass) && "paragraphs" !in ProjectedKeys(subclass)
    ensures "meta" !in ProjectedKeys(subclass) && "containedIn" !in ProjectedKeys(subclass)
    ensures subclass == MetaEntry ==>
              Projection(subclass, data).value["citation"] == Text(data.book.meta.citation)
  {
  }

  // ---- references ----

  /** Reference(parent=child, child=container, on_parent_property="containedIn"). */
  function ContainedIn(child: Entry, container: Entry): Reference {
    Reference(child, container, "containedIn", None)
  }

  /** The references a parent gains for its children, one per child in order. */
  function ChildRefs(parent: Entry, children: seq<Entry>, property: string): (r: seq<Reference>)
    ensures |r| == |children|
    ensures forall k :: 0 <= k < |children| ==> r[k] == Reference(parent, children[k], property, None)
  {
    seq(|children|, k requires 0 <= k < |children| => Reference(parent, children[k], property, None))
  }

  /** Adding one new reference that names the entry appends it and returns normally. */
  lemma AddOne(self: Entry, held: seq<Reference>, ref: Reference)
    requires IsEndpoint(self, ref) && ref !in held
    ensures AddAll(self, held, [ref]) == (held + [ref], Pass)
  {
    assert [ref][1..] == [];
  }

  /** The step shared by get_chapters, get_meta and get_paragraphs: a fresh child entry over
      `data`, the parent's reference to it under `property`, then the child's "containedIn"
      reference back. */
  method AttachChild(parent: Entry, data: EntryData, subclass: Subclass, className: string, property: string)
    returns (child: Entry)
    requires parent.Valid() && className != []
    modifies parent
    ensures parent.Valid()
    ensures parent.references == old(parent.references) + [Reference(parent, child, property, None)]
    ensures fresh(child) && child.Valid()
    ensures child.data == data && child.subclass == subclass && child.className == className
    ensures child.references == [ContainedIn(child, parent)]
  {
    child := new Entry(data, subclass, Some(className));
    var contains := Reference(parent, child, property, None);
    var container := Reference(child, parent, "containedIn", None);
    AddOne(parent, parent.references, contains);
    var added := parent.AddReferences([contains]);
    AddOne(child, child.references, container);
    var attached := child.AddReferences([container]);
    assert added.Pass? && attached.Pass?;
  }

  /** A Paragraph entry as get_paragraphs builds it for paragraph `src` of `chap`. */
  ghost predicate IsParagraphEntry(p: Entry, src: ParagraphOut, chap: Entry)
    reads p
  {
    && p.data == ParagraphData(src) && p.subclass == ParagraphEntry && p.className == "Paragraph"
    && p.references == [ContainedIn(p, chap)]
  }

  /** Chapter.get_paragraphs, run to exhaustion: one fresh Paragraph entry per paragraph dict, in
      order; the chapter gains (chap, para, "paragraphs") and the paragraph (para, chap,
      "containedIn"), both one-way. */
  method GetParagraphs(chap: Entry) returns (paragraphs: seq<Entry>)
    requires chap.Valid() && chap.data.ChapterData?
    modifies chap
    ensures chap.Valid()
    ensures chap.references == old(chap.references) + ChildRefs(chap, paragraphs, "paragraphs")
    ensures |paragraphs| == |chap.data.chapter.paragraphs|
    ensures NoDuplicates(paragraphs)
    ensures forall j :: 0 <= j < |paragraphs| ==>
              && fresh(paragraphs[j])
              && paragraphs[j].Valid()
              && IsParagraphEntry(paragraphs[j], chap.data.chapter.paragraphs[j], chap)
  {
    var children := chap.data.chapter.paragraphs;
    paragraphs := [];
    var i := 0;
    while i < |children|
      invariant 0 <= i <= |children| && |paragraphs| == i
      invariant chap.Valid()
      invariant chap.references == old(chap.references) + ChildRefs(chap, paragraphs, "paragraphs")
      invariant NoDuplicates(paragraphs)
      invariant forall j :: 0 <= j < i ==>
                  && fresh(paragraphs[j])
                  && paragraphs[j].Valid()
                  && IsParagraphEntry(paragraphs[j], children[j], chap)
    {
      var para := AttachChild(chap, ParagraphData(children[i]), ParagraphEntry, "Paragraph", "paragraphs");
      assert ChildRefs(chap, paragraphs + [para], "paragraphs")
          == ChildRefs(chap, paragraphs, "paragraphs") + [Reference(chap, para, "paragraphs", None)];
      paragraphs := paragraphs + [para];
      i := i + 1;
    }
  }

  /** A Chapter entry as get_chapters builds it for chapter `src` of `book`, before its
      paragraphs are produced. */
  ghost predicate IsChapterEntry(c: Entry, src: ChapterOut, book: Entry)
    reads c
  {
    && c.data == ChapterData(src) && c.subclass == ChapterEntry && c.className == "Chapter"
    && c.references == [ContainedIn(c, book)]
  }

  /** Book.get_chapters, run to exhaustion: one fresh Chapter entry per chapter dict, in order;
      the book gains (book, chap, "chapters") and the chapter (chap, book, "containedIn"). */
  method GetChapters(book: Entry) returns (chapters: seq<Entry>)
    requires book.Valid() && book.data.BookData?
    modifies book
    ensures book.Valid()
    ensures book.references == old(book.references) + ChildRefs(book, chapters, "chapters")
    ensures |chapters| == |book.data.book.chapters|
    ensures NoDuplicates(chapters)
    ensures forall k :: 0 <= k < |chapters| ==>
              && fresh(chapters[k])
              && chapters[k].Valid()
              && IsChapterEntry(chapters[k], book.data.book.chapters[k], book)
  {
    var children := book.data.book.chapters;
    chapters := [];
    var i := 0;
    while i < |children|
      invariant 0 <= i <= |children| && |chapters| == i
      invariant book.Valid()
      invariant book.references == old(book.references) + ChildRefs(book, chapters, "chapters")
      invariant NoDuplicates(chapters)
      invariant forall k :: 0 <= k < i ==>
                  && fresh(chapters[k])
                  && chapters[k].Valid()
                  && IsChapterEntry(chapters[k], children[k], book)
    {
      var chap := AttachChild(book, ChapterData(children[i]), ChapterEntry, "Chapter", "chapters");
      assert ChildRefs(book, chapters + [chap], "chapters")
          == ChildRefs(book, chapters, "chapters") + [Reference(book, chap, "chapters", None)];
      chapters := chapters + [chap];
      i := i + 1;
    }
  }

  /** Book.get_meta: a fresh Meta entry whose data is the whole book dict; the book gains
      (book, meta, "meta") and the meta (meta, book, "containedIn"). */
  method GetMeta(book: Entry) returns (meta: Entry)
    requires book.Valid() && book.data.BookData?
    modifies book
    ensures book.Valid()
    ensures book.references == old(book.references) + [Reference(book, meta, "meta", None)]
    ensures fresh(meta) && meta.Valid()
    ensures meta.data == book.data && meta.subclass == MetaEntry && meta.className == "Meta"
    ensures meta.references == [ContainedIn(meta, book)]
  {
    meta := AttachChild(book, book.data, MetaEntry, "Meta", "meta");
  }

  // ---- get_entries ----

  /** The TypeError of `reduce` applied to an empty sequence without an initial value. */
  datatype TypeError = ReduceOfEmptySequence

  /** reduce(concat, groups) for a non-empty list of lists (and the empty list otherwise). */
  function Concat<T>(groups: seq<seq<T>>): seq<T> {
    if groups == [] then [] else Concat(groups[..|groups| - 1]) + groups[|groups| - 1]
  }

  lemma NoDuplicatesAppend<T>(a: seq<T>, b: seq<T>)
    requires NoDuplicates(a) && NoDuplicates(b)
    requires forall x :: x in a ==> x !in b
    ensures NoDuplicates(a + b)
  {
    forall i, j | 0 <= i < j < |a + b| ensures (a + b)[i] != (a + b)[j] {
      if i < |a| && j >= |a| {
        assert (a + b)[i] in a && (a + b)[j] == b[j - |a|];
      } else if i >= |a| {
        assert (a + b)[i] == b[i - |a|] && (a + b)[j] == b[j - |a|];
      }
    }
  }

  /** Chapter k of the flattening after its paragraphs were produced: the container reference
      first, then one reference per paragraph. */
  ghost predicate IsFilledChapter(c: Entry, src: ChapterOut, book: Entry, ps: seq<Entry>)
    reads c, ps
  {
    && c.data == ChapterData(src) && c.subclass == ChapterEntry && c.className == "Chapter"
    && c.Valid()
    && c.references == [ContainedIn(c, book)] + ChildRefs(c, ps, "paragraphs")
    && |ps| == |src.paragraphs|
    && forall j :: 0 <= j < |ps| ==> ps[j].Valid() && IsParagraphEntry(ps[j], src.paragraphs[j], c)
  }

  /** get_paragraphs on chapter k, the next chapter still holding only its container reference;
      the chapters before it, already filled, and the ones after it are left as they were. */
  method FillNext(book: Entry, src: seq<ChapterOut>, chs: seq<Entry>, ghost groups: seq<seq<Entry>>, k: nat)
    returns (ps: seq<Entry>)
    requires k < |chs| == |src| && |groups| == k && NoDuplicates(chs)
    requires forall i, j :: 0 <= i < k && 0 <= j < |groups[i]| ==> groups[i][j] != chs[k]
    requires forall i :: 0 <= i < k ==> IsFilledChapter(chs[i], src[i], book, groups[i])
    requires forall i :: k <= i < |chs| ==> chs[i].Valid() && IsChapterEntry(chs[i], src[i], book)
    modifies chs[k]
    ensures forall i :: 0 <= i < k + 1 ==> IsFilledChapter(chs[i], src[i], book, (groups + [ps])[i])
    ensures forall i :: k + 1 <= i < |chs| ==> chs[i].Valid() && IsChapterEntry(chs[i], src[i], book)
    ensures NoDuplicates(ps)
    ensures forall j :: 0 <= j < |ps| ==> fresh(ps[j])
  {
    assert forall i :: 0 <= i < |chs| && i != k ==> chs[i] != chs[k];
    ps := GetParagraphs(chs[k]);
    assert forall i :: 0 <= i < k ==> (groups + [ps])[i] == groups[i];
  }

  /** The `map(lambda chap: list(chap.get_paragraphs()), _chapters)` consumed by `reduce`:
      the paragraphs of each chapter in turn, concatenated. */
  method GetAllParagraphs(book: Entry, src: seq<ChapterOut>, chs: seq<Entry>)
    returns (all: seq<Entry>, ghost groups: seq<seq<Entry>>)
    requires |chs| == |src| && book !in chs && NoDuplicates(chs)
    requires forall i :: 0 <= i < |chs| ==> chs[i].Valid() && IsChapterEntry(chs[i], src[i], book)
    modifies chs
    ensures all == Concat(groups) && |groups| == |chs|
    ensures NoDuplicates(all)
    ensures forall x :: x in all ==> fresh(x) && x.Valid()
    ensures forall i :: 0 <= i < |chs| ==>
              && (forall j :: 0 <= j < |groups[i]| ==> fresh(groups[i][j]))
              && IsFilledChapter(chs[i], src[i], book, groups[i])
  {
    groups := [];
    all := [];
    var k := 0;
    while k < |chs|
      invariant 0 <= k <= |chs| && |groups| == k
      invariant all == Concat(groups)
      invariant NoDuplicates(all)
      invariant forall x :: x in all ==> fresh(x)
      invariant forall i, j :: 0 <= i < k && 0 <= j < |groups[i]| ==> fresh(groups[i][j])
      invariant forall i :: 0 <= i < k ==> IsFilledChapter(chs[i], src[i], book, groups[i])
      invariant forall i :: k <= i < |chs| ==> chs[i].Valid() && IsChapterEntry(chs[i], src[i], book)
    {
      var ps := FillNext(book, src, chs, groups, k);
      NoDuplicatesAppend(all, ps);
      assert Concat(groups + [ps]) == all + ps by {
        assert (groups + [ps])[..|groups|] == groups;
      }
      groups := groups + [ps];
      all := all + ps;
      k := k + 1;
    }
    ParagraphsValid(book, src, chs, groups);
  }

  /** Every paragraph entry of filled chapters keeps the Entry invariant. */
  lemma ParagraphsValid(book: Entry, src: seq<ChapterOut>, chs: seq<Entry>, groups: seq<seq<Entry>>)
    requires |groups| == |chs| == |src|
    requires forall i :: 0 <= i < |chs| ==> IsFilledChapter(chs[i], src[i], book, groups[i])
    ensures forall x :: x in Concat(groups) ==> x.Valid()
  {
    forall x | x in Concat(groups) ensures x.Valid() {
      ConcatMember(groups, x);
      var i, j :| 0 <= i < |groups| && 0 <= j < |groups[i]| && groups[i][j] == x;
      assert IsFilledChapter(chs[i], src[i], book, groups[i]);
    }
  }

  /** The graph get_entries leaves behind, over a book that held `held` before: the book's
      references are its chapter references in chapter order and then the meta reference; every
      other entry holds its container reference first. */
  ghost predicate Flattened(book: Entry, held: seq<Reference>, meta: Entry, chapters: seq<Entry>,
                            paragraphs: seq<seq<Entry>>)
    reads book, meta, chapters, set k, j | 0 <= k < |paragraphs| && 0 <= j < |paragraphs[k]| :: paragraphs[k][j]
  {
    && book.data.BookData?
    && book.Valid()
    && book.references == held + ChildRefs(book, chapters, "chapters") + [Reference(book, meta, "meta", None)]
    && meta.data == book.data && meta.subclass == MetaEntry && meta.className == "Meta"
    && meta.Valid() && meta.references == [ContainedIn(meta, book)]
    && |chapters| == |book.data.book.chapters| == |paragraphs|
    && forall k :: 0 <= k < |chapters| ==>
         IsFilledChapter(chapters[k], book.data.book.chapters[k], book, paragraphs[k])
  }

  /** BookCompilation.get_entries. All chapters are produced first, then the paragraphs of each
      chapter in turn, then the Meta entry; the entries are [book, meta, chapters...,
      paragraphs...], all distinct. With no chapters the `reduce` raises before get_meta is
      reached, and nothing has changed. */
  method GetEntries(book: Entry)
    returns (r: Result<seq<Entry>, TypeError>, ghost meta: Entry, ghost chapters: seq<Entry>,
             ghost paragraphs: seq<seq<Entry>>)
    requires book.Valid() && book.data.BookData?
    modifies book
    ensures r.Err? <==> book.data.book.chapters == []
    ensures r.Err? ==> r.error == ReduceOfEmptySequence && book.references == old(book.references)
    ensures r.Ok? ==>
              && r.value == [book, meta] + chapters + Concat(paragraphs)
              && NoDuplicates(r.value)
              && (forall e :: e in r.value ==> e.Valid())
              && fresh(meta)
              && (forall k :: 0 <= k < |chapters| ==> fresh(chapters[k]))
              && (forall k, j :: 0 <= k < |paragraphs| && 0 <= j < |paragraphs[k]| ==> fresh(paragraphs[k][j]))
              && Flattened(book, old(book.references), meta, chapters, paragraphs)
  {
    var chs := GetChapters(book);
    if |chs| == 0 {
      r, meta, chapters, paragraphs := Err(ReduceOfEmptySequence), book, chs, [];
      return;
    }
    var all; ghost var groups;
    all, groups := GetAllParagraphs(book, book.data.book.chapters, chs);
    assert forall k :: 0 <= k < |chs| ==> chs[k] != book;
    assert forall k, j :: 0 <= k < |groups| && 0 <= j < |groups[k]| ==> groups[k][j] != book;
    var m := GetMeta(book);
    NoDuplicatesAppend([book, m], chs);
    NoDuplicatesAppend([book, m] + chs, all);
    EntriesValid(book, m, chs, all);
    r, meta, chapters, paragraphs := Ok([book, m] + chs + all), m, chs, groups;
  }

  /** The Entry invariant, entry by entry, for the list get_entries returns. */
  lemma EntriesValid(book: Entry, meta: Entry, chapters: seq<Entry>, paragraphs: seq<Entry>)
    requires book.Valid() && meta.Valid()
    requires forall k :: 0 <= k < |chapters| ==> chapters[k].Valid()
    requires forall x :: x in paragraphs ==> x.Valid()
    ensures forall e :: e in [book, meta] + chapters + paragraphs ==> e.Valid()
  {
  }

  /** Every parent/child edge is a pair of one-way references: whatever a parent holds towards a
      child, the child holds the matching "containedIn" reference back, and no reference asks for
      a mirrored link. */
  lemma EdgesArePaired(book: Entry, meta: Entry, chapters: seq<Entry>, paragraphs: seq<seq<Entry>>)
    requires Flattened(book, [], meta, chapters, paragraphs)
    ensures |book.references| == |chapters| + 1
    ensures forall ref :: ref in book.references ==>
              ref.parent == book && ref.onChildProperty.None? && ContainedIn(ref.child, book) in ref.child.references
    ensures forall k, ref :: 0 <= k < |chapters| && ref in chapters[k].references ==>
              && ref.onChildProperty.None?
              && (ref.onParentProperty == "containedIn" <==> ref == ContainedIn(chapters[k], book))
              && (ref.onParentProperty != "containedIn" ==>
                    ref.parent == chapters[k] && ContainedIn(ref.child, chapters[k]) in ref.child.references)
  {
    var rs := ChildRefs(book, chapters, "chapters");
    forall ref | ref in book.references
      ensures ref.parent == book && ref.onChildProperty.None? && ContainedIn(ref.child, book) in ref.child.references
    {
      if ref in rs {
        var k :| 0 <= k < |rs| && rs[k] == ref;
        assert ref.child.references[0] == ContainedIn(chapters[k], book);
      } else {
        assert ref == Reference(book, meta, "meta", None);
      }
    }
    forall k, ref | 0 <= k < |chapters| && ref in chapters[k].references
      ensures && ref.onChildProperty.None?
              && (ref.onParentProperty == "containedIn" <==> ref == ContainedIn(chapters[k], book))
              && (ref.onParentProperty != "containedIn" ==>
                    ref.parent == chapters[k] && ContainedIn(ref.child, chapters[k]) in ref.child.references)
    {
      var c, ps := chapters[k], paragraphs[k];
      var cs := ChildRefs(c, ps, "paragraphs");
      assert c.references == [ContainedIn(c, book)] + cs;
      if ref != ContainedIn(c, book) {
        assert ref in cs;
        var j :| 0 <= j < |cs| && cs[j] == ref;
        assert ps[j].references[0] == ContainedIn(ps[j], c);
      }
    }
  }

  /** Every element of a concatenation comes from one of the groups. */
  lemma {:induction false} ConcatMember<T>(groups: seq<seq<T>>, x: T)
    requires x in Concat(groups)
    ensures exists k, j :: 0 <= k < |groups| && 0 <= j < |groups[k]| && groups[k][j] == x
  {
    var front, last := groups[..|groups| - 1], groups[|groups| - 1];
    if x in Concat(front) {
      ConcatMember(front, x);
      var k, j :| 0 <= k < |front| && 0 <= j < |front[k]| && front[k][j] == x;
      assert groups[k][j] == x;
    } else {
      var j :| 0 <= j < |last| && last[j] == x;
    }
  }

  /** Every entry of the flattening of a Book entry carries data of the shape its subclass
      projects, so none of the projections raises a KeyError. */
  lemma FlattenedEntriesFit(book: Entry, held: seq<Reference>, meta: Entry, chapters: seq<Entry>,
                            paragraphs: seq<seq<Entry>>)
    requires Flattened(book, held, meta, chapters, paragraphs)
    requires book.subclass == BookEntry
    ensures Fits(book.subclass, book.data) && Fits(meta.subclass, meta.data)
    ensures forall k :: 0 <= k < |chapters| ==> Fits(chapters[k].subclass, chapters[k].data)
    ensures forall k, j :: 0 <= k < |paragraphs| && 0 <= j < |paragraphs[k]| ==>
              Fits(paragraphs[k][j].subclass, paragraphs[k][j].data)
  {
    forall k | 0 <= k < |chapters| ensures Fits(chapters[k].subclass, chapters[k].data) {
      assert IsFilledChapter(chapters[k], book.data.book.chapters[k], book, paragraphs[k]);
    }
    forall k, j | 0 <= k < |paragraphs| && 0 <= j < |paragraphs[k]|
      ensures Fits(paragraphs[k][j].subclass, paragraphs[k][j].data)
    {
      assert IsFilledChapter(chapters[k], book.data.book.chapters[k], book, paragraphs[k]);
      assert IsParagraphEntry(paragraphs[k][j], book.data.book.chapters[k].paragraphs[j], chapters[k]);
    }
  }
}

/** The store schema for Gutenberg books: the property names and data types of the four classes,
    and how the loader's entries and references fit them. */
module Schema {
  import opened Wrappers
  import opened BookModel
  import opened Entries
  import opened Flatten

  /** Each class dict's "properties", as a map from property name to its single dataType (the
      order of the list carries no meaning). */
  const BookProperties: map<string, string> :=
    map["title" := "text", "author" := "text[]", "meta" := "Meta", "chapters" := "Chapter"]

  const MetaProperties: map<string, string> :=
    map["language" := "text", "subject" := "text", "citation" := "text", "containedIn" := "Book"]

  const ChapterProperties: map<string, string> :=
    map["title" := "text", "seq" := "int", "text" := "text", "paragraphs" := "Paragraph",
        "containedIn" := "Book"]

  const ParagraphProperties: map<string, string> :=
    map["seq" := "int", "text" := "text", "containedIn" := "Chapter"]

  /** The classes by their "class" name. */
  const Classes: map<string, map<string, string>> :=
    map["Book" := BookProperties, "Meta" := MetaProperties, "Chapter" := ChapterProperties,
        "Paragraph" := ParagraphProperties]

  /** The dataType of `property` on the class named `className`, if declared. */
  function DataType(className: string, property: string): Option<string> {
    if className in Classes && property in Classes[className] then Some(Classes[className][property])
    else None
  }

  /** A value the store accepts for a primitive dataType; null is accepted for any of them. */
  predicate Conforms(v: Value, dataType: string) {
    match v
    case Null => dataType in {"text", "text[]", "int"}
    case Text(_) => dataType == "text"
    case Number(_) => dataType == "int"
    case TextList(_) => dataType == "text[]"
  }

  /** The declared types, read off the four class dicts. */
  lemma BookTypes()
    ensures DataType("Book", "title") == Some("text") && DataType("Book", "author") == Some("text[]")
    ensures DataType("Book", "meta") == Some("Meta") && DataType("Book", "chapters") == Some("Chapter")
  {
  }

  lemma MetaTypes()
    ensures DataType("Meta", "language") == Some("text") && DataType("Meta", "subject") == Some("text")
    ensures DataType("Meta", "citation") == Some("text") && DataType("Meta", "containedIn") == Some("Book")
  {
  }

  lemma ChapterTypes()
    ensures DataType("Chapter", "title") == Some("text") && DataType("Chapter", "seq") == Some("int")
    ensures DataType("Chapter", "text") == Some("text")
    ensures DataType("Chapter", "paragraphs") == Some("Paragraph")
    ensures DataType("Chapter", "containedIn") == Some("Book")
  {
  }

  lemma ParagraphTypes()
    ensures DataType("Paragraph", "seq") == Some("int") && DataType("Paragraph", "text") == Some("text")
    ensures DataType("Paragraph", "containedIn") == Some("Chapter")
  {
  }

  /** Every key the loader projects is declared on the class of the same name as the entry's
      subclass, and its value conforms to the declared type, with one exception: an author taken
      from dc.creator is a single string, while the class declares "text[]". */
  lemma ProjectionsMatchSchema(subclass: Subclass, data: EntryData)
    requires Fits(subclass, data)
    ensures forall key :: key in ProjectedKeys(subclass) ==> DataType(SubclassName(subclass), key).Some?
    ensures (forall key :: key in ProjectedKeys(subclass) ==>
               Conforms(Projection(subclass, data).value[key], DataType(SubclassName(subclass), key).value))
            <==> !(subclass == BookEntry && data.book.author.Some? && data.book.author.value.Creator?)
  {
    ProjectionsExcludeChildren(subclass, data);
    match subclass
    case BookEntry => BookTypes();
    case MetaEntry => MetaTypes();
    case ChapterEntry => ChapterTypes();
    case ParagraphEntry => ParagraphTypes();
  }

  /** Every reference the flattening creates, on every entry, uses a property that the holder's
      class declares with the other end's class as its dataType. */
  lemma ReferencesMatchSchema(book: Entry, meta: Entry, chapters: seq<Entry>, paragraphs: seq<seq<Entry>>)
    requires Flattened(book, [], meta, chapters, paragraphs)
    requires book.className == "Book"
    ensures forall ref :: ref in book.references ==>
              ref.parent == book && DataType(book.className, ref.onParentProperty) == Some(ref.child.className)
    ensures forall ref :: ref in meta.references ==>
              ref.parent == meta && DataType(meta.className, ref.onParentProperty) == Some(ref.child.className)
    ensures forall k, ref :: 0 <= k < |chapters| && ref in chapters[k].references ==>
              ref.parent == chapters[k] && DataType(chapters[k].className, ref.onParentProperty) == Some(ref.child.className)
    ensures forall k, j, ref :: 0 <= k < |paragraphs| && 0 <= j < |paragraphs[k]| && ref in paragraphs[k][j].references ==>
              ref.parent == paragraphs[k][j]
              && DataType(paragraphs[k][j].className, ref.onParentProperty) == Some(ref.child.className)
  {
    BookTypes();
    MetaTypes();
    forall k | 0 <= k < |chapters| ensures chapters[k].className == "Chapter" {
      assert IsFilledChapter(chapters[k], book.data.book.chapters[k], book, paragraphs[k]);
    }
    ChildRefsMatch(book, chapters, "chapters", "Chapter");
    assert book.references == ChildRefs(book, chapters, "chapters") + [Reference(book, meta, "meta", None)];
    forall k | 0 <= k < |chapters|
      ensures forall ref :: ref in chapters[k].references ==>
                ref.parent == chapters[k] && DataType(chapters[k].className, ref.onParentProperty) == Some(ref.child.className)
    {
      ChapterRefsMatch(book, chapters[k], book.data.book.chapters[k], paragraphs[k]);
    }
    forall k, j | 0 <= k < |paragraphs| && 0 <= j < |paragraphs[k]|
      ensures forall ref :: ref in paragraphs[k][j].references ==>
                ref.parent == paragraphs[k][j]
                && DataType(paragraphs[k][j].className, ref.onParentProperty) == Some(ref.child.className)
    {
      ChapterRefsMatch(book, chapters[k], book.data.book.chapters[k], paragraphs[k]);
    }
  }

  /** The references a parent gains for its children fit the schema when the property is declared
      with the children's class. */
  lemma ChildRefsMatch(parent: Entry, children: seq<Entry>, property: string, childClass: string)
    requires DataType(parent.className, property) == Some(childClass)
    requires forall k :: 0 <= k < |children| ==> children[k].className == childClass
    ensures forall ref :: ref in ChildRefs(parent, children, property) ==>
              ref.parent == parent && DataType(parent.className, ref.onParentProperty) == Some(ref.child.className)
  {
    var rs := ChildRefs(parent, children, property);
    forall ref | ref in rs
      ensures ref.parent == parent && DataType(parent.className, ref.onParentProperty) == Some(ref.child.className)
    {
      var k :| 0 <= k < |rs| && rs[k] == ref;
    }
  }

  /** A filled chapter's references, and those of each of its paragraphs, fit the schema. */
  lemma ChapterRefsMatch(book: Entry, c: Entry, src: ChapterOut, ps: seq<Entry>)
    requires IsFilledChapter(c, src, book, ps)
    requires book.className == "Book"
    ensures forall ref :: ref in c.references ==>
              ref.parent == c && DataType(c.className, ref.onParentProperty) == Some(ref.child.className)
    ensures forall j, ref :: 0 <= j < |ps| && ref in ps[j].references ==>
              ref.parent == ps[j] && DataType(ps[j].className, ref.onParentProperty) == Some(ref.child.className)
  {
    ChapterTypes();
    ParagraphTypes();
    forall j | 0 <= j < |ps| ensures ps[j].className == "Paragraph" && ps[j].references == [ContainedIn(ps[j], c)] {
      assert IsParagraphEntry(ps[j], src.paragraphs[j], c);
    }
    ChildRefsMatch(c, ps, "paragraphs", "Paragraph");
  }
}

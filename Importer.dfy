/** The importer (loaders/common/util.py): entries and their references become a log of calls on
    the store client's batch: one data object per entry, one link per reference (two for a
    two-way reference), and one flush per entry whatever happens. */
module Importer {
  import opened Wrappers
  import opened BookModel
  import opened Entries
  import opened Flatten

  /** One call on the client's batch. */
  datatype Op =
    | AddDataObject(className: string, dataObject: map<string, Value>, uuid: UuidName)
    | AddReference(fromClass: string, toClass: string, fromUuid: UuidName, toUuid: UuidName, property: string)
    | Flush
    | LogNotAnEntry

  /** What the importer raises: the AssertionError of load_batch on a non-Batch, the TypeError
      of the empty `reduce`, and the KeyError of a projection that lacks a key. */
  datatype ImportError = NotACollection | ReduceOfEmpty | KeyError

  /** Something handed to load_entry: an Entry, or any other object. */
  datatype Item = IsEntry(entry: Entry) | NotAnEntry

  /** The importer's data_object: one Entry, a BookCompilation over a Book entry, or anything else. */
  datatype DataObject = EntryObject(entry: Entry) | Compilation(book: Entry) | Other

  /** The client's batch, reduced to the calls made on it. */
  class Batch {
    var log: seq<Op>

    constructor()
      ensures log == []
    {
      log := [];
    }

    method AddDataObject(className: string, dataObject: map<string, Value>, uuid: UuidName)
      modifies this
      ensures log == old(log) + [Op.AddDataObject(className, dataObject, uuid)]
    {
      log := log + [Op.AddDataObject(className, dataObject, uuid)];
    }

    method AddReference(fromClass: string, toClass: string, fromUuid: UuidName, toUuid: UuidName, property: string)
      modifies this
      ensures log == old(log) + [Op.AddReference(fromClass, toClass, fromUuid, toUuid, property)]
    {
      log := log + [Op.AddReference(fromClass, toClass, fromUuid, toUuid, property)];
    }

    method Flush()
      modifies this
      ensures log == old(log) + [Op.Flush]
    {
      log := log + [Op.Flush];
    }

    /** logging.error of the failed Entry assertion. */
    method LogNotAnEntry()
      modifies this
      ensures log == old(log) + [Op.LogNotAnEntry]
    {
      log := log + [Op.LogNotAnEntry];
    }
  }

  // ---- the specification of the log ----

  /** A reference asks for the mirrored link when its on_child_property is truthy. */
  predicate IsTwoWay(ref: Reference) {
    ref.onChildProperty.Some? && ref.onChildProperty.value != []
  }

  /** The parent-to-child link of a reference, on on_parent_property. */
  function ParentLink(ref: Reference): Op {
    AddReference(ref.parent.className, ref.child.className, ref.parent.Uuid(), ref.child.Uuid(), ref.onParentProperty)
  }

  /** The child-to-parent link of a two-way reference, on on_child_property. */
  function ChildLink(ref: Reference): Op
    requires IsTwoWay(ref)
  {
    AddReference(ref.child.className, ref.parent.className, ref.child.Uuid(), ref.parent.Uuid(), ref.onChildProperty.value)
  }

  /** The links for one reference. */
  function RefOps(ref: Reference): seq<Op> {
    [ParentLink(ref)] + (if IsTwoWay(ref) then [ChildLink(ref)] else [])
  }

  /** The links resolve_references emits for a list of references. */
  function LinkOps(refs: seq<Reference>): seq<Op> {
    if refs == [] then [] else LinkOps(refs[..|refs| - 1]) + RefOps(refs[|refs| - 1])
  }

  /** How many of the references are two-way. */
  function TwoWayCount(refs: seq<Reference>): nat {
    if refs == [] then 0 else TwoWayCount(refs[..|refs| - 1]) + (if IsTwoWay(refs[|refs| - 1]) then 1 else 0)
  }

  /** load_entry on an Entry: the data object (if its projection has every key), its links, and
      the flush of the `finally`. */
  function EntryOps(e: Entry): (seq<Op>, Outcome<ImportError>)
    reads e
  {
    match Projection(e.subclass, e.data)
    case None => ([Flush], Fail(KeyError))
    case Some(obj) => ([AddDataObject(e.className, obj, e.Uuid())] + LinkOps(e.references) + [Flush], Pass)
  }

  /** load_entry on anything: a non-Entry is logged and flushed, and the call returns. */
  function ItemOps(item: Item): (seq<Op>, Outcome<ImportError>)
    reads if item.IsEntry? then {item.entry} else {}
  {
    match item
    case IsEntry(e) => EntryOps(e)
    case NotAnEntry => ([LogNotAnEntry, Flush], Pass)
  }

  /** The loop of load_batch over a list of entries: each is loaded in turn, and a KeyError
      ends the loop (and the call) at the entry that raised it. */
  function BatchOps(es: seq<Entry>): (seq<Op>, Outcome<ImportError>)
    reads set e | e in es
  {
    if es == [] then ([], Pass)
    else
      var front := BatchOps(es[..|es| - 1]);
      if front.1.Fail? then front
      else
        var last := EntryOps(es[|es| - 1]);
        (front.0 + last.0, last.1)
  }

  /** Every entry's calls, one entry after another, with no stop. */
  function AllOps(es: seq<Entry>): seq<Op>
    reads set e | e in es
  {
    if es == [] then [] else AllOps(es[..|es| - 1]) + EntryOps(es[|es| - 1]).0
  }

  predicate HasProjection(e: Entry) {
    Projection(e.subclass, e.data).Some?
  }

  /** main's count of flattened entries for a book: the book, its meta, and its chapters and
      paragraphs. */
  function ParagraphCount(chapters: seq<ChapterOut>): nat {
    if chapters == [] then 0 else ParagraphCount(chapters[..|chapters| - 1]) + |chapters[|chapters| - 1].paragraphs|
  }

  /** The store's objects for the importer's data_object. */
  function Touched(d: DataObject): set<object> {
    if d.Compilation? then {d.book} else {}
  }

  /** A Book entry as main builds it: book data, the Book subclass, its own references valid. */
  predicate IsBook(book: Entry)
    reads book
  {
    book.Valid() && book.data.BookData? && book.subclass == BookEntry
  }

  // ---- the importer ----

  /** WeaviateImporter: the batch of the client it was given, and its data object. */
  class WeaviateImporter {
    const batch: Batch
    const dataObject: DataObject

    constructor(batch: Batch, dataObject: DataObject)
      ensures this.batch == batch && this.dataObject == dataObject
    {
      this.batch := batch;
      this.dataObject := dataObject;
    }

    /** resolve_references: the links of each reference, in order. */
    method ResolveReferences(refs: seq<Reference>)
      modifies batch
      ensures batch.log == old(batch.log) + LinkOps(refs)
    {
      var i := 0;
      while i < |refs|
        invariant 0 <= i <= |refs|
        invariant batch.log == old(batch.log) + LinkOps(refs[..i])
      {
        var ref := refs[i];
        assert refs[..i + 1][..i] == refs[..i];
        batch.AddReference(ref.parent.className, ref.child.className, ref.parent.Uuid(), ref.child.Uuid(),
          ref.onParentProperty);
        if ref.onChildProperty.Some? && ref.onChildProperty.value != [] {
          batch.AddReference(ref.child.className, ref.parent.className, ref.child.Uuid(), ref.parent.Uuid(),
            ref.onChildProperty.value);
        }
        i := i + 1;
      }
      assert refs[..|refs|] == refs;
    }

    /** load_entry. A KeyError from the projection escapes after the flush; the failed Entry
        assertion is caught and logged. */
    method LoadEntry(item: Item) returns (outcome: Outcome<ImportError>)
      modifies batch
      ensures (batch.log, outcome) == (old(batch.log) + ItemOps(item).0, ItemOps(item).1)
    {
      match item
      case NotAnEntry =>
        batch.LogNotAnEntry();
        batch.Flush();
        assert batch.log == old(batch.log) + [LogNotAnEntry, Flush];
        return Pass;
      case IsEntry(e) =>
        var obj := Projection(e.subclass, e.data);
        if obj.None? {
          batch.Flush();
          return Fail(KeyError);
        }
        batch.AddDataObject(e.className, obj.value, e.Uuid());
        ResolveReferences(e.GetReferences());
        batch.Flush();
        assert batch.log == old(batch.log) + ([Op.AddDataObject(e.className, obj.value, e.Uuid())]
                                              + LinkOps(e.references) + [Flush]);
        return Pass;
    }

    /** The `for` loop of load_batch over the entries get_entries yields. */
    method LoadEach(es: seq<Entry>) returns (outcome: Outcome<ImportError>)
      modifies batch
      ensures (batch.log, outcome) == (old(batch.log) + BatchOps(es).0, BatchOps(es).1)
    {
      var i := 0;
      while i < |es|
        invariant 0 <= i <= |es|
        invariant old(BatchOps(es[..i])).1 == Pass
        invariant batch.log == old(batch.log) + old(BatchOps(es[..i])).0
      {
        assert es[..i + 1][..i] == es[..i];
        ghost var entry := EntryOps(es[i]);
        assert old(BatchOps(es[..i + 1])) == (old(BatchOps(es[..i])).0 + entry.0, entry.1);
        ghost var before := batch.log;
        outcome := LoadEntry(IsEntry(es[i]));
        assert EntryOps(es[i]) == entry;
        assert batch.log == old(batch.log) + old(BatchOps(es[..i + 1])).0 by {
          assert batch.log == before + entry.0;
          assert before == old(batch.log) + old(BatchOps(es[..i])).0;
        }
        if outcome.Fail? {
          assert BatchOps(es[..i + 1]) == old(BatchOps(es[..i + 1]));
          BatchOpsStop(es, i + 1);
          return;
        }
        i := i + 1;
      }
      assert es[..|es|] == es;
      assert BatchOps(es) == old(BatchOps(es));
      return Pass;
    }

    /** load_batch on a BookCompilation: its entries are produced, which attaches the
        references to them, and loaded in order. */
    method LoadCompilation(book: Entry)
      returns (outcome: Outcome<ImportError>, ghost entries: seq<Entry>, ghost meta: Entry,
               ghost chapters: seq<Entry>, ghost paragraphs: seq<seq<Entry>>)
      requires IsBook(book)
      modifies batch, book
      ensures outcome == Fail(ReduceOfEmpty) <==> book.data.book.chapters == []
      ensures outcome == Fail(ReduceOfEmpty) ==>
                batch.log == old(batch.log) && book.references == old(book.references)
      ensures outcome != Fail(ReduceOfEmpty) ==>
                && entries == [book, meta] + chapters + Concat(paragraphs)
                && Flattened(book, old(book.references), meta, chapters, paragraphs)
                && batch.log == old(batch.log) + BatchOps(entries).0
                && outcome == BatchOps(entries).1
    {
      var r;
      r, meta, chapters, paragraphs := GetEntries(book);
      if r.Err? {
        return Fail(ReduceOfEmpty), [], meta, chapters, paragraphs;
      }
      entries := r.value;
      outcome := LoadEach(r.value);
      assert outcome != Fail(ReduceOfEmpty) by {
        BatchOpsErrors(entries);
      }
    }

    /** load_batch: the assertion admits only a Batch, and the only Batch is a BookCompilation. */
    method LoadBatch() returns (outcome: Outcome<ImportError>, ghost entries: seq<Entry>,
                                ghost paragraphs: seq<seq<Entry>>)
      requires dataObject.Compilation? ==> IsBook(dataObject.book)
      modifies batch, Touched(dataObject)
      ensures !dataObject.Compilation? ==> outcome == Fail(NotACollection) && batch.log == old(batch.log)
      ensures dataObject.Compilation? ==>
                LoadedCompilation(dataObject.book, old(dataObject.book.references), old(batch.log), batch.log,
                                  outcome, entries, paragraphs)
    {
      if !dataObject.Compilation? {
        return Fail(NotACollection), [], [];
      }
      ghost var m, cs;
      outcome, entries, m, cs, paragraphs := LoadCompilation(dataObject.book);
      if outcome != Fail(ReduceOfEmpty) {
        assert entries[2..2 + |cs|] == cs;
      }
    }

    /** run: a Batch goes to load_batch, an Entry to load_entry, anything else is ignored. */
    method Run() returns (outcome: Outcome<ImportError>, ghost entries: seq<Entry>, ghost paragraphs: seq<seq<Entry>>)
      requires dataObject.Compilation? ==> IsBook(dataObject.book)
      modifies batch, Touched(dataObject)
      ensures dataObject.Other? ==> outcome == Pass && batch.log == old(batch.log)
      ensures dataObject.EntryObject? ==>
                (batch.log, outcome) == (old(batch.log) + EntryOps(dataObject.entry).0, EntryOps(dataObject.entry).1)
      ensures dataObject.Compilation? ==>
                LoadedCompilation(dataObject.book, old(dataObject.book.references), old(batch.log), batch.log,
                                  outcome, entries, paragraphs)
    {
      entries, paragraphs := [], [];
      match dataObject
      case Compilation(_) =>
        outcome, entries, paragraphs := LoadBatch();
      case EntryObject(e) =>
        outcome := LoadEntry(IsEntry(e));
      case Other =>
        outcome := Pass;
    }
  }

  /** main: a Book entry over the JSON dict, wrapped in a BookCompilation and run. With no
      chapters the TypeError escapes and nothing reaches the store; otherwise every flattened
      entry is loaded, once and in order, one flush each. */
  method ImportBook(json: BookOut, batch: Batch, className: Option<string>)
    returns (outcome: Outcome<ImportError>, ghost entries: seq<Entry>)
    modifies batch
    ensures outcome == Fail(ReduceOfEmpty) <==> json.chapters == []
    ensures outcome == Fail(ReduceOfEmpty) ==> batch.log == old(batch.log)
    ensures outcome != Fail(ReduceOfEmpty) ==>
              && outcome == Pass
              && batch.log == old(batch.log) + AllOps(entries)
              && |entries| == 2 + |json.chapters| + ParagraphCount(json.chapters)
              && multiset(AllOps(entries))[Flush] == |entries|
              && entries[0].data == BookData(json) && entries[0].className == ClassNameFor(className, BookEntry)
  {
    var book := new Entry(BookData(json), BookEntry, className);
    var importer := new WeaviateImporter(batch, Compilation(book));
    ghost var paragraphs;
    outcome, entries, paragraphs := importer.Run();
    if outcome != Fail(ReduceOfEmpty) {
      var n := |json.chapters|;
      FlattenedImportPasses(book, [], entries[1], entries[2..2 + n], paragraphs);
    }
  }

  /** What load_batch leaves behind for a BookCompilation over `book`, which held `held`
      before: either the TypeError with nothing logged and nothing attached, or the
      flattening's entries [book, meta, chapters..., paragraphs...] loaded in order. */
  ghost predicate LoadedCompilation(book: Entry, held: seq<Reference>, before: seq<Op>, after: seq<Op>,
                                    outcome: Outcome<ImportError>, entries: seq<Entry>, paragraphs: seq<seq<Entry>>)
    reads *
  {
    && book.data.BookData?
    && var n := |book.data.book.chapters|;
    && (outcome == Fail(ReduceOfEmpty) <==> n == 0)
    && (outcome == Fail(ReduceOfEmpty) ==> after == before && book.references == held)
    && (outcome != Fail(ReduceOfEmpty) ==>
          && 2 + n <= |entries|
          && entries == [book, entries[1]] + entries[2..2 + n] + Concat(paragraphs)
          && Flattened(book, held, entries[1], entries[2..2 + n], paragraphs)
          && after == before + BatchOps(entries).0
          && outcome == BatchOps(entries).1)
  }

  // ---- lemmas ----

  /** A batch never raises the TypeError itself: only a KeyError stops it. */
  lemma {:induction false} BatchOpsErrors(es: seq<Entry>)
    ensures BatchOps(es).1 == Pass || BatchOps(es).1 == Fail(KeyError)
  {
    if es != [] {
      BatchOpsErrors(es[..|es| - 1]);
    }
  }

  /** Once a prefix of the entries has raised, the entries after it change nothing. */
  lemma {:induction false} BatchOpsStop(es: seq<Entry>, n: nat)
    requires n <= |es| && BatchOps(es[..n]).1.Fail?
    ensures BatchOps(es) == BatchOps(es[..n])
    decreases |es|
  {
    if n < |es| {
      var front := es[..|es| - 1];
      assert front[..n] == es[..n];
      BatchOpsStop(front, n);
    } else {
      assert es[..n] == es;
    }
  }

  /** One link per reference, and one more for each two-way reference. */
  lemma {:induction false} LinkCount(refs: seq<Reference>)
    ensures |LinkOps(refs)| == |refs| + TwoWayCount(refs)
  {
    if refs != [] {
      LinkCount(refs[..|refs| - 1]);
    }
  }

  /** The links follow the references in order: reference k's parent-to-child link sits after
      the links of the references before it, and a two-way reference's mirrored link follows it
      at once. */
  lemma {:induction false} LinkOpsAt(refs: seq<Reference>, k: nat)
    requires k < |refs|
    ensures var p := k + TwoWayCount(refs[..k]);
            && p < |LinkOps(refs)| && LinkOps(refs)[p] == ParentLink(refs[k])
            && (IsTwoWay(refs[k]) ==> p + 1 < |LinkOps(refs)| && LinkOps(refs)[p + 1] == ChildLink(refs[k]))
  {
    var front := refs[..|refs| - 1];
    if k < |front| {
      assert front[..k] == refs[..k];
      LinkOpsAt(front, k);
    } else {
      assert refs[..k] == front;
      LinkCount(front);
    }
  }

  /** resolve_references makes only links. */
  lemma {:induction false} LinksAreReferences(refs: seq<Reference>)
    ensures forall k :: 0 <= k < |LinkOps(refs)| ==> LinkOps(refs)[k].AddReference?
  {
    if refs != [] {
      LinksAreReferences(refs[..|refs| - 1]);
    }
  }

  /** The fewest calls a flush-free log can hold: none of them is a flush. */
  lemma NoFlushIn(ops: seq<Op>)
    requires forall k :: 0 <= k < |ops| ==> ops[k].AddReference?
    ensures multiset(ops)[Flush] == 0
  {
    assert Flush !in ops;
  }

  /** load_entry on an Entry with every key: the data object first, then only links, then a
      single flush, and the call returns. Without a key only the flush happens, then the
      KeyError. */
  lemma EntryOpsShape(e: Entry)
    ensures var (ops, outcome) := EntryOps(e);
            && 1 <= |ops| && ops[|ops| - 1] == Flush && multiset(ops)[Flush] == 1
            && (outcome.Pass? <==> HasProjection(e))
            && (HasProjection(e) ==>
                  && |ops| == |e.references| + TwoWayCount(e.references) + 2
                  && ops[0] == AddDataObject(e.className, Projection(e.subclass, e.data).value, e.Uuid())
                  && forall k :: 0 < k < |ops| - 1 ==> ops[k].AddReference?)
            && (!HasProjection(e) ==> ops == [Flush] && outcome == Fail(KeyError))
  {
    if HasProjection(e) {
      var links := LinkOps(e.references);
      LinkCount(e.references);
      LinksAreReferences(e.references);
      LinksBetween(AddDataObject(e.className, Projection(e.subclass, e.data).value, e.Uuid()), links);
    }
  }

  /** A call, then only links, then a flush: one flush, at the end, and links in between. */
  lemma LinksBetween(head: Op, links: seq<Op>)
    requires head.AddDataObject?
    requires forall k :: 0 <= k < |links| ==> links[k].AddReference?
    ensures var ops := [head] + links + [Flush];
            && ops[0] == head && ops[|ops| - 1] == Flush && multiset(ops)[Flush] == 1
            && forall k :: 0 < k < |ops| - 1 ==> ops[k].AddReference?
  {
    NoFlushIn(links);
    var ops := [head] + links + [Flush];
    assert multiset(ops) == multiset([head]) + multiset(links) + multiset([Flush]);
    forall k | 0 < k < |ops| - 1 ensures ops[k].AddReference? {
      assert ops[k] == links[k - 1];
    }
  }

  /** load_entry flushes exactly once, whatever it is given, and a non-Entry adds no data object. */
  lemma FlushOncePerItem(item: Item)
    ensures multiset(ItemOps(item).0)[Flush] == 1
    ensures item.NotAnEntry? ==> ItemOps(item).1 == Pass && forall op :: op in ItemOps(item).0 ==> !op.AddDataObject?
  {
    if item.IsEntry? {
      EntryOpsShape(item.entry);
    }
  }

  /** The batch raises iff one of its entries lacks a key of its projection. */
  lemma {:induction false} BatchFailsIff(es: seq<Entry>)
    ensures BatchOps(es).1.Fail? <==> exists k :: 0 <= k < |es| && !HasProjection(es[k])
  {
    if es != [] {
      var front := es[..|es| - 1];
      BatchFailsIff(front);
      assert EntryOps(es[|es| - 1]).1.Pass? <==> HasProjection(es[|es| - 1]);
      assert forall k :: 0 <= k < |front| ==> front[k] == es[k];
    }
  }

  /** When every entry has its keys, the batch loads each entry once, in order, and flushes once
      per entry. */
  lemma {:induction false} BatchLoadsEach(es: seq<Entry>)
    requires forall k :: 0 <= k < |es| ==> HasProjection(es[k])
    ensures BatchOps(es) == (AllOps(es), Pass)
    ensures multiset(AllOps(es))[Flush] == |es|
  {
    if es != [] {
      var front := es[..|es| - 1];
      assert forall k :: 0 <= k < |front| ==> front[k] == es[k];
      BatchLoadsEach(front);
      EntryOpsShape(es[|es| - 1]);
    }
  }

  /** Loading one list of entries after another is loading their concatenation. */
  lemma {:induction false} AllOpsAppend(a: seq<Entry>, b: seq<Entry>)
    ensures AllOps(a + b) == AllOps(a) + AllOps(b)
    decreases |b|
  {
    if b == [] {
      assert a + b == a;
    } else {
      var front := b[..|b| - 1];
      assert (a + b)[..|a + b| - 1] == a + front;
      AllOpsAppend(a, front);
    }
  }

  lemma AllOpsSingle(e: Entry)
    ensures AllOps([e]) == EntryOps(e).0
  {
    assert [e][..0] == [];
  }

  /** The paragraph entries of the flattening, one per paragraph of the book. */
  lemma {:induction false} ConcatCount(paragraphs: seq<seq<Entry>>, src: seq<ChapterOut>)
    requires |paragraphs| == |src|
    requires forall k :: 0 <= k < |src| ==> |paragraphs[k]| == |src[k].paragraphs|
    ensures |Concat(paragraphs)| == ParagraphCount(src)
  {
    if src != [] {
      ConcatCount(paragraphs[..|paragraphs| - 1], src[..|src| - 1]);
    }
  }

  /** Every entry of a flattening has its keys, so loading it never raises: each entry is loaded
      once, in order, with one flush each — one per book, meta, chapter and paragraph. */
  lemma FlattenedImportPasses(book: Entry, held: seq<Reference>, meta: Entry, chapters: seq<Entry>,
                              paragraphs: seq<seq<Entry>>)
    requires Flattened(book, held, meta, chapters, paragraphs)
    requires book.subclass == BookEntry
    ensures var es := [book, meta] + chapters + Concat(paragraphs);
            && BatchOps(es) == (AllOps(es), Pass)
            && multiset(AllOps(es))[Flush] == |es|
            && |es| == 2 + |book.data.book.chapters| + ParagraphCount(book.data.book.chapters)
  {
    var es := [book, meta] + chapters + Concat(paragraphs);
    FlattenedAllFit(book, held, meta, chapters, paragraphs);
    forall k | 0 <= k < |es| ensures HasProjection(es[k]) {
      ProjectionsExcludeChildren(es[k].subclass, es[k].data);
    }
    BatchLoadsEach(es);
    FlattenedParagraphCount(book, held, meta, chapters, paragraphs);
  }

  lemma FlattenedAllFit(book: Entry, held: seq<Reference>, meta: Entry, chapters: seq<Entry>,
                        paragraphs: seq<seq<Entry>>)
    requires Flattened(book, held, meta, chapters, paragraphs)
    requires book.subclass == BookEntry
    ensures forall e :: e in [book, meta] + chapters + Concat(paragraphs) ==> Fits(e.subclass, e.data)
  {
    FlattenedEntriesFit(book, held, meta, chapters, paragraphs);
    forall e | e in Concat(paragraphs) ensures Fits(e.subclass, e.data) {
      ConcatMember<Entry>(paragraphs, e);
    }
  }

  lemma FlattenedParagraphCount(book: Entry, held: seq<Reference>, meta: Entry, chapters: seq<Entry>,
                                paragraphs: seq<seq<Entry>>)
    requires Flattened(book, held, meta, chapters, paragraphs)
    ensures |Concat(paragraphs)| == ParagraphCount(book.data.book.chapters)
  {
    var src := book.data.book.chapters;
    forall k | 0 <= k < |src| ensures |paragraphs[k]| == |src[k].paragraphs| {
      assert IsFilledChapter(chapters[k], src[k], book, paragraphs[k]);
    }
    ConcatCount(paragraphs, src);
  }

  /** The book's calls: its data object, then its first chapter's link first among its links. */
  lemma BookOpsStart(book: Entry, meta: Entry, chapters: seq<Entry>)
    requires book.subclass == BookEntry && book.data.BookData? && chapters != []
    requires book.references == ChildRefs(book, chapters, "chapters") + [Reference(book, meta, "meta", None)]
    ensures |EntryOps(book).0| == |chapters| + 3
    ensures EntryOps(book).0[1] == AddReference(book.className, chapters[0].className, book.Uuid(), chapters[0].Uuid(), "chapters")
  {
    var refs := book.references;
    LinkCount(refs);
    assert refs[0] == Reference(book, chapters[0], "chapters", None);
    assert refs[..0] == [];
    LinkOpsAt(refs, 0);
    assert TwoWayCount(refs) == 0 by {
      assert forall k :: 0 <= k < |refs| ==> !IsTwoWay(refs[k]);
      NoTwoWay(refs);
    }
  }

  lemma {:induction false} NoTwoWay(refs: seq<Reference>)
    requires forall k :: 0 <= k < |refs| ==> !IsTwoWay(refs[k])
    ensures TwoWayCount(refs) == 0
  {
    if refs != [] {
      var front := refs[..|refs| - 1];
      assert forall k :: 0 <= k < |front| ==> front[k] == refs[k];
      NoTwoWay(front);
    }
  }

  /** The meta's calls: its data object, its link to the book, and a flush. */
  lemma MetaOpsLength(meta: Entry, book: Entry)
    requires meta.subclass == MetaEntry && meta.data.BookData?
    requires meta.references == [ContainedIn(meta, book)]
    ensures |EntryOps(meta).0| == 3
  {
    LinkCount(meta.references);
    assert meta.references[..0] == [];
  }

  /** The calls for a list of entries start with those of its first three. */
  lemma AllOpsOfFirstThree(a: Entry, b: Entry, c: Entry, rest: seq<Entry>)
    ensures AllOps([a, b, c] + rest) == EntryOps(a).0 + EntryOps(b).0 + EntryOps(c).0 + AllOps(rest)
  {
    assert [a, b, c] + rest == [a] + [b] + [c] + rest;
    AllOpsAppend([a] + [b] + [c], rest);
    AllOpsAppend([a] + [b], [c]);
    AllOpsAppend([a], [b]);
    AllOpsSingle(a);
    AllOpsSingle(b);
    AllOpsSingle(c);
  }

  /** The book's link to its first chapter is emitted while the book is loaded, before the
      chapter's own data object is added: the book's calls come first (its data object, one link
      per chapter, the meta link, a flush), then the meta's three. */
  lemma LinkBeforeUpsert(book: Entry, meta: Entry, chapters: seq<Entry>, paragraphs: seq<seq<Entry>>)
    requires Flattened(book, [], meta, chapters, paragraphs)
    requires book.subclass == BookEntry && chapters != []
    ensures var ops := AllOps([book, meta] + chapters + Concat(paragraphs));
            && |chapters| + 6 < |ops|
            && ops[1] == AddReference(book.className, "Chapter", book.Uuid(), chapters[0].Uuid(), "chapters")
            && ops[|chapters| + 6] == AddDataObject("Chapter", Projection(ChapterEntry, chapters[0].data).value,
                                                    chapters[0].Uuid())
  {
    var c := chapters[0];
    assert IsFilledChapter(c, book.data.book.chapters[0], book, paragraphs[0]);
    var rest := chapters[1..] + Concat(paragraphs);
    assert [book, meta] + chapters + Concat(paragraphs) == [book, meta, c] + rest;
    FirstChapterAfterBookAndMeta(book, meta, chapters, rest);
  }

  /** The same, over the three entries' own facts. */
  lemma FirstChapterAfterBookAndMeta(book: Entry, meta: Entry, chapters: seq<Entry>, rest: seq<Entry>)
    requires book.subclass == BookEntry && book.data.BookData? && chapters != []
    requires book.references == ChildRefs(book, chapters, "chapters") + [Reference(book, meta, "meta", None)]
    requires meta.subclass == MetaEntry && meta.data.BookData? && meta.references == [ContainedIn(meta, book)]
    requires chapters[0].subclass == ChapterEntry && chapters[0].data.ChapterData? && chapters[0].className == "Chapter"
    ensures var ops := AllOps([book, meta, chapters[0]] + rest);
            && |chapters| + 6 < |ops|
            && ops[1] == AddReference(book.className, "Chapter", book.Uuid(), chapters[0].Uuid(), "chapters")
            && ops[|chapters| + 6] == AddDataObject("Chapter", Projection(ChapterEntry, chapters[0].data).value,
                                                    chapters[0].Uuid())
  {
    var c := chapters[0];
    BookOpsStart(book, meta, chapters);
    MetaOpsLength(meta, book);
    AllOpsOfFirstThree(book, meta, c, rest);
    assert EntryOps(c).0[0] == AddDataObject("Chapter", Projection(ChapterEntry, c.data).value, c.Uuid());
  }
}

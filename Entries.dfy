/** The entry/reference graph: an Entry owns a list of references that only grows; adding is
    de-duplicated and accepts only references that name the entry as parent or child. */
module Entries {
  import opened Wrappers
  import opened BookModel

  /** The concrete Entry subclass, which also gives the default class name. */
  datatype Subclass = BookEntry | MetaEntry | ChapterEntry | ParagraphEntry

  function SubclassName(s: Subclass): string {
    match s
    case BookEntry => "Book"
    case MetaEntry => "Meta"
    case ChapterEntry => "Chapter"
    case ParagraphEntry => "Paragraph"
  }

  /** The `data` dict an entry is built from: the whole book (for Book and Meta), one chapter, or
      one paragraph. */
  datatype EntryData = BookData(book: BookOut) | ChapterData(chapter: ChapterOut) | ParagraphData(paragraph: ParagraphOut)

  /** A name-based UUID, kept symbolic: the namespace and the identifier it is derived from. */
  datatype UuidName = Uuid5(namespace: string, identifier: EntryData)

  /** InvalidReferenceError with its message. */
  datatype InvalidReferenceError = InvalidReferenceError(message: string)

  const EndpointMessage: string := "Reference must include self as either a parent or child"

  /** The frozen Reference dataclass: equality is structural over its four fields, with the
      entries compared by identity. `onChildProperty` is None unless given. */
  datatype Reference = Reference(parent: Entry, child: Entry, onParentProperty: string, onChildProperty: Option<string>)

  /** The constructor's default: an empty or missing class name becomes the subclass name. */
  function ClassNameFor(given: Option<string>, subclass: Subclass): (r: string)
    ensures r != []
    ensures given.Some? && given.value != [] ==> r == given.value
    ensures given.None? || given.value == [] ==> r == SubclassName(subclass)
  {
    if given.Some? && given.value != [] then given.value else SubclassName(subclass)
  }

  predicate IsEndpoint(self: Entry, ref: Reference) {
    ref.parent == self || ref.child == self
  }

  predicate NoDuplicates<T(==)>(s: seq<T>) {
    forall a, b :: 0 <= a < b < |s| ==> s[a] != s[b]
  }

  /** add_references over a list already held on `self`: the new list and whether the call
      returned or raised. A reference already held is skipped; one that does not name `self`
      raises at once, leaving the references appended so far in place. */
  function AddAll(self: Entry, held: seq<Reference>, refs: seq<Reference>): (seq<Reference>, Outcome<InvalidReferenceError>)
    decreases |refs|
  {
    if refs == [] then (held, Pass)
    else if refs[0] in held then AddAll(self, held, refs[1..])
    else if !IsEndpoint(self, refs[0]) then (held, Fail(InvalidReferenceError(EndpointMessage)))
    else AddAll(self, held + [refs[0]], refs[1..])
  }

  class Entry {
    const data: EntryData
    const subclass: Subclass
    const className: string
    var references: seq<Reference>

    /** Every held reference names this entry, and none is held twice. */
    predicate Valid()
      reads this
    {
      && (forall k :: 0 <= k < |references| ==> IsEndpoint(this, references[k]))
      && NoDuplicates(references)
    }

    /** Entry.__init__. */
    constructor(data: EntryData, subclass: Subclass, className: Option<string>)
      ensures this.data == data && this.subclass == subclass
      ensures this.className == ClassNameFor(className, subclass)
      ensures references == []
      ensures Valid()
    {
      this.data := data;
      this.subclass := subclass;
      this.className := ClassNameFor(className, subclass);
      references := [];
    }

    /** Entry.uuid: derived from the data and the class name alone. */
    function Uuid(): (u: UuidName)
      ensures u.namespace == className && u.identifier == data
    {
      Uuid5(className, data)
    }

    /** Entry.get_references. */
    function GetReferences(): seq<Reference>
      reads this
    {
      references
    }

    /** Entry.has_references: `any` over the list. A Reference defines neither __bool__ nor
        __len__, so every element is truthy and `any` asks for one element. */
    function HasReferences(): (b: bool)
      reads this
      ensures b <==> references != []
    {
      assert references != [] ==> references[0] in references;
      exists ref :: ref in references
    }

    /** Entry.add_references. */
    method AddReferences(refs: seq<Reference>) returns (outcome: Outcome<InvalidReferenceError>)
      requires Valid()
      modifies this
      ensures (references, outcome) == AddAll(this, old(references), refs)
      ensures Valid()
    {
      AddAllKeepsValid(this, references, refs);
      var i := 0;
      while i < |refs|
        invariant 0 <= i <= |refs|
        invariant AddAll(this, old(references), refs) == AddAll(this, references, refs[i..])
      {
        var ref := refs[i];
        assert refs[i..][1..] == refs[i + 1..];
        if ref !in references {
          var isChild, isParent := this == ref.child, this == ref.parent;
          if !(isChild || isParent) {
            return Fail(InvalidReferenceError(EndpointMessage));
          }
          references := references + [ref];
        }
        i := i + 1;
      }
      return Pass;
    }
  }

  /** Equal data and class names give equal identifiers. */
  lemma UuidDeterministic(a: Entry, b: Entry)
    requires a.data == b.data && a.className == b.className
    ensures a.Uuid() == b.Uuid()
  {
  }

  /** The list only grows: what was held stays, in its order, at the front. */
  lemma {:induction false} AddAllExtends(self: Entry, held: seq<Reference>, refs: seq<Reference>)
    ensures held <= AddAll(self, held, refs).0
    decreases |refs|
  {
    if refs != [] {
      if refs[0] in held {
        AddAllExtends(self, held, refs[1..]);
      } else if IsEndpoint(self, refs[0]) {
        AddAllExtends(self, held + [refs[0]], refs[1..]);
      }
    }
  }

  /** Adding keeps the class invariant: every appended reference names `self`, and a reference
      equal to one already held is never appended again. */
  lemma {:induction false} AddAllKeepsValid(self: Entry, held: seq<Reference>, refs: seq<Reference>)
    requires forall k :: 0 <= k < |held| ==> IsEndpoint(self, held[k])
    requires NoDuplicates(held)
    ensures var r := AddAll(self, held, refs).0;
            && (forall k :: 0 <= k < |r| ==> IsEndpoint(self, r[k]))
            && NoDuplicates(r)
    decreases |refs|
  {
    if refs != [] {
      if refs[0] in held {
        AddAllKeepsValid(self, held, refs[1..]);
      } else if IsEndpoint(self, refs[0]) {
        AddAllKeepsValid(self, held + [refs[0]], refs[1..]);
      }
    }
  }

  /** The call returns normally iff every reference is already held or names `self`. */
  lemma {:induction false} AddAllSucceedsIff(self: Entry, held: seq<Reference>, refs: seq<Reference>)
    ensures AddAll(self, held, refs).1.Pass? <==>
              forall k :: 0 <= k < |refs| ==> refs[k] in held || IsEndpoint(self, refs[k])
    decreases |refs|
  {
    if refs != [] {
      if refs[0] in held {
        AddAllSucceedsIff(self, held, refs[1..]);
        assert forall k :: 1 <= k < |refs| ==> refs[k] == refs[1..][k - 1];
      } else if IsEndpoint(self, refs[0]) {
        AddAllSucceedsIff(self, held + [refs[0]], refs[1..]);
        assert forall k :: 1 <= k < |refs| ==> refs[k] == refs[1..][k - 1];
      }
    }
  }

  /** After a successful call the list holds exactly the old references and the given ones. */
  lemma {:induction false} AddAllContents(self: Entry, held: seq<Reference>, refs: seq<Reference>)
    requires AddAll(self, held, refs).1.Pass?
    ensures forall r :: r in AddAll(self, held, refs).0 <==> r in held || r in refs
    decreases |refs|
  {
    if refs != [] {
      if refs[0] in held {
        AddAllContents(self, held, refs[1..]);
      } else {
        AddAllContents(self, held + [refs[0]], refs[1..]);
      }
      assert refs == [refs[0]] + refs[1..];
    }
  }

  /** The references a successful add_references appends, by position: each reference that is
      neither held already nor an earlier repeat in the argument list, in argument order. */
  function Fresh(held: seq<Reference>, refs: seq<Reference>): seq<Reference>
    decreases |refs|
  {
    if refs == [] then []
    else
      var front, last := refs[..|refs| - 1], refs[|refs| - 1];
      Fresh(held, front) + (if last in held || last in front then [] else [last])
  }

  /** Peeling the first reference off the argument list: it is kept, and then counts as held,
      unless it is held already. */
  lemma {:induction false} FreshCons(held: seq<Reference>, x: Reference, rest: seq<Reference>)
    ensures Fresh(held, [x] + rest) ==
            if x in held then Fresh(held, rest) else [x] + Fresh(held + [x], rest)
    decreases |rest|
  {
    if rest == [] {
      assert ([x] + rest)[..0] == [];
    } else {
      var front, y := rest[..|rest| - 1], rest[|rest| - 1];
      var xs := [x] + rest;
      assert xs[..|xs| - 1] == [x] + front && xs[|xs| - 1] == y;
      var tail := if y in held || y in [x] + front then [] else [y];
      assert Fresh(held, xs) == Fresh(held, [x] + front) + tail;
      FreshCons(held, x, front);
      if x in held {
        assert tail == if y in held || y in front then [] else [y];
        assert Fresh(held, rest) == Fresh(held, front) + tail;
      } else {
        assert tail == if y in held + [x] || y in front then [] else [y];
        assert Fresh(held + [x], rest) == Fresh(held + [x], front) + tail;
      }
    }
  }

  /** A successful add_references appends exactly the fresh references, in the order given. */
  lemma {:induction false} AddAllAppendsFresh(self: Entry, held: seq<Reference>, refs: seq<Reference>)
    requires AddAll(self, held, refs).1.Pass?
    ensures AddAll(self, held, refs).0 == held + Fresh(held, refs)
    decreases |refs|
  {
    if refs != [] {
      assert refs == [refs[0]] + refs[1..];
      FreshCons(held, refs[0], refs[1..]);
      if refs[0] in held {
        AddAllAppendsFresh(self, held, refs[1..]);
      } else {
        AddAllAppendsFresh(self, held + [refs[0]], refs[1..]);
      }
    }
  }

  /** When the call raises, it does so at a reference k that is neither held nor names `self`;
      the references before k have been added and the ones after it have not been examined. */
  lemma {:induction false} AddAllFailsAt(self: Entry, held: seq<Reference>, refs: seq<Reference>)
    requires AddAll(self, held, refs).1.Fail?
    ensures AddAll(self, held, refs).1 == Fail(InvalidReferenceError(EndpointMessage))
    ensures exists k :: 0 <= k < |refs| && FailsAt(self, held, refs, k)
    decreases |refs|
  {
    if refs[0] in held {
      AddAllFailsAt(self, held, refs[1..]);
      var k :| 0 <= k < |refs[1..]| && FailsAt(self, held, refs[1..], k);
      FailsAtShift(self, held, refs, k + 1);
    } else if IsEndpoint(self, refs[0]) {
      AddAllFailsAt(self, held + [refs[0]], refs[1..]);
      var k :| 0 <= k < |refs[1..]| && FailsAt(self, held + [refs[0]], refs[1..], k);
      FailsAtShift(self, held, refs, k + 1);
    } else {
      assert refs[..0] == [];
      assert FailsAt(self, held, refs, 0);
    }
  }

  /** The call stops at index k: refs[..k] are processed normally, refs[k] is new and does not
      name `self`, and the list is the one after refs[..k]. */
  predicate FailsAt(self: Entry, held: seq<Reference>, refs: seq<Reference>, k: int)
    requires 0 <= k < |refs|
  {
    var before := AddAll(self, held, refs[..k]);
    && before.1.Pass?
    && refs[k] !in before.0
    && !IsEndpoint(self, refs[k])
    && AddAll(self, held, refs).0 == before.0
  }

  /** A failure point of the tail, seen from the whole list. */
  lemma FailsAtShift(self: Entry, held: seq<Reference>, refs: seq<Reference>, k: int)
    requires 1 <= k < |refs|
    requires refs[0] in held || IsEndpoint(self, refs[0])
    requires FailsAt(self, if refs[0] in held then held else held + [refs[0]], refs[1..], k - 1)
    ensures FailsAt(self, held, refs, k)
  {
    assert refs[..k][1..] == refs[1..][..k - 1];
    assert refs[..k][0] == refs[0];
  }
}

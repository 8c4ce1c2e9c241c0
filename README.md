# erudite: extraction of Project Gutenberg books and their import as an entry graph

This project is a Dafny model of the core of *erudite*. Erudite turns a Project Gutenberg
book into a nested JSON document: title, author, metadata, chapters and paragraphs. It then
flattens that document into a graph of entries for a Weaviate store: a Book, a Meta, one
Chapter per chapter and one Paragraph per paragraph. The entries are linked by references and
addressed by name-based UUIDs.

The model follows the program's structure, one module per concern:

- `Text`, `Filtering`, `Wrappers`: string helpers with Python's semantics (`str.strip`,
  `str.replace`, `str.join`, `posixpath.join`, `os.path.split`) and an order-preserving filter.
- `Dates`: the retrieval-date conversion from `YYYY-MM-DD` to `Mon DD, YYYY`.
- `Metadata`: the metadata lookups, the title and author fallbacks, the author regex scanner
  and the citation.
- `TextCleaner`, `PlainExtractor`: the extractor in `extractors/gutenberg.py`. It keeps every
  chapter and paragraph, and titles a chapter by its heading's second line.
- `HtmlExtractor`: the extractor in `extractors/gutenberg_html.py`. It drops chapters and
  paragraphs of two characters or fewer, numbers the survivors from 1, and titles a chapter
  by its heading's first line.
- `BookModel`: the parsed HTML and the JSON dicts.
- `Entries`: the `Entry` class with its growing, de-duplicated reference list, and the frozen
  `Reference` record.
- `Flatten`: `BookCompilation.get_entries` and the generators it drives. These build fresh
  entries and attach references to them in place.
- `Schema`: the four class dicts of the store schema, and how the flattened entries fit them.
- `Importer`: `WeaviateImporter` over a `Batch` object that records the calls it receives
  (`add_data_object`, `add_reference`, `flush`), plus `main` of `loaders/gutenberg.py`.
- `ExtractCli`: the `Extract` driver of `utils/extractor.py` over a modelled filesystem.

Where the code and the system's own design description disagree, the model follows the code.
The disagreements are:

- **References.** The design describes two-way references linked on both ends. The loader
  instead creates two one-way references per edge, parent→child and child→parent
  (`containedIn`), with no `on_child_property`. `Flatten.EdgesArePaired` proves they are
  always paired.
- **Chapter titles.** The design takes a chapter title from the heading's text after its first
  line. The registered HTML extractor takes the first line; only the plain-text extractor takes
  what follows it. `PlainExtractor.TitleRulesDiffer` shows both on one input.
- **Link order.** The design orders each link after the upserts of both its ends. The importer
  sends the book's link to its first chapter before that chapter's data object.
  `Importer.LinkBeforeUpsert` states the positions.
- **Author type.** The schema declares `author` as `text[]`, but an author read from
  `dc.creator` is a single string. `Schema.ProjectionsMatchSchema` proves that this is the
  only mismatch.
- **Schema docstring.** The docstring of `schema/gutenberg.py` describes properties that differ
  from its dicts. The model follows the dicts.

## Model

| member | source | states |
|---|---|---|
| Dates.ConvertDate | extractors/gutenberg_html.py:101-107 | a missing date gives None; any result is the `Mon DD, YYYY` form of a real calendar date whose `YYYY-MM-DD` spelling is the first ten characters of the input |
| Dates.ConvertIsoDate | extractors/gutenberg_html.py:101-107 | conversely, every valid date written `YYYY-MM-DD`, with any suffix, converts to its display form |
| Dates.ConvertDateExample | extractors/gutenberg_html.py:105 | "2021-05-01" converts to "May 01, 2021" |
| Dates.ConvertDateRejectsFebruary29 | extractors/gutenberg_html.py:105-107 | a 29 February outside a leap year is a ValueError and converts to None |
| Dates.NumberOfPadded | extractors/gutenberg_html.py:105 | reading back a zero-padded field gives the number written |
| Dates.PaddedOfNumber | extractors/gutenberg_html.py:105 | a digit string is the zero padding of its own value |
| Metadata.GetMeta | extractors/gutenberg_html.py:62-67 | a name without a `<meta>` tag gives None |
| Metadata.FindNamesAreNameRuns | extractors/gutenberg_html.py:82-94 | every match of the author regex starts with a capital and a lower-case letter (or `-`, `'`) and holds only capitals, lower-case letters, `-`, `'` and whitespace |
| Metadata.FindNamesNeedCapitals | extractors/gutenberg_html.py:82-94 | text without a capital letter yields no author names |
| Metadata.TitlePolicy | extractors/gutenberg_html.py:69-80 | the title is `dc.title` when that is present and the body's `<h1>` text otherwise, so it is missing iff both are; with `dc.title` present, the `<h1>` is ignored |
| Metadata.AuthorPolicy | extractors/gutenberg_html.py:82-94 | the author is missing iff both `dc.creator` and the body's `<h2>` are; `dc.creator` wins as a plain string; otherwise the author is the list of every regex match in the `<h2>` text, each a run of capitalised names |
| Metadata.MatchEndIsMaximal | extractors/gutenberg_html.py:91-92 | a match is maximal: no further capitalised word starts where it ends, and unless it ends in the optional whitespace, the next character can continue neither a word nor the whitespace |
| Metadata.FindNamesNone | extractors/gutenberg_html.py:91-92 | with no position where a capital is followed by a name letter, `re.findall` returns no names |
| Metadata.FindNamesLeftmost | extractors/gutenberg_html.py:91-92 | the first match starts at the leftmost position where a capitalised word starts, ends where the greedy repetition stops, and the search continues from there; no possible start is skipped |
| Metadata.FindNamesEmptyIff | extractors/gutenberg_html.py:91-92 | `re.findall` finds nothing iff no capitalised word starts anywhere in the text |
| Metadata.CitationIgnoresFallbacks | extractors/gutenberg_html.py:109-123 | citation and meta depend only on the `<meta>` tags, never on the `<h1>`/`<h2>` fallbacks |
| Metadata.CitationWithoutMetadata | extractors/gutenberg_html.py:120-123 | with no metadata, every citation field renders as "None" |
| Metadata.CitationExample | extractors/gutenberg_html.py:120-123 | any document with the Moby-Dick metadata values yields the full citation, with the date shown as "May 01, 2021" |
| TextCleaner.SubstituteQuotes | extractors/gutenberg.py:21-24 | same length; no curly double quote is left; each curly quote becomes `"` and every other character is unchanged |
| TextCleaner.Clean | extractors/gutenberg.py:18-28 | the cleaned paragraph has no leading or trailing whitespace |
| TextCleaner.CleanIsSingleLine | extractors/gutenberg.py:18-28 | when the normalization adds no newline or curly quote, the result has none |
| TextCleaner.CleanWithoutNormalization | extractors/gutenberg.py:21-27 | without normalization, each newline becomes a space and each curly quote a straight one, position by position |
| PlainExtractor.ChapterTitleIsSecondLine | extractors/gutenberg.py:147-156 | the title is missing iff the heading is missing or has one line; otherwise it is the line after the first |
| PlainExtractor.TitleRulesDiffer | extractors/gutenberg.py:147-156 | on a two-line heading, the HTML extractor titles by the first line and the plain extractor by the second |
| PlainExtractor.WholeChapterIsSingleLine | extractors/gutenberg.py:158-162 | the chapter text is the paragraph texts joined with newlines, then cleaned: it has no newline, no curly double quote and no surrounding whitespace |
| PlainExtractor.KeepsEveryParagraph | extractors/gutenberg.py:164-196 | one paragraph dict per paragraph, numbered from 1, each the cleaned text |
| PlainExtractor.NumberedWithoutFiltering | extractors/gutenberg.py:133-136 | one chapter dict per chapter, in order, numbered from 1 |
| HtmlExtractor.CleanParagraph | extractors/gutenberg_html.py:48-52 | in the soup-cleaned text, each newline becomes a space and every other character stays where it was; no newline is left |
| HtmlExtractor.GetTitleIsLine | extractors/gutenberg_html.py:141-149 | the chapter title is missing iff the heading is; otherwise it is the heading's first line, or its second line when the heading starts with a newline |
| HtmlExtractor.GetTitleOfTwoLines | extractors/gutenberg_html.py:145-147 | a two-line heading is titled by its first line |
| HtmlExtractor.BuildParagraphSet | extractors/gutenberg_html.py:241-251 | the loop builds the numbered filter of the cleaned paragraphs; each has seq k+1 and at least three characters |
| HtmlExtractor.KeptTextsAreMaterialInputs | extractors/gutenberg_html.py:245-249 | the kept paragraphs are exactly the cleaned inputs of length at least three, in input order |
| HtmlExtractor.CleanChapters | extractors/gutenberg_html.py:151-172 | the loop keeps exactly the chapters whose cleaned text has at least three characters, in order |
| HtmlExtractor.GetChapters | extractors/gutenberg_html.py:174-185 | the loop numbers the retained chapters from 1 |
| HtmlExtractor.ChaptersFilteredAndNumbered | extractors/gutenberg_html.py:151-185 | chapter k of the output is input chapter ix[k], with seq k+1, where ix lists exactly the material chapters in increasing order |
| HtmlExtractor.RetainedChapterWithoutParagraphs | extractors/gutenberg_html.py:151-185 | a chapter whose joined text is material but whose every paragraph is short is kept with no paragraphs |
| HtmlExtractor.RetainedChapterWithoutParagraphsExample | extractors/gutenberg_html.py:151-185 | paragraphs "ab" and "cd" form one chapter with an empty paragraph list |
| HtmlExtractor.GetBook | extractors/gutenberg_html.py:109-134 | the book dict combines the title and author policies, the meta dict and the filtered chapters |
| Entries.ClassNameFor | loaders/common/types.py:41-44 | the class name is never empty: the given one, or else the subclass name |
| Entries.Entry.constructor | loaders/common/types.py:41-44 | a new entry holds no references and keeps its data and class name |
| Entries.Entry.Uuid | loaders/common/types.py:52-64 | the identifier is derived from the class name and the data |
| Entries.UuidDeterministic | loaders/common/types.py:52-64 | equal data and class names give equal identifiers |
| Entries.Entry.HasReferences | loaders/common/types.py:93-100 | true iff the entry holds at least one reference |
| Entries.Entry.AddReferences | loaders/common/types.py:66-83 | the loop computes the specification `AddAll` and keeps the invariant that every held reference names the entry and none is held twice |
| Entries.AddAllExtends | loaders/common/types.py:77-83 | references already held stay, in order, at the front |
| Entries.AddAllKeepsValid | loaders/common/types.py:77-83 | adding never admits a reference without the entry as an endpoint, nor a duplicate |
| Entries.AddAllSucceedsIff | loaders/common/types.py:77-83 | the call returns iff every given reference is already held or names the entry |
| Entries.AddAllContents | loaders/common/types.py:77-83 | after a successful call, the list holds exactly the old references and the given ones |
| Entries.FreshCons | loaders/common/types.py:77-83 | of the argument list, the first reference is appended unless it is already held, and is then held for the rest |
| Entries.AddAllAppendsFresh | loaders/common/types.py:66-83 | a successful call appends to the held list exactly those given references that are neither held already nor repeats of earlier ones, in the order given |
| Entries.AddAllFailsAt | loaders/common/types.py:77-83 | a failure is InvalidReferenceError at the first new reference that does not name the entry; earlier ones stay added |
| Flatten.ProjectionsExcludeChildren | loaders/gutenberg.py:32-126 | each `entry` projection has exactly its declared keys and never a child list or a link property |
| Flatten.ChildRefs | loaders/gutenberg.py:44-49 | one parent→child reference per child, in order |
| Flatten.GetParagraphs | loaders/gutenberg.py:98-110 | one fresh Paragraph entry per paragraph dict, in order, each linked to the chapter in both directions |
| Flatten.GetChapters | loaders/gutenberg.py:40-50 | one fresh Chapter entry per chapter dict, in order, each linked to the book in both directions |
| Flatten.GetMeta | loaders/gutenberg.py:52-59 | a fresh Meta entry over the whole book dict, linked to the book in both directions |
| Flatten.GetAllParagraphs | loaders/gutenberg.py:145-147 | the concatenation of every chapter's paragraph entries, all distinct |
| Flatten.GetEntries | loaders/gutenberg.py:142-150 | with no chapters, TypeError and nothing attached; otherwise the book, meta, chapters and paragraphs, all distinct, forming the graph `Flattened` describes |
| Flatten.EdgesArePaired | loaders/gutenberg.py:40-110 | every parent→child reference has its child→parent `containedIn` partner, and none is two-way |
| Flatten.FlattenedEntriesFit | loaders/gutenberg.py:142-150 | every flattened entry carries the data kind its subclass projects |
| Flatten.ConcatMember | loaders/gutenberg.py:145-147 | every element of the reduced list comes from one of the chapters' lists |
| Schema.ProjectionsMatchSchema | schema/gutenberg.py:50-175 | every projected key is declared on its class; the values conform iff the author is not a `dc.creator` string |
| Schema.ReferencesMatchSchema | schema/gutenberg.py:50-175 | every reference uses a property of the holder's class whose dataType is the other end's class |
| Importer.WeaviateImporter.ResolveReferences | loaders/common/util.py:66-85 | the batch receives the links of the references in order, with a mirrored link for each two-way reference |
| Importer.LinkCount | loaders/common/util.py:68-85 | there is one link per reference, plus one per two-way reference |
| Importer.LinkOpsAt | loaders/common/util.py:68-85 | the position of each reference's parent link and mirrored link in the call sequence |
| Importer.LinksAreReferences | loaders/common/util.py:68-85 | resolving references only adds references, never data objects or flushes |
| Importer.WeaviateImporter.LoadEntry | loaders/common/util.py:47-64 | a non-entry is logged and flushed; an entry adds its data object and links, and flushes even when its projection raises KeyError |
| Importer.EntryOpsShape | loaders/common/util.py:52-63 | the calls for an entry are a data object, then only links, then one flush |
| Importer.FlushOncePerItem | loaders/common/util.py:52-63 | each load flushes exactly once; a non-entry adds no data object |
| Importer.WeaviateImporter.LoadEach | loaders/common/util.py:43-44 | the loop is the specification `BatchOps`: entries load in order, and a KeyError stops the loop |
| Importer.BatchOpsErrors | loaders/common/util.py:43-44 | a batch of entries fails only with KeyError |
| Importer.BatchFailsIff | loaders/common/util.py:43-44 | a batch fails iff one of its entries has no projection |
| Importer.BatchLoadsEach | loaders/common/util.py:43-44 | when every entry projects, all are loaded, with one flush each |
| Importer.WeaviateImporter.LoadCompilation | loaders/common/util.py:38-44 | TypeError iff the book has no chapters, with nothing sent; otherwise the flattened entries are loaded in order |
| Importer.WeaviateImporter.LoadBatch | loaders/common/util.py:38-44 | an object that is not a collection fails the assertion and sends nothing; a compilation loads as above |
| Importer.WeaviateImporter.Run | loaders/common/util.py:87-94 | a collection goes to load_batch, an entry to load_entry, anything else sends nothing |
| Importer.FlattenedImportPasses | loaders/gutenberg.py:142-150 | the flattening of a book projects everywhere, so its import never raises KeyError |
| Importer.ImportBook | loaders/gutenberg.py:153-158 | a book without chapters raises TypeError and sends nothing; otherwise 2 + chapters + paragraphs entries are each loaded and flushed once, the first being the Book over the JSON |
| Importer.LinkBeforeUpsert | loaders/common/util.py:56-59 | the book's link to its first chapter is sent before that chapter's data object |
| ExtractCli.GetExtractor | utils/extractor.py:44-54 | succeeds iff the name is "gutenberg"; otherwise ExtractorUnsupported naming the format |
| ExtractCli.NewExtract | utils/extractor.py:38-42 | construction succeeds iff the format is known, and keeps the paths and the overwrite flag |
| ExtractCli.OutputPathInDirectory | utils/extractor.py:56-63 | into a directory, `stem.html` is written as `stem.json` inside it |
| ExtractCli.FileSystem.RunExtractor | utils/extractor.py:75 | the extraction writes its target and is recorded |
| ExtractCli.ExtractOne | utils/extractor.py:70-75 | the overwrite guard and the extraction agree with one `Step` of the specification: FileExists and no change, or one new output and one recorded extraction |
| ExtractCli.Run | utils/extractor.py:65-85 | the filesystem after the run, and its outcome, are those of the specification `RunSpec` |
| ExtractCli.SingleFileRun | utils/extractor.py:76-85 | a non-`.html` file is FileUnsupported; an existing output without overwrite is FileExists; otherwise exactly one extraction |
| ExtractCli.HtmlJobsFollowFilter | utils/extractor.py:68-69 | one job is planned per `.html` name, in scan order |
| ExtractCli.DirRunOverwrites | utils/extractor.py:67-75 | with overwrite, every `.html` file of the directory is extracted, in scan order |
| ExtractCli.DirRunPassesIff | utils/extractor.py:67-75 | without overwrite, a directory run succeeds iff the planned outputs are pairwise distinct and none existed before |
| ExtractCli.DirRunFailsAt | utils/extractor.py:67-75 | a failed run stops at the first colliding `.html` file: earlier files are extracted, later ones are not |
| ExtractCli.SingleOutputCollides | utils/extractor.py:67-75 | with a non-directory output and no overwrite, two `.html` files always end in FileExists |

## Left out

- HTML parsing: BeautifulSoup's parse is the input. `ParsedDocument` holds the `<meta>`
  tags, the body's first `<h1>`/`<h2>` and each chapter div's heading and paragraph texts.
- NFKD normalization and the HTML extractor's paragraph cleaner are function parameters
  (`normalize`, `soup`). There is no Unicode table.
- As written, the HTML extractor does not run. `clean_chapter` and `clean_paragraph` call
  `super().clean_soup` (`extractors/gutenberg_html.py:46,50`). No base class defines it, so
  `clean_chapters` raises `AttributeError` at the first chapter div, when it cleans the joined
  paragraph texts (lines 160-162), and so would `clean_paragraphs` (line 246). HtmlExtractor and `ExtractCli.FileSystem.RunExtractor` model only the intended
  run, with `soup` as the missing cleaner.
- `clean_chapter` in `extractors/gutenberg_html.py` returns None; it is not modelled.
- UUID version 5 (section 4.3 of RFC 4122) is kept symbolic: the identifier is the pair
  (namespace, data) with no SHA-1 hashing. The model therefore has no hash collisions.
- Dates.ConvertDate: parses only the canonical `YYYY-MM-DD` with two-digit month and day.
  `strptime` also accepts single-digit fields, and non-ASCII decimal digits such as the
  Arabic-Indic "٢٠٢١-٠٥-٠١", because its `\d` is Unicode. The model maps every such input to None.
  Month names are those of the C locale.
- The author regex is modelled as a hand-written scanner with the same matches. The regex
  engine is not modelled.
- File reading, JSON encoding and decoding, and writing with `extract` are not modelled. The
  JSON dict given to `main` is taken to be of the extractor's output shape.
- The extractor that `Extract.run` calls is modelled by its effect: the output path exists
  afterwards. Reading or parsing failures of the input are not modelled.
- The filesystem's directories are fixed. `os.scandir` order is a given listing per directory.
  Errors of `os.scandir` are not modelled.
- The Weaviate client, the network, and what the store does with batched calls are not
  modelled. The `Batch` class only records the calls it receives.
- Logging, `callback_log` and the "Inserting" message are not modelled. Nor are the
  `AssertionError` and exception messages other than those of the extractor CLI.
- The `multiprocessing` pool is not modelled, since the source never submits work to it.
- The command line in `erudite.py` is not modelled.
- The source's extractor table refers to `Extractors.gutenberg`, which is undefined in the
  code. The model treats it as the registered key "gutenberg".
- The schema's descriptions, vectorizer settings and client calls are not modelled. Only the
  names and data types of properties are.
- `Entry.get_references` returns the list itself in Python; the model returns its value, so
  aliasing through the returned list is not captured.
- `extractors/gutenberg_modified.py` is the same as `extractors/gutenberg.py` and is not
  modelled separately.

/** The extraction driver (utils/extractor.py): choosing the extractor by format name, naming the
    output file, and running over one file or over a directory, failing fast on an output that
    already exists. The filesystem is reduced to the set of existing files, the fixed set of
    directories with their listings, and the log of extractions made. */
module ExtractCli {
  import opened Wrappers
  import opened Text
  import opened Filtering

  datatype ExtractError = FileExists(message: string) | FileUnsupported(message: string) | ExtractorUnsupported(message: string)

  /** The extractors the driver knows; their behaviour is modelled elsewhere. */
  datatype ExtractorKind = GutenbergExtractor

  const Extractors: map<string, ExtractorKind> := map["gutenberg" := GutenbergExtractor]

  /** Extract.get_extractor: a lookup in the one-entry table, and ExtractorUnsupported for a
      name it lacks. */
  function GetExtractor(name: string): (r: Result<ExtractorKind, ExtractError>)
    ensures r.Ok? <==> name == "gutenberg"
    ensures r.Ok? ==> r.value == GutenbergExtractor
    ensures r.Err? ==> r.error.ExtractorUnsupported? && "'" + name <= r.error.message
  {
    if name in Extractors then Ok(Extractors[name])
    else Err(ExtractorUnsupported("'" + name + "' is not supported format. Please choose from ['gutenberg']"))
  }

  /** An Extract object: its settings never change after construction. */
  datatype Extract = Extract(input: string, output: string, extractor: ExtractorKind, overwrite: bool)

  /** Extract.__init__, which raises when the format is unknown. */
  function NewExtract(input: string, output: string, fileFormat: string, overwrite: bool): (r: Result<Extract, ExtractError>)
    ensures r.Ok? <==> fileFormat == "gutenberg"
    ensures r.Ok? ==> r.value == Extract(input, output, GutenbergExtractor, overwrite)
    ensures r.Err? ==> r == Err(GetExtractor(fileFormat).error)
  {
    match GetExtractor(fileFormat)
    case Ok(e) => Ok(Extract(input, output, e, overwrite))
    case Err(err) => Err(err)
  }

  /** Extract.output_filepath: into a directory output goes the input's file name with every
      ".html" replaced by ".json"; any other output is used as it is. */
  function OutputPath(output: string, dirs: set<string>, file: string): string {
    if output in dirs then JoinPath(output, ReplaceAll(Basename(file), ".html", ".json")) else output
  }

  function ExistsMessage(out: string): string {
    out + " already exists and --overwrite flag is not set."
  }

  function UnsupportedMessage(input: string): string {
    input + " is not a supported file type."
  }

  predicate IsHtml(name: string) {
    EndsWith(name, ".html")
  }

  /** One extraction: the file read and the output written. */
  datatype Job = Job(source: string, target: string)

  /** The filesystem: existing files, which extraction adds to; fixed directories and their scan
      order; and the extractions made. */
  class FileSystem {
    var files: set<string>
    const dirs: set<string>
    const listing: map<string, seq<string>>
    var extracted: seq<Job>

    constructor(files: set<string>, dirs: set<string>, listing: map<string, seq<string>>)
      ensures this.files == files && this.dirs == dirs && this.listing == listing && extracted == []
    {
      this.files := files;
      this.dirs := dirs;
      this.listing := listing;
      extracted := [];
    }

    /** os.path.exists. */
    predicate PathExists(p: string)
      reads this
    {
      p in files || p in dirs
    }

    /** The names os.scandir yields, in its order. */
    function ScanDir(dir: string): seq<string> {
      if dir in listing then listing[dir] else []
    }

    /** extractor(source).extract(target): the output file now exists. */
    method RunExtractor(source: string, target: string)
      modifies this
      ensures files == old(files) + {target} && extracted == old(extracted) + [Job(source, target)]
    {
      files := files + {target};
      extracted := extracted + [Job(source, target)];
    }
  }

  // ---- the specification of a run ----

  /** The part of the filesystem a run changes. */
  datatype FsState = FsState(files: set<string>, extracted: seq<Job>)

  predicate Exists(st: FsState, dirs: set<string>, p: string) {
    p in st.files || p in dirs
  }

  /** Extracting the file at `path`, unless its output exists and overwriting is off. */
  function Step(x: Extract, dirs: set<string>, st: FsState, path: string): (FsState, Outcome<ExtractError>) {
    var out := OutputPath(x.output, dirs, path);
    if Exists(st, dirs, out) && !x.overwrite then (st, Fail(FileExists(ExistsMessage(out))))
    else (FsState(st.files + {out}, st.extracted + [Job(path, out)]), Pass)
  }

  /** The directory loop over the scanned names: ".html" names are extracted in order, and the
      first collision ends the run. */
  function DirRun(x: Extract, dirs: set<string>, names: seq<string>, st: FsState): (FsState, Outcome<ExtractError>) {
    if names == [] then (st, Pass)
    else
      var r := DirRun(x, dirs, names[..|names| - 1], st);
      if r.1.Fail? || !IsHtml(names[|names| - 1]) then r
      else Step(x, dirs, r.0, JoinPath(x.input, names[|names| - 1]))
  }

  /** Extract.run. */
  function RunSpec(x: Extract, dirs: set<string>, listing: map<string, seq<string>>, st: FsState): (FsState, Outcome<ExtractError>) {
    if x.input in dirs then DirRun(x, dirs, if x.input in listing then listing[x.input] else [], st)
    else if IsHtml(x.input) then Step(x, dirs, st, x.input)
    else (st, Fail(FileUnsupported(UnsupportedMessage(x.input))))
  }

  /** The extraction of the directory entry `name`. */
  function DirJob(x: Extract, dirs: set<string>, name: string): Job {
    var path := JoinPath(x.input, name);
    Job(path, OutputPath(x.output, dirs, path))
  }

  /** The extractions of the ".html" names, in scan order. */
  function HtmlJobs(x: Extract, dirs: set<string>, names: seq<string>): seq<Job> {
    if names == [] then []
    else HtmlJobs(x, dirs, names[..|names| - 1])
         + (if IsHtml(names[|names| - 1]) then [DirJob(x, dirs, names[|names| - 1])] else [])
  }

  function Targets(jobs: seq<Job>): set<string> {
    set k | 0 <= k < |jobs| :: jobs[k].target
  }

  predicate DistinctTargets(jobs: seq<Job>) {
    forall a, b :: 0 <= a < b < |jobs| ==> jobs[a].target != jobs[b].target
  }

  // ---- the driver ----

  /** The body shared by both branches of Extract.run: the output path, the overwrite guard,
      then the extraction. */
  method ExtractOne(x: Extract, fs: FileSystem, path: string) returns (outcome: Outcome<ExtractError>)
    modifies fs
    ensures (FsState(fs.files, fs.extracted), outcome) == Step(x, fs.dirs, FsState(old(fs.files), old(fs.extracted)), path)
  {
    var out := OutputPath(x.output, fs.dirs, path);
    if fs.PathExists(out) && !x.overwrite {
      return Fail(FileExists(ExistsMessage(out)));
    }
    fs.RunExtractor(path, out);
    return Pass;
  }

  /** Extract.run over the filesystem. */
  method Run(x: Extract, fs: FileSystem) returns (outcome: Outcome<ExtractError>)
    modifies fs
    ensures (FsState(fs.files, fs.extracted), outcome) == RunSpec(x, fs.dirs, fs.listing, FsState(old(fs.files), old(fs.extracted)))
  {
    ghost var st0 := FsState(fs.files, fs.extracted);
    if x.input in fs.dirs {
      var names := fs.ScanDir(x.input);
      var i := 0;
      while i < |names|
        invariant 0 <= i <= |names|
        invariant DirRun(x, fs.dirs, names[..i], st0) == (FsState(fs.files, fs.extracted), Pass)
      {
        assert names[..i + 1][..i] == names[..i];
        var name := names[i];
        if EndsWith(name, ".html") {
          outcome := ExtractOne(x, fs, JoinPath(x.input, name));
          if outcome.Fail? {
            DirRunStop(x, fs.dirs, names, st0, i + 1);
            return;
          }
        }
        i := i + 1;
      }
      assert names[..|names|] == names;
      return Pass;
    } else if EndsWith(x.input, ".html") {
      outcome := ExtractOne(x, fs, x.input);
    } else {
      return Fail(FileUnsupported(UnsupportedMessage(x.input)));
    }
  }

  // ---- lemmas ----

  /** Once a prefix of the names has collided, the names after it are never looked at. */
  lemma {:induction false} DirRunStop(x: Extract, dirs: set<string>, names: seq<string>, st: FsState, n: nat)
    requires n <= |names| && DirRun(x, dirs, names[..n], st).1.Fail?
    ensures DirRun(x, dirs, names, st) == DirRun(x, dirs, names[..n], st)
    decreases |names|
  {
    if n < |names| {
      var front := names[..|names| - 1];
      assert front[..n] == names[..n];
      DirRunStop(x, dirs, front, st, n);
    } else {
      assert names[..n] == names;
    }
  }

  /** The extractions are those of Filter(names, IsHtml): the ".html" names, in scan order. */
  lemma {:induction false} HtmlJobsFollowFilter(x: Extract, dirs: set<string>, names: seq<string>)
    ensures |HtmlJobs(x, dirs, names)| == |Filter(names, IsHtml)|
    ensures forall k :: 0 <= k < |HtmlJobs(x, dirs, names)| ==>
              HtmlJobs(x, dirs, names)[k] == DirJob(x, dirs, Filter(names, IsHtml)[k])
  {
    if names != [] {
      HtmlJobsFollowFilter(x, dirs, names[..|names| - 1]);
    }
  }

  /** While no collision has happened, the run has extracted exactly the ".html" names so far,
      and each of their outputs now exists. */
  lemma {:induction false} DirRunState(x: Extract, dirs: set<string>, names: seq<string>, st: FsState)
    requires DirRun(x, dirs, names, st).1.Pass?
    ensures var jobs := HtmlJobs(x, dirs, names);
            DirRun(x, dirs, names, st).0 == FsState(st.files + Targets(jobs), st.extracted + jobs)
  {
    if names != [] {
      var front := names[..|names| - 1];
      DirRunState(x, dirs, front, st);
      var jobs := HtmlJobs(x, dirs, front);
      var last := names[|names| - 1];
      if IsHtml(last) {
        var j := DirJob(x, dirs, last);
        TargetsSnoc(jobs, j);
        assert HtmlJobs(x, dirs, names) == jobs + [j];
        assert DirRun(x, dirs, names, st) == Step(x, dirs, DirRun(x, dirs, front, st).0, JoinPath(x.input, last));
      } else {
        assert HtmlJobs(x, dirs, names) == jobs;
      }
    }
  }

  lemma TargetsSnoc(jobs: seq<Job>, j: Job)
    ensures Targets(jobs + [j]) == Targets(jobs) + {j.target}
  {
    assert forall k :: 0 <= k < |jobs| ==> (jobs + [j])[k] == jobs[k];
    assert (jobs + [j])[|jobs|] == j;
  }

  /** With overwriting on, nothing stops a directory run: every ".html" name is extracted. */
  lemma {:induction false} DirRunOverwrites(x: Extract, dirs: set<string>, names: seq<string>, st: FsState)
    requires x.overwrite
    ensures DirRun(x, dirs, names, st).1 == Pass
    ensures DirRun(x, dirs, names, st).0.extracted == st.extracted + HtmlJobs(x, dirs, names)
  {
    if names != [] {
      DirRunOverwrites(x, dirs, names[..|names| - 1], st);
    }
    DirRunState(x, dirs, names, st);
  }

  /** The outputs are fresh: pairwise different, and none existed before. */
  predicate FreshTargets(jobs: seq<Job>, st: FsState, dirs: set<string>) {
    DistinctTargets(jobs) && forall k :: 0 <= k < |jobs| ==> !Exists(st, dirs, jobs[k].target)
  }

  lemma FreshTargetsSnoc(jobs: seq<Job>, j: Job, st: FsState, dirs: set<string>)
    ensures FreshTargets(jobs + [j], st, dirs) <==>
              FreshTargets(jobs, st, dirs) && j.target !in Targets(jobs) && !Exists(st, dirs, j.target)
  {
    var all := jobs + [j];
    assert forall k :: 0 <= k < |jobs| ==> all[k] == jobs[k];
    assert all[|jobs|] == j;
    if FreshTargets(all, st, dirs) {
      assert j.target !in Targets(jobs) by {
        forall k | 0 <= k < |jobs| ensures jobs[k].target != j.target {
          assert all[k].target != all[|jobs|].target;
        }
      }
    }
  }

  /** Without overwriting, a directory run completes iff the ".html" names have pairwise
      different outputs and none of those outputs existed before. */
  lemma {:induction false} DirRunPassesIff(x: Extract, dirs: set<string>, names: seq<string>, st: FsState)
    requires !x.overwrite
    ensures DirRun(x, dirs, names, st).1.Pass? <==> FreshTargets(HtmlJobs(x, dirs, names), st, dirs)
  {
    if names != [] {
      var front := names[..|names| - 1];
      var last := names[|names| - 1];
      DirRunPassesIff(x, dirs, front, st);
      var jobs := HtmlJobs(x, dirs, front);
      if IsHtml(last) {
        var j := DirJob(x, dirs, last);
        assert HtmlJobs(x, dirs, names) == jobs + [j];
        FreshTargetsSnoc(jobs, j, st, dirs);
        if DirRun(x, dirs, front, st).1.Pass? {
          DirRunState(x, dirs, front, st);
          assert DirRun(x, dirs, names, st) == Step(x, dirs, DirRun(x, dirs, front, st).0, JoinPath(x.input, last));
        }
      } else {
        assert HtmlJobs(x, dirs, names) == jobs;
      }
    }
  }

  /** A collision stops a directory run at the first ".html" name k whose output exists by then
      (before the run or written by it); the names before k have been extracted and the ones
      after k have not. */
  lemma {:induction false} DirRunFailsAt(x: Extract, dirs: set<string>, names: seq<string>, st: FsState)
    requires DirRun(x, dirs, names, st).1.Fail?
    ensures !x.overwrite
    ensures exists k :: 0 <= k < |names| && IsHtml(names[k]) && CollidesAt(x, dirs, names, st, k)
  {
    var front := names[..|names| - 1];
    if DirRun(x, dirs, front, st).1.Fail? {
      DirRunFailsAt(x, dirs, front, st);
      var k :| 0 <= k < |front| && IsHtml(front[k]) && CollidesAt(x, dirs, front, st, k);
      assert front[..k] == names[..k] && front[k] == names[k];
    } else {
      assert names[..|front|] == front;
      DirRunState(x, dirs, front, st);
    }
  }

  /** The run stops at name k: the names before it ran without collision, name k's output exists
      in the state they left, and that state is the final one. */
  predicate CollidesAt(x: Extract, dirs: set<string>, names: seq<string>, st: FsState, k: int)
    requires 0 <= k < |names|
  {
    var before := DirRun(x, dirs, names[..k], st);
    var jobs := HtmlJobs(x, dirs, names[..k]);
    var out := DirJob(x, dirs, names[k]).target;
    && before.1.Pass?
    && before.0 == FsState(st.files + Targets(jobs), st.extracted + jobs)
    && Exists(before.0, dirs, out)
    && DirRun(x, dirs, names, st) == (before.0, Fail(FileExists(ExistsMessage(out))))
  }

  /** A directory input with a single-file output and no overwriting cannot get past its second
      ".html" file: the first one's extraction writes the output the second one needs. */
  lemma SingleOutputCollides(x: Extract, dirs: set<string>, names: seq<string>, st: FsState)
    requires !x.overwrite && x.output !in dirs
    requires |Filter(names, IsHtml)| >= 2
    ensures DirRun(x, dirs, names, st).1 == Fail(FileExists(ExistsMessage(x.output)))
  {
    HtmlJobsFollowFilter(x, dirs, names);
    DirRunPassesIff(x, dirs, names, st);
    var jobs := HtmlJobs(x, dirs, names);
    assert jobs[0].target == jobs[1].target;
    assert !FreshTargets(jobs, st, dirs);
    DirRunFailsAt(x, dirs, names, st);
  }

  /** A single input: a name without ".html" is refused with nothing extracted; an existing
      output stops the run before the extractor is called unless overwriting is on; otherwise
      the input is extracted to its output. */
  lemma SingleFileRun(x: Extract, dirs: set<string>, listing: map<string, seq<string>>, st: FsState)
    requires x.input !in dirs
    ensures var out := OutputPath(x.output, dirs, x.input);
            var r := RunSpec(x, dirs, listing, st);
            && (!IsHtml(x.input) ==> r == (st, Fail(FileUnsupported(UnsupportedMessage(x.input)))))
            && (IsHtml(x.input) && Exists(st, dirs, out) && !x.overwrite ==>
                  r == (st, Fail(FileExists(ExistsMessage(out)))))
            && (IsHtml(x.input) && (x.overwrite || !Exists(st, dirs, out)) ==>
                  r == (FsState(st.files + {out}, st.extracted + [Job(x.input, out)]), Pass))
  {
  }

  /** The output name in directory mode: "stem.html" under any directory becomes "stem.json"
      under the output directory, when ".html" occurs in the name only at its end. */
  lemma OutputPathInDirectory(output: string, dirs: set<string>, dir: string, stem: string)
    requires output in dirs
    requires '/' !in stem
    requires forall k :: 0 <= k < |stem| ==> !OccursAt(stem + ".html", ".html", k)
    ensures OutputPath(output, dirs, JoinPath(dir, stem + ".html")) == JoinPath(output, stem + ".json")
  {
    var name := stem + ".html";
    assert '/' !in name by {
      assert forall k :: 0 <= k < |name| ==> name[k] == (if k < |stem| then stem[k] else ".html"[k - |stem|]);
    }
    BasenameOfJoin(dir, name);
    ReplaceAllAtEnd(stem, ".html", ".json");
  }

  /** The file name of a joined path is the name joined. */
  lemma BasenameOfJoin(dir: string, name: string)
    requires '/' !in name
    ensures Basename(JoinPath(dir, name)) == name
  {
    var p := JoinPath(dir, name);
    if name != [] {
      assert name[0] in name;
    }
    assert p[|p| - |name|..] == name;
    forall k | |p| - |name| <= k < |p| ensures p[k] != '/' {
      assert p[k] == name[k - (|p| - |name|)];
      assert p[k] in name;
    }
    BasenameFrom(p, |p| - |name|);
  }

  /** When `p` has no slash from `i` on and a slash (or the start) just before `i`, its file
      name is `p[i..]`. */
  lemma {:induction false} BasenameFrom(p: string, i: nat)
    requires i <= |p| && (i == 0 || p[i - 1] == '/')
    requires forall k :: i <= k < |p| ==> p[k] != '/'
    ensures Basename(p) == p[i..]
    decreases |p|
  {
    if i < |p| {
      var q, last := p[..|p| - 1], p[|p| - 1];
      assert last != '/';
      assert Basename(p) == Basename(q) + [last];
      assert forall k :: 0 <= k < |q| ==> q[k] == p[k];
      BasenameFrom(q, i);
      SliceSnoc(p, i);
    }
  }

  lemma SliceSnoc(p: string, i: nat)
    requires i < |p|
    ensures p[i..] == p[..|p| - 1][i..] + [p[|p| - 1]]
  {
  }

  /** ReplaceAll on a string whose only occurrence of `pat` is a final one. */
  lemma {:induction false} ReplaceAllAtEnd(s: string, pat: string, rep: string)
    requires pat != []
    requires forall k :: 0 <= k < |s| ==> !OccursAt(s + pat, pat, k)
    ensures ReplaceAll(s + pat, pat, rep) == s + rep
    decreases |s|
  {
    if s == [] {
      assert (s + pat)[..|pat|] == pat;
      assert (s + pat)[|pat|..] == [];
    } else {
      assert !OccursAt(s + pat, pat, 0);
      assert (s + pat)[1..] == s[1..] + pat;
      forall k | 0 <= k < |s[1..]| ensures !OccursAt(s[1..] + pat, pat, k) {
        assert !OccursAt(s + pat, pat, k + 1);
        assert (s[1..] + pat)[k..k + |pat|] == (s + pat)[k + 1..k + 1 + |pat|];
      }
      ReplaceAllAtEnd(s[1..], pat, rep);
      assert [s[0]] + (s[1..] + rep) == s + rep;
    }
  }
}

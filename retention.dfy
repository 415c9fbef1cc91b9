/**
 * The retention manager (`cleanup_old_videos`): in each managed folder, keep the
 * newest few video files that do not belong to a queued or processing job and
 * delete the rest. Folder listings (name, modification time, regular file or not)
 * are inputs; the deletions are applied to the `FileSystem`.
 */
module Retention {
  import opened Common
  import opened Paths
  import opened Uploads
  import opened Jobs
  import opened Files

  const VideoExtensions: set<string> := {".mp4", ".avi", ".mov", ".mkv", ".webm", ".flv", ".wmv"}

  /** One entry of `os.listdir`, with `os.path.getmtime` and `os.path.isfile` of its path. */
  datatype Entry = Entry(name: string, mtime: real, isFile: bool)

  predicate IsHidden(name: string) {
    |name| > 0 && name[0] == '.'
  }

  /** The lower-cased `splitext` extension is one of the video extensions. */
  predicate IsVideo(name: string) {
    Lower(SplitExt(name)) in VideoExtensions
  }

  /** A file counts as an active job's when either name contains the other. */
  predicate RelatedToActive(name: string, activeNames: set<string>) {
    exists a :: a in activeNames && (IsSubstring(a, name) || IsSubstring(name, a))
  }

  /** The files the manager may delete: visible regular video files of no active job. */
  predicate IsCandidate(e: Entry, activeNames: set<string>) {
    !IsHidden(e.name) && IsVideo(e.name) && e.isFile && !RelatedToActive(e.name, activeNames)
  }

  /** The jobs whose files are protected: registered, with a queued or processing record and a non-empty file name. */
  predicate Protects(s: StoreState, id: string) {
    id in s.active && id in s.jobs && s.jobs[id].status in {Queued, Processing} && s.jobs[id].filename != ""
  }

  /** The names collected in `active_filenames`: each protecting job's file name and `<id>_<file name>`. */
  function ActiveNames(s: StoreState): set<string> {
    (set id | id in s.active && Protects(s, id) :: s.jobs[id].filename)
    + (set id | id in s.active && Protects(s, id) :: InputFilename(id, s.jobs[id].filename))
  }

  /** The listing filtered down to candidates, in listing order. */
  function Candidates(listing: seq<Entry>, activeNames: set<string>): (r: seq<Entry>)
    ensures forall e :: e in r ==> e in listing && IsCandidate(e, activeNames)
    ensures forall e :: e in listing && IsCandidate(e, activeNames) ==> e in r
    decreases |listing|
  {
    if listing == [] then []
    else
      var last := listing[|listing| - 1];
      Candidates(listing[..|listing| - 1], activeNames) + (if IsCandidate(last, activeNames) then [last] else [])
  }

  /** Newest first: modification times never increase along the sequence. */
  predicate NewestFirst(s: seq<Entry>) {
    forall i, j :: 0 <= i < j < |s| ==> s[i].mtime >= s[j].mtime
  }

  /** Inserts `x` into a newest-first sequence in front of the first entry that is not newer than it. */
  function InsertByAge(x: Entry, s: seq<Entry>): (r: seq<Entry>)
    requires NewestFirst(s)
    ensures NewestFirst(r)
    ensures multiset(r) == multiset(s) + multiset{x}
    ensures |r| == |s| + 1
    ensures r[0] == x || (s != [] && r[0] == s[0])
  {
    if s == [] || s[0].mtime <= x.mtime then [x] + s
    else
      var rest := InsertByAge(x, s[1..]);
      assert s == [s[0]] + s[1..];
      assert rest[0].mtime <= s[0].mtime;
      [s[0]] + rest
  }

  /** `list.sort(key=mtime, reverse=True)`: newest first, entries with equal times kept in their input order. */
  function SortNewestFirst(s: seq<Entry>): (r: seq<Entry>)
    ensures NewestFirst(r)
    ensures multiset(r) == multiset(s)
    ensures |r| == |s|
    decreases |s|
  {
    if s == [] then []
    else
      assert s == [s[0]] + s[1..];
      InsertByAge(s[0], SortNewestFirst(s[1..]))
  }

  /** The entries with modification time `m`, in order. */
  function WithMtime(s: seq<Entry>, m: real): seq<Entry> {
    if s == [] then [] else (if s[0].mtime == m then [s[0]] else []) + WithMtime(s[1..], m)
  }

  lemma {:induction false} InsertByAgeStable(x: Entry, s: seq<Entry>, m: real)
    requires NewestFirst(s)
    ensures WithMtime(InsertByAge(x, s), m) == (if x.mtime == m then [x] else []) + WithMtime(s, m)
    decreases |s|
  {
    if s == [] || s[0].mtime <= x.mtime {
      WithMtimeCons(x, s, m);
    } else {
      InsertByAgeStable(x, s[1..], m);
      WithMtimeCons(s[0], InsertByAge(x, s[1..]), m);
    }
  }

  lemma WithMtimeCons(y: Entry, s: seq<Entry>, m: real)
    ensures WithMtime([y] + s, m) == (if y.mtime == m then [y] else []) + WithMtime(s, m)
  {
    assert ([y] + s)[1..] == s;
  }

  /** The sort is stable: for every time, the entries with that time keep their relative order. */
  lemma {:induction false} SortStable(s: seq<Entry>, m: real)
    ensures WithMtime(SortNewestFirst(s), m) == WithMtime(s, m)
    decreases |s|
  {
    if s != [] {
      SortStable(s[1..], m);
      InsertByAgeStable(s[0], SortNewestFirst(s[1..]), m);
    }
  }

  /** Python's `s[k:]`, where a negative `k` counts from the end. */
  function DropFirst<T>(s: seq<T>, k: int): (r: seq<T>)
    ensures k >= 0 ==> r == s[if k <= |s| then k else |s|..]
    ensures k < 0 ==> r == s[if |s| + k >= 0 then |s| + k else 0..]
  {
    if k >= 0 then (if k <= |s| then s[k..] else [])
    else s[if |s| + k >= 0 then |s| + k else 0..]
  }

  /** The entries `cleanup_old_videos` deletes from one folder. */
  function Doomed(listing: seq<Entry>, activeNames: set<string>, maxFiles: int): seq<Entry> {
    DropFirst(SortNewestFirst(Candidates(listing, activeNames)), maxFiles)
  }

  /** The candidates that survive: the first `maxFiles` of the newest-first order. */
  function Kept(listing: seq<Entry>, activeNames: set<string>, maxFiles: nat): seq<Entry> {
    var sorted := SortNewestFirst(Candidates(listing, activeNames));
    sorted[..if maxFiles <= |sorted| then maxFiles else |sorted|]
  }

  lemma DoomedAreCandidates(listing: seq<Entry>, activeNames: set<string>, maxFiles: int, e: Entry)
    requires e in Doomed(listing, activeNames, maxFiles)
    ensures e in listing && IsCandidate(e, activeNames)
  {
    var sorted := SortNewestFirst(Candidates(listing, activeNames));
    assert e in sorted;
    assert e in multiset(sorted);
  }

  lemma RetentionCounts(listing: seq<Entry>, activeNames: set<string>, maxFiles: nat)
    ensures var (c, d, k) := (Candidates(listing, activeNames), Doomed(listing, activeNames, maxFiles), Kept(listing, activeNames, maxFiles));
      && |k| == (if maxFiles <= |c| then maxFiles else |c|)
      && |d| == |c| - |k|
      && multiset(k) + multiset(d) == multiset(c)
  {
    var sorted := SortNewestFirst(Candidates(listing, activeNames));
    var n := if maxFiles <= |sorted| then maxFiles else |sorted|;
    assert Doomed(listing, activeNames, maxFiles) == sorted[n..];
    assert sorted == Kept(listing, activeNames, maxFiles) + Doomed(listing, activeNames, maxFiles);
  }

  lemma RetentionOrder(listing: seq<Entry>, activeNames: set<string>, maxFiles: nat)
    ensures var (d, k) := (Doomed(listing, activeNames, maxFiles), Kept(listing, activeNames, maxFiles));
      forall i, j :: 0 <= i < |d| && 0 <= j < |k| ==> d[i].mtime <= k[j].mtime
  {
    var sorted := SortNewestFirst(Candidates(listing, activeNames));
    var n := if maxFiles <= |sorted| then maxFiles else |sorted|;
    var d := Doomed(listing, activeNames, maxFiles);
    var k := Kept(listing, activeNames, maxFiles);
    assert d == sorted[n..] && k == sorted[..n];
    forall i, j | 0 <= i < |d| && 0 <= j < |k| ensures d[i].mtime <= k[j].mtime {
      assert d[i] == sorted[n + i] && k[j] == sorted[j];
    }
  }

  /**
   * Only candidates are deleted; for a non-negative limit, exactly `maxFiles` of them
   * survive (or all, when there are fewer), survivors and deletions together are the
   * candidates, and no deleted file is newer than any surviving one.
   */
  lemma RetentionSelection(listing: seq<Entry>, activeNames: set<string>, maxFiles: nat)
    ensures var (c, d, k) := (Candidates(listing, activeNames), Doomed(listing, activeNames, maxFiles), Kept(listing, activeNames, maxFiles));
      && (forall e :: e in d ==> e in listing && IsCandidate(e, activeNames))
      && |k| == (if maxFiles <= |c| then maxFiles else |c|)
      && |d| == |c| - |k|
      && multiset(k) + multiset(d) == multiset(c)
      && (forall i, j :: 0 <= i < |d| && 0 <= j < |k| ==> d[i].mtime <= k[j].mtime)
  {
    forall e | e in Doomed(listing, activeNames, maxFiles) ensures e in listing && IsCandidate(e, activeNames) {
      DoomedAreCandidates(listing, activeNames, maxFiles, e);
    }
    RetentionCounts(listing, activeNames, maxFiles);
    RetentionOrder(listing, activeNames, maxFiles);
  }

  /**
   * A queued job's own files are never deleted: its upload, its result, the
   * intermediate files named after it and the speed-adjusted result all contain its
   * file name, which is an active name.
   */
  lemma OwnFilesProtected(s: StoreState, id: string, listing: seq<Entry>, maxFiles: int, e: Entry)
    requires Protects(s, id)
    requires e in Doomed(listing, ActiveNames(s), maxFiles)
    ensures var f := s.jobs[id].filename;
      && e.name != InputFilename(id, f)
      && e.name != OutputFilename(id, f)
      && e.name != "speed_adj_" + OutputFilename(id, f)
      && e.name != "temp_ffmpeg_" + f + "_" + id + ".mp4"
      && e.name != "temp_opencv_" + f + "_" + id + ".avi"
  {
    var f := s.jobs[id].filename;
    var names := ActiveNames(s);
    assert f in names;
    DoomedAreCandidates(listing, names, maxFiles, e);
    OwnNamesContainFile(id, f);
  }

  /** Each of the names a job's files get contains the job's file name. */
  lemma OwnNamesContainFile(id: string, f: string)
    ensures IsSubstring(f, InputFilename(id, f))
    ensures IsSubstring(f, OutputFilename(id, f))
    ensures IsSubstring(f, "speed_adj_" + OutputFilename(id, f))
    ensures IsSubstring(f, "temp_ffmpeg_" + f + "_" + id + ".mp4")
    ensures IsSubstring(f, "temp_opencv_" + f + "_" + id + ".avi")
  {
    SuffixIsSubstring(id + "_", f);
    assert InputFilename(id, f) == id + "_" + f;
    SuffixIsSubstring("processed_", InputFilename(id, f));
    SubstringTransitive(f, InputFilename(id, f), OutputFilename(id, f));
    SuffixIsSubstring("speed_adj_", OutputFilename(id, f));
    SubstringTransitive(f, OutputFilename(id, f), "speed_adj_" + OutputFilename(id, f));
    PrefixIsSubstring("temp_ffmpeg_" + f, "_" + id + ".mp4");
    assert ("temp_ffmpeg_" + f) + ("_" + id + ".mp4") == "temp_ffmpeg_" + f + "_" + id + ".mp4";
    SuffixIsSubstring("temp_ffmpeg_", f);
    SubstringTransitive(f, "temp_ffmpeg_" + f, "temp_ffmpeg_" + f + "_" + id + ".mp4");
    PrefixIsSubstring("temp_opencv_" + f, "_" + id + ".avi");
    assert ("temp_opencv_" + f) + ("_" + id + ".avi") == "temp_opencv_" + f + "_" + id + ".avi";
    SuffixIsSubstring("temp_opencv_", f);
    SubstringTransitive(f, "temp_opencv_" + f, "temp_opencv_" + f + "_" + id + ".avi");
  }

  /** A needle holding a character the haystack lacks does not occur in it. */
  lemma AbsentCharNotSubstring(needle: string, hay: string, k: nat)
    requires k < |needle| && forall j :: 0 <= j < |hay| ==> hay[j] != needle[k]
    ensures !IsSubstring(needle, hay)
  {
    forall i: nat | i <= |hay|
      ensures !OccursAt(needle, hay, i)
    {
      if i + |needle| <= |hay| {
        assert hay[i..i + |needle|][k] == hay[i + k] != needle[k];
      }
    }
  }

  /**
   * The names a store collects when its only job, `j`, is queued for `a.mp4`.
   */
  lemma OneQueuedJobNames(s: StoreState)
    requires s.jobs == map["j" := Job("j", "a.mp4", FormOptions("none", "none", "1.0", "0", "1.0"), Queued, 0, QueuedMessage, None, None)]
    requires s.active == map["j" := false]
    ensures ActiveNames(s) == {"a.mp4", "j_a.mp4"}
  {
    assert Protects(s, "j");
    assert InputFilename("j", "a.mp4") == "j_a.mp4";
  }

  /**
   * The video-only intermediate `very_temp_v_<id>.mkv` of a running job is not named
   * after the job's file, so it is protected only when an active name happens to occur
   * in it: with job `j` queued for `a.mp4` and no other job, it is a candidate, and a
   * folder keeping no files deletes it.
   */
  lemma VideoOnlyTempUnprotected(s: StoreState, maxFiles: int)
    requires s.jobs == map["j" := Job("j", "a.mp4", FormOptions("none", "none", "1.0", "0", "1.0"), Queued, 0, QueuedMessage, None, None)]
    requires s.active == map["j" := false]
    requires maxFiles <= 0
    ensures var e := Entry("very_temp_v_j.mkv", 0.0, true);
      IsCandidate(e, ActiveNames(s)) && Doomed([e], ActiveNames(s), maxFiles) == [e]
  {
    OneQueuedJobNames(s);
    VideoOnlyTempCandidate(ActiveNames(s));
  }

  lemma VideoOnlyTempCandidate(names: set<string>)
    requires names == {"a.mp4", "j_a.mp4"}
    ensures IsCandidate(Entry("very_temp_v_j.mkv", 0.0, true), names)
  {
    var name := "very_temp_v_j.mkv";
    AbsentCharNotSubstring("a.mp4", name, 4);
    AbsentCharNotSubstring("j_a.mp4", name, 6);
    assert !IsSubstring(name, "a.mp4") && !IsSubstring(name, "j_a.mp4");
    assert !RelatedToActive(name, names);
    SplitExtOfPlainName(name, 13);
    assert SplitExt(name) == ".mkv";
    assert Lower(".mkv") == ".mkv";
  }

  /** Every upload that passes `allowed_file` is stored under a name the manager treats as a video. */
  lemma UploadIsVideo(id: string, original: string)
    requires AllowedFile(original)
    requires |id| > 0 && id[0] != '.'
    requires forall i :: 0 <= i < |id| ==> id[i] != '/' && id[i] != '.'
    requires forall i :: 0 <= i < |original| ==> original[i] != '/'
    ensures IsVideo(InputFilename(id, original)) && !IsHidden(InputFilename(id, original))
  {
    var d0 := LastIndex(original, '.').value;
    UploadExtension(id, original, d0);
    assert InputFilename(id, original) == id + "_" + original;
    AllowedIsVideoExtension(original[d0 + 1..]);
  }

  /** Every allowed upload extension, with its dot, is one the retention manager counts as a video. */
  lemma AllowedIsVideoExtension(ext: string)
    requires Lower(ext) in AllowedExtensions
    ensures Lower("." + ext) in VideoExtensions
  {
    LowerAppend(".", ext);
    var l := Lower(ext);
    assert Lower(".") == ".";
    if l == "mp4" { assert "." + l == ".mp4"; }
    else if l == "avi" { assert "." + l == ".avi"; }
    else if l == "mov" { assert "." + l == ".mov"; }
    else { assert "." + l == ".mkv"; }
  }

  /** The inner `any(...)` over the active names, as a loop that visits each name once. */
  method IsRelated(name: string, activeNames: set<string>) returns (related: bool)
    ensures related == RelatedToActive(name, activeNames)
  {
    related := false;
    var names := activeNames;
    while names != {}
      invariant names <= activeNames
      invariant related <==> exists a :: a in activeNames - names && (IsSubstring(a, name) || IsSubstring(name, a))
      decreases names
    {
      var a :| a in names;
      if IsSubstring(a, name) || IsSubstring(name, a) {
        related := true;
      }
      names := names - {a};
    }
  }

  /** Filtering one more listing entry appends it exactly when it is a candidate. */
  lemma CandidatesStep(listing: seq<Entry>, activeNames: set<string>, i: nat)
    requires i < |listing|
    ensures Candidates(listing[..i + 1], activeNames)
      == Candidates(listing[..i], activeNames) + (if IsCandidate(listing[i], activeNames) then [listing[i]] else [])
  {
    assert listing[..i + 1][..i] == listing[..i];
  }

  /**
   * The selection part of `cleanup_old_videos` for one folder: filter the listing
   * entry by entry, sort newest first, and cut after the first `maxFiles`.
   */
  method SelectForDeletion(listing: seq<Entry>, activeNames: set<string>, maxFiles: int) returns (doomed: seq<Entry>)
    ensures doomed == Doomed(listing, activeNames, maxFiles)
    ensures forall e :: e in doomed ==> e in listing && IsCandidate(e, activeNames)
  {
    var candidates: seq<Entry> := [];
    var i := 0;
    while i < |listing|
      invariant 0 <= i <= |listing|
      invariant candidates == Candidates(listing[..i], activeNames)
    {
      var e := listing[i];
      CandidatesStep(listing, activeNames, i);
      if !IsHidden(e.name) && IsVideo(e.name) && e.isFile {
        var related := IsRelated(e.name, activeNames);
        if !related {
          candidates := candidates + [e];
        }
      }
      i := i + 1;
    }
    assert listing[..|listing|] == listing;
    doomed := DropFirst(SortNewestFirst(candidates), maxFiles);
    forall e | e in doomed ensures e in listing && IsCandidate(e, activeNames) {
      DoomedAreCandidates(listing, activeNames, maxFiles, e);
    }
  }

  /** The `active_filenames` loop over `active_jobs`, reading each job's record. */
  method ActiveFilenames(store: JobStore) returns (names: set<string>)
    ensures names == ActiveNames(store.Model())
  {
    var s := store.Model();
    names := {};
    var todo := store.active.Keys;
    while todo != {}
      invariant todo <= s.active.Keys
      invariant names ==
        (set id | id in s.active && id !in todo && Protects(s, id) :: s.jobs[id].filename)
        + (set id | id in s.active && id !in todo && Protects(s, id) :: InputFilename(id, s.jobs[id].filename))
      decreases todo
    {
      var id :| id in todo;
      var job := store.GetJobStatus(id);
      if job.Some? && (job.value.status == Queued || job.value.status == Processing) {
        var filename := job.value.filename;
        if filename != "" {
          names := names + {filename, InputFilename(id, filename)};
        }
      }
      todo := todo - {id};
    }
  }

  /** The paths of some entries of `folder`. */
  function PathsIn(folder: string, entries: seq<Entry>): set<string> {
    set e | e in entries :: Join(folder, e.name)
  }

  lemma PathsInAppend(folder: string, entries: seq<Entry>, e: Entry)
    ensures PathsIn(folder, entries + [e]) == PathsIn(folder, entries) + {Join(folder, e.name)}
  {
  }

  /** The deletion loop: removes each doomed entry's path; a failed deletion is skipped. */
  method RemoveEntries(fs: FileSystem, folder: string, doomed: seq<Entry>)
    modifies fs
    ensures fs.files == old(fs.files) - PathsIn(folder, doomed)
  {
    var i := 0;
    while i < |doomed|
      invariant 0 <= i <= |doomed|
      invariant fs.files == old(fs.files) - PathsIn(folder, doomed[..i])
    {
      fs.Remove(Join(folder, doomed[i].name));
      assert doomed[..i + 1] == doomed[..i] + [doomed[i]];
      PathsInAppend(folder, doomed[..i], doomed[i]);
      i := i + 1;
    }
    assert doomed[..|doomed|] == doomed;
  }

  /**
   * The files once one folder is cleaned: exactly the doomed entries' paths are gone,
   * every other file keeps its size; a folder that does not exist (`None`) changes nothing.
   */
  function AfterFolder(files: map<string, nat>, folder: string, listing: Option<seq<Entry>>,
                       activeNames: set<string>, maxFiles: int): (r: map<string, nat>)
    ensures forall p :: p in r <==> p in files && !(listing.Some? && p in PathsIn(folder, Doomed(listing.value, activeNames, maxFiles)))
    ensures forall p :: p in r ==> r[p] == files[p]
  {
    if listing.Some? then files - PathsIn(folder, Doomed(listing.value, activeNames, maxFiles)) else files
  }

  /** One folder of `cleanup_old_videos`; `None` stands for a folder that does not exist. */
  method CleanFolder(fs: FileSystem, folder: string, listing: Option<seq<Entry>>, activeNames: set<string>, maxFiles: int)
    modifies fs
    ensures fs.files == AfterFolder(old(fs.files), folder, listing, activeNames, maxFiles)
  {
    if listing.Some? {
      var doomed := SelectForDeletion(listing.value, activeNames, maxFiles);
      RemoveEntries(fs, folder, doomed);
    }
  }

  /**
   * `cleanup_old_videos`: the protected names are collected once, then the upload
   * folder and the processed folder are cleaned in turn (`None` for a folder that
   * does not exist).
   */
  method CleanupOldVideos(store: JobStore, fs: FileSystem, uploads: Option<seq<Entry>>, processed: Option<seq<Entry>>, maxFiles: int)
    modifies fs
    ensures var names := ActiveNames(store.Model());
      fs.files == AfterFolder(AfterFolder(old(fs.files), UploadFolder, uploads, names, maxFiles),
                              ProcessedFolder, processed, names, maxFiles)
  {
    var names := ActiveFilenames(store);
    CleanFolder(fs, UploadFolder, uploads, names, maxFiles);
    CleanFolder(fs, ProcessedFolder, processed, names, maxFiles);
  }
}

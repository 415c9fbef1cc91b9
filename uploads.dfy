/** The upload check and the names under which an upload and its result are stored. */
module Uploads {
  import opened Common
  import opened Paths

  const UploadFolder := "static/uploads"
  const ProcessedFolder := "static/processed"
  const AllowedExtensions: set<string> := {"mp4", "avi", "mov", "mkv"}
  /** Number of videos kept per folder by the retention manager. */
  const MaxStoredVideos := 3

  /** `allowed_file`: there is a dot, and the text after the last dot, lower-cased, is an allowed extension. */
  predicate AllowedFile(filename: string) {
    match LastIndex(filename, '.')
    case None => false
    case Some(d) => Lower(filename[d + 1..]) in AllowedExtensions
  }

  /** The allow-list decision depends on nothing but the text after the last dot. */
  lemma AllowedFileByExtension(stem: string, ext: string)
    requires forall i :: 0 <= i < |ext| ==> ext[i] != '.'
    ensures AllowedFile(stem + "." + ext) <==> Lower(ext) in AllowedExtensions
  {
    var f := stem + "." + ext;
    LastIndexAt(f, '.', |stem|);
    assert f[|stem| + 1..] == ext;
  }

  /** A name without a dot is never accepted, whatever it ends with. */
  lemma NoDotRejected(filename: string)
    requires forall i :: 0 <= i < |filename| ==> filename[i] != '.'
    ensures !AllowedFile(filename)
  {
  }

  /** Name of the stored upload: the job id, an underscore, the client's file name. */
  function InputFilename(jobId: string, original: string): (r: string)
    ensures |r| == |jobId| + 1 + |original|
    ensures r[..|jobId|] == jobId && r[|jobId|] == '_' && r[|jobId| + 1..] == original
  {
    jobId + "_" + original
  }

  /** Name of the processed result: `processed_` in front of the upload's name. */
  function OutputFilename(jobId: string, original: string): (r: string)
    ensures |r| == 10 + |InputFilename(jobId, original)|
    ensures r[..10] == "processed_" && r[10..] == InputFilename(jobId, original)
  {
    "processed_" + InputFilename(jobId, original)
  }

  /**
   * Job ids without underscores (the service uses UUID strings) make the stored upload
   * name determine both the job id and the client's file name.
   */
  lemma {:induction false} InputFilenameInjective(id1: string, o1: string, id2: string, o2: string)
    requires forall i :: 0 <= i < |id1| ==> id1[i] != '_'
    requires forall i :: 0 <= i < |id2| ==> id2[i] != '_'
    requires InputFilename(id1, o1) == InputFilename(id2, o2)
    ensures id1 == id2 && o1 == o2
  {
    var n := InputFilename(id1, o1);
    assert |id1| == |id2| by {
      if |id1| < |id2| {
        assert false;
      } else if |id2| < |id1| {
        assert false;
      }
    }
    assert id1 == n[..|id1|] == id2;
    assert o1 == n[|id1| + 1..] == o2;
  }

  /** Distinct jobs never share a result name either. */
  lemma OutputFilenameInjective(id1: string, o1: string, id2: string, o2: string)
    requires forall i :: 0 <= i < |id1| ==> id1[i] != '_'
    requires forall i :: 0 <= i < |id2| ==> id2[i] != '_'
    requires OutputFilename(id1, o1) == OutputFilename(id2, o2)
    ensures id1 == id2 && o1 == o2
  {
    assert InputFilename(id1, o1) == OutputFilename(id1, o1)[10..];
    InputFilenameInjective(id1, o1, id2, o2);
  }

  /** A dot at position `k` followed by the rest of the text. */
  lemma DotSplit(s: string, k: nat)
    requires k < |s| && s[k] == '.'
    ensures s[k..] == "." + s[k + 1..]
  {
  }

  /** Where the separators and dots of a stored upload name can be. */
  lemma UploadNameChars(id: string, original: string, d0: nat)
    requires d0 < |original| && original[d0] == '.'
    requires forall j :: d0 < j < |original| ==> original[j] != '.'
    requires |id| > 0 && id[0] != '.'
    requires forall i :: 0 <= i < |id| ==> id[i] != '/'
    requires forall i :: 0 <= i < |original| ==> original[i] != '/'
    ensures 0 < |id| + 1 + d0 < |id + "_" + original|
    ensures (id + "_" + original)[|id| + 1 + d0] == '.' && (id + "_" + original)[0] != '.'
    ensures forall j :: |id| + 1 + d0 < j < |id + "_" + original| ==> (id + "_" + original)[j] != '.'
    ensures forall j :: 0 <= j < |id + "_" + original| ==> (id + "_" + original)[j] != '/'
  {
    var name := id + "_" + original;
    assert name[|id| + 1 + d0] == original[d0] && name[0] == id[0];
    forall j | 0 <= j < |name| ensures name[j] != '/' {
      if j < |id| { assert name[j] == id[j]; }
      else if j > |id| { assert name[j] == original[j - |id| - 1]; }
    }
    forall j | |id| + 1 + d0 < j < |name| ensures name[j] != '.' {
      assert name[j] == original[j - |id| - 1];
    }
  }

  /** The extension of a stored upload name is the extension of the client's file name. */
  lemma UploadExtension(id: string, original: string, d0: nat)
    requires LastIndex(original, '.') == Some(d0)
    requires |id| > 0 && id[0] != '.'
    requires forall i :: 0 <= i < |id| ==> id[i] != '/' && id[i] != '.'
    requires forall i :: 0 <= i < |original| ==> original[i] != '/'
    ensures SplitExt(id + "_" + original) == "." + original[d0 + 1..]
  {
    UploadNameExtension(id, original, d0);
    SuffixAfterId(id, original, d0);
    DotSplit(original, d0);
  }

  /** The extension of a stored upload name starts at the last dot of the client's file name. */
  lemma UploadNameExtension(id: string, original: string, d0: nat)
    requires LastIndex(original, '.') == Some(d0)
    requires |id| > 0 && id[0] != '.'
    requires forall i :: 0 <= i < |id| ==> id[i] != '/' && id[i] != '.'
    requires forall i :: 0 <= i < |original| ==> original[i] != '/'
    ensures SplitExt(id + "_" + original) == (id + "_" + original)[|id| + 1 + d0..]
  {
    UploadNameChars(id, original, d0);
    SplitExtOfPlainName(id + "_" + original, |id| + 1 + d0);
  }

  /** The stored name ends with every suffix of the client's file name. */
  lemma SuffixAfterId(id: string, original: string, k: nat)
    requires k <= |original|
    ensures (id + "_" + original)[|id| + 1 + k..] == original[k..]
  {
    assert id + "_" + original == (id + "_") + original;
  }
}

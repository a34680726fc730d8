/** The file names the interactive cropper works with: which dropped files
    it opens, how the drop data is unwrapped, and the name it proposes when
    a crop is saved. */
module CropperFiles {
  import opened Common
  import opened Paths
  import opened Numerals
  import opened FileSelection

  /** `valid_extensions` of `_is_valid_file_path`. */
  const ValidExtensions: seq<string> := [".png", ".jpg", ".jpeg", ".webp", ".bmp", ".gif", ".tiff"]

  /** `file_path.lower().endswith(valid_extensions)`: the lower-cased path
      ends with one of the seven extensions. */
  predicate IsValidFilePath(path: string)
  {
    exists i :: 0 <= i < |ValidExtensions| && EndsWith(Lower(path), ValidExtensions[i])
  }

  /** Every file the batch tools pick up is one the cropper opens. */
  lemma SupportedIsValid(name: string)
    requires IsSupported(name)
    ensures IsValidFilePath(name)
  {
    var (stem, ext) := Splitext(name);
    assert name[|stem|..] == ext;
    LowerSuffix(name, |stem|);
    var e := Lower(ext);
    assert EndsWith(Lower(name), e);
    assert e in SupportedFormats;
    if e == ".png" {
      assert EndsWith(Lower(name), ValidExtensions[0]);
    } else if e == ".jpg" {
      assert EndsWith(Lower(name), ValidExtensions[1]);
    } else if e == ".jpeg" {
      assert EndsWith(Lower(name), ValidExtensions[2]);
    } else {
      assert EndsWith(Lower(name), ValidExtensions[3]);
    }
  }

  /** The converse fails: the cropper opens a file called ".png", which
      the batch tools skip because it has no extension. */
  lemma ValidNotSupported()
    ensures IsValidFilePath(".png") && !IsSupported(".png")
  {
    DotFileIsSkipped();
    assert Lower(".png") == ".png";
    assert EndsWith(Lower(".png"), ValidExtensions[0]);
  }

  /** `_get_dropped_file_path`: drop data wrapped in braces (a path with
      spaces on Windows) loses its first and last character; anything else
      is kept as it is. */
  function DroppedFilePath(data: string): (path: string)
    ensures path == data || data == "{" + path + "}"
    ensures (data == [] || data[0] != '{') ==> path == data
  {
    if StartsWith(data, "{") && EndsWith(data, "}") then
      assert data[0] == '{' && data[|data| - 1] == '}';
      assert data == "{" + data[1..|data| - 1] + "}";
      data[1..|data| - 1]
    else data
  }

  /** A path wrapped in braces is recovered exactly. */
  lemma DroppedUnwraps(path: string)
    ensures DroppedFilePath("{" + path + "}") == path
  {
    var data := "{" + path + "}";
    assert StartsWith(data, "{") && EndsWith(data, "}");
    assert data[1..|data| - 1] == path;
  }

  /** `os.path.basename`: what follows the last separator. */
  function Basename(p: string): (r: string)
    ensures EndsWith(p, r)
    ensures forall j :: 0 <= j < |r| ==> r[j] != '/'
  {
    p[LastIndexOf(p, '/') + 1..]
  }

  /** `_generate_base_filename`: the file name of the open image without
      its extension, or "cropped" when no path is set. */
  function BaseFilename(currentFilePath: Option<string>): (r: string)
    ensures currentFilePath.None? || currentFilePath.value == [] ==> r == "cropped"
    ensures currentFilePath.Some? && currentFilePath.value != [] ==>
      r + Ext(Basename(currentFilePath.value)) == Basename(currentFilePath.value)
    ensures forall j :: 0 <= j < |r| ==> r[j] != '/'
  {
    if currentFilePath.Some? && currentFilePath.value != [] then
      var b := Basename(currentFilePath.value);
      assert forall j :: 0 <= j < |Stem(b)| ==> Stem(b)[j] == b[j];
      Stem(b)
    else "cropped"
  }

  /** The k-th name `_generate_unique_filepath` tries: `<base>_cropped.png`
      first, then `<base>_cropped_001.png`, `<base>_cropped_002.png`, ...
      (at least three digits). */
  function CandidateName(baseName: string, k: nat): (r: string)
    ensures r != [] && r[0] == (if baseName == [] then '_' else baseName[0])
  {
    if k == 0 then baseName + "_cropped.png"
    else baseName + "_cropped_" + Pad3(k) + ".png"
  }

  function Candidate(directory: string, baseName: string, k: nat): string
  {
    Join(directory, CandidateName(baseName, k))
  }

  /** Different counters give different names. */
  lemma CandidateNameInjective(baseName: string, i: nat, j: nat)
    requires i != j
    ensures CandidateName(baseName, i) != CandidateName(baseName, j)
  {
    if i != 0 && j != 0 {
      var p := baseName + "_cropped_";
      var a, b := CandidateName(baseName, i), CandidateName(baseName, j);
      if a == b {
        assert a[|p|..|a| - 4] == Pad3(i);
        assert b[|p|..|b| - 4] == Pad3(j);
        Pad3Injective(i, j);
      }
    }
  }

  /** Joining two names that start with the same character to one
      directory gives one path only if the names are the same. */
  lemma JoinInjective(dir: string, a: string, b: string)
    requires a != [] && b != [] && a[0] == b[0]
    requires Join(dir, a) == Join(dir, b)
    ensures a == b
  {
    if a[0] != '/' {
      var pa := Join(dir, a);
      var k := |pa| - |a|;
      assert pa[k..] == a;
      assert pa[k..] == b;
    }
  }

  /** Different counters give different paths. */
  lemma CandidateInjective(directory: string, baseName: string, i: nat, j: nat)
    requires i != j
    ensures Candidate(directory, baseName, i) != Candidate(directory, baseName, j)
  {
    CandidateNameInjective(baseName, i, j);
    if Candidate(directory, baseName, i) == Candidate(directory, baseName, j) {
      JoinInjective(directory, CandidateName(baseName, i), CandidateName(baseName, j));
    }
  }

  /** The candidates tried before the n-th. */
  function CandidatesBelow(directory: string, baseName: string, n: nat): set<string>
  {
    set j: nat | j < n :: Candidate(directory, baseName, j)
  }

  /** A later candidate is none of the earlier ones. */
  lemma CandidateFresh(directory: string, baseName: string, m: nat, n: nat)
    requires n <= m
    ensures Candidate(directory, baseName, m) !in CandidatesBelow(directory, baseName, n)
  {
    if Candidate(directory, baseName, m) in CandidatesBelow(directory, baseName, n) {
      var j: nat :| j < n && Candidate(directory, baseName, j) == Candidate(directory, baseName, m);
      CandidateInjective(directory, baseName, j, m);
    }
  }

  /** Trying one more candidate adds it to those tried. */
  lemma CandidatesStep(directory: string, baseName: string, n: nat)
    ensures CandidatesBelow(directory, baseName, n + 1)
      == CandidatesBelow(directory, baseName, n) + {Candidate(directory, baseName, n)}
  {
    var below, next := CandidatesBelow(directory, baseName, n), CandidatesBelow(directory, baseName, n + 1);
    forall x | x in next
      ensures x in below + {Candidate(directory, baseName, n)}
    {
      var j: nat :| j < n + 1 && x == Candidate(directory, baseName, j);
      if j < n {
        assert x in below;
      }
    }
  }

  /** Finding the n-th candidate taken adds it to the existing paths
      tried, and leaves fewer existing paths untried. */
  lemma TryNext(directory: string, baseName: string, existing: set<string>, n: nat)
    requires CandidatesBelow(directory, baseName, n) <= existing
    requires Candidate(directory, baseName, n) in existing
    ensures CandidatesBelow(directory, baseName, n + 1) <= existing
    ensures |existing - CandidatesBelow(directory, baseName, n + 1)| < |existing - CandidatesBelow(directory, baseName, n)|
  {
    var left := existing - CandidatesBelow(directory, baseName, n);
    CandidateFresh(directory, baseName, n, n);
    CandidatesStep(directory, baseName, n);
    assert existing - CandidatesBelow(directory, baseName, n + 1) == left - {Candidate(directory, baseName, n)};
  }

  /** Every candidate tried exists. */
  lemma TriedExist(directory: string, baseName: string, existing: set<string>, n: nat)
    requires CandidatesBelow(directory, baseName, n) <= existing
    ensures forall j: nat :: j < n ==> Candidate(directory, baseName, j) in existing
  {
    forall j: nat | j < n
      ensures Candidate(directory, baseName, j) in existing
    {
      assert Candidate(directory, baseName, j) in CandidatesBelow(directory, baseName, n);
    }
  }

  /** `_generate_unique_filepath`, with `os.path.exists` as membership in
      `existing`. With no directory the name is `<base>.png` whether or not
      it exists. Otherwise the result is the first candidate that does not
      exist: every earlier candidate exists. The loop ends because each
      pass finds one more existing path. */
  method GenerateUniqueFilePath(directory: string, baseName: string, existing: set<string>) returns (path: string)
    ensures directory == [] ==> path == baseName + ".png"
    ensures directory != [] ==> path !in existing
    ensures directory != [] ==> exists k: nat ::
      (path == Candidate(directory, baseName, k) && forall j: nat :: j < k ==> Candidate(directory, baseName, j) in existing)
  {
    if directory == [] {
      return baseName + ".png";
    }
    path := Join(directory, baseName + "_cropped.png");
    var counter := 1;
    while path in existing
      invariant 1 <= counter
      invariant path == Candidate(directory, baseName, counter - 1)
      invariant CandidatesBelow(directory, baseName, counter - 1) <= existing
      decreases |existing - CandidatesBelow(directory, baseName, counter - 1)|
    {
      TryNext(directory, baseName, existing, counter - 1);
      path := Join(directory, baseName + "_cropped_" + Pad3(counter) + ".png");
      counter := counter + 1;
    }
    TriedExist(directory, baseName, existing, counter - 1);
  }
}

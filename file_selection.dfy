/** Which files a batch run touches and what it calls its outputs: the
    case-insensitive extension filter over a directory listing, `sorted(...)`
    and `[::2]` for the flip run, and `splitext(name)[0] + ".png"` for the
    resize run. */
module FileSelection {
  import opened Paths

  /** `supported_formats` of both batch tools. */
  const SupportedFormats: set<string> := {".jpg", ".jpeg", ".png", ".webp"}

  predicate IsSupported(name: string)
  {
    Lower(Ext(name)) in SupportedFormats
  }

  /** `[f for f in listing if splitext(f)[1].lower() in supported_formats]` */
  function FilterSupported(listing: seq<string>): (r: seq<string>)
    ensures |r| <= |listing|
    ensures forall x :: x in r <==> x in listing && IsSupported(x)
  {
    if listing == [] then []
    else if IsSupported(listing[0]) then [listing[0]] + FilterSupported(listing[1..])
    else FilterSupported(listing[1..])
  }

  /** The filter keeps the listing's order: filtering a listing split in two
      is filtering each part and putting them back in the same order. */
  lemma {:induction false} FilterSupportedKeepsOrder(a: seq<string>, b: seq<string>)
    ensures FilterSupported(a + b) == FilterSupported(a) + FilterSupported(b)
  {
    if a == [] {
      assert a + b == b;
    } else {
      var ab := a + b;
      assert ab[0] == a[0] && ab[1..] == a[1..] + b;
      FilterSupportedKeepsOrder(a[1..], b);
      var h := if IsSupported(a[0]) then [a[0]] else [];
      AppendAssoc(h, FilterSupported(a[1..]), FilterSupported(b));
    }
  }

  /** Concatenation is associative; stated on its own so that the proof
      above sees nothing else. */
  lemma AppendAssoc(h: seq<string>, f: seq<string>, g: seq<string>)
    ensures h + (f + g) == (h + f) + g
  {
  }

  /** A listing of one name keeps it exactly when it is supported. */
  lemma FilterSupportedSingle(x: string)
    ensures FilterSupported([x]) == if IsSupported(x) then [x] else []
  {
    assert [x][1..] == [];
  }

  /** A name whose extension is the empty string is never selected: ".png"
      has no extension, so it is skipped although it ends in ".png". */
  lemma DotFileIsSkipped()
    ensures Splitext(".png") == (".png", "")
    ensures !IsSupported(".png")
  {
    var p := ".png";
    assert LastIndexOf(p, '.') == 0 by {
      assert p[0] == '.' && p[1] != '.' && p[2] != '.' && p[3] != '.';
    }
    assert LastIndexOf(p, '/') == -1 by {
      assert p[0] != '/' && p[1] != '/' && p[2] != '/' && p[3] != '/';
    }
    assert Lower("") == "";
  }

  // ---------------------------------------------------------------- sorting

  /** Python's ordering of `str` values: lexicographic by code point. */
  predicate LessEq(a: string, b: string)
  {
    a == [] || (b != [] && (a[0] < b[0] || (a[0] == b[0] && LessEq(a[1..], b[1..]))))
  }

  lemma {:induction false} LessEqTotal(a: string, b: string)
    ensures LessEq(a, b) || LessEq(b, a)
  {
    if a != [] && b != [] && a[0] == b[0] {
      LessEqTotal(a[1..], b[1..]);
    }
  }

  lemma {:induction false} LessEqTransitive(a: string, b: string, c: string)
    requires LessEq(a, b) && LessEq(b, c)
    ensures LessEq(a, c)
  {
    if a != [] && a[0] == b[0] && b[0] == c[0] {
      LessEqTransitive(a[1..], b[1..], c[1..]);
    }
  }

  predicate Sorted(s: seq<string>)
  {
    forall i :: 0 < i < |s| ==> LessEq(s[i - 1], s[i])
  }

  function Insert(x: string, s: seq<string>): (r: seq<string>)
    ensures multiset(r) == multiset(s) + multiset{x}
    ensures |r| == |s| + 1
  {
    if s == [] then [x]
    else if LessEq(x, s[0]) then [x] + s
    else
      assert s == [s[0]] + s[1..];
      [s[0]] + Insert(x, s[1..])
  }

  /** `sorted(names)` (insertion sort; the sorted arrangement of a multiset of
      strings is unique, so any correct sort gives the same list). */
  function SortNames(s: seq<string>): (r: seq<string>)
    ensures multiset(r) == multiset(s)
    ensures |r| == |s|
  {
    if s == [] then []
    else
      assert s == [s[0]] + s[1..];
      Insert(s[0], SortNames(s[1..]))
  }

  lemma {:induction false} InsertSorted(x: string, s: seq<string>)
    requires Sorted(s)
    ensures Sorted(Insert(x, s))
    ensures s != [] ==> Insert(x, s)[0] == x || Insert(x, s)[0] == s[0]
  {
    if s != [] && !LessEq(x, s[0]) {
      LessEqTotal(x, s[0]);
      InsertSorted(x, s[1..]);
    }
  }

  /** `sorted` returns its input rearranged into non-decreasing order. */
  lemma {:induction false} SortNamesSorted(s: seq<string>)
    ensures Sorted(SortNames(s))
    ensures multiset(SortNames(s)) == multiset(s)
  {
    if s != [] {
      SortNamesSorted(s[1..]);
      InsertSorted(s[0], SortNames(s[1..]));
    }
  }

  /** Sortedness between neighbours extends to every pair. */
  lemma SortedPairwise(s: seq<string>, i: nat, j: nat)
    requires Sorted(s) && i <= j < |s|
    ensures LessEq(s[i], s[j])
    decreases j - i
  {
    if i == j {
      LessEqTotal(s[i], s[i]);
    } else {
      SortedPairwise(s, i, j - 1);
      LessEqTransitive(s[i], s[j - 1], s[j]);
    }
  }

  // ---------------------------------------------------------------- [::2]

  /** `s[::2]`: the elements at indices 0, 2, 4, ... */
  function EveryOther<T>(s: seq<T>): (r: seq<T>)
    decreases |s|
  {
    if s == [] then [] else [s[0]] + EveryOther(if |s| >= 2 then s[2..] else [])
  }

  lemma {:induction false} EveryOtherSpec<T>(s: seq<T>)
    ensures |EveryOther(s)| == (|s| + 1) / 2
    ensures forall k :: 0 <= k < |EveryOther(s)| ==> EveryOther(s)[k] == s[2 * k]
    decreases |s|
  {
    if s != [] {
      var rest := if |s| >= 2 then s[2..] else [];
      EveryOtherSpec(rest);
      var r := EveryOther(s);
      assert r == [s[0]] + EveryOther(rest);
      forall k | 0 < k < |r|
        ensures r[k] == s[2 * k]
      {
        assert r[k] == EveryOther(rest)[k - 1] == rest[2 * (k - 1)];
      }
    }
  }

  /** The files of the flip run: `sorted(filtered)[::2]`. */
  function FlipSelection(listing: seq<string>): seq<string>
  {
    EveryOther(SortNames(FilterSupported(listing)))
  }

  /** The flip run takes ceil(n/2) supported files: the first, third, fifth,
      ... of them in sorted order. */
  lemma FlipSelectionSpec(listing: seq<string>)
    ensures var files := SortNames(FilterSupported(listing));
      && Sorted(files)
      && multiset(files) == multiset(FilterSupported(listing))
      && |FlipSelection(listing)| == (|files| + 1) / 2
      && forall k :: 0 <= k < |FlipSelection(listing)| ==> FlipSelection(listing)[k] == files[2 * k]
  {
    var files := SortNames(FilterSupported(listing));
    SortNamesSorted(FilterSupported(listing));
    EveryOtherSpec(files);
  }

  // ---------------------------------------------------------------- output names

  /** `os.path.splitext(filename)[0] + ".png"` */
  function OutputName(name: string): string
  {
    Stem(name) + ".png"
  }

  /** The output keeps the stem and ends in ".png"; for a selected input,
      splitting the output name again gives back exactly that stem and ".png",
      so the output is itself a supported PNG name. */
  lemma OutputNameSpec(name: string)
    ensures StartsWith(OutputName(name), Stem(name))
    ensures EndsWith(OutputName(name), ".png")
    ensures IsSupported(name) ==> Splitext(OutputName(name)) == (Stem(name), ".png")
    ensures IsSupported(name) ==> IsSupported(OutputName(name))
  {
    var stem := Stem(name);
    var q := OutputName(name);
    assert q[..|stem|] == stem;
    assert q[|q| - 4..] == ".png";
    if IsSupported(name) {
      assert Ext(name) != [] by {
        assert Lower([]) == [];
      }
      var dot := LastIndexOf(name, '.');
      var sep := LastIndexOf(name, '/');
      assert stem == name[..dot];
      var j :| sep + 1 <= j < dot && name[j] != '.';
      assert q[|stem|] == '.' && q[|stem| + 1] != '.' && q[|stem| + 2] != '.' && q[|stem| + 3] != '.';
      assert LastIndexOf(q, '.') == |stem|;
      assert q[|stem|] != '/' && q[|stem| + 1] != '/' && q[|stem| + 2] != '/' && q[|stem| + 3] != '/';
      assert forall i :: 0 <= i < |stem| ==> q[i] == name[i];
      assert LastIndexOf(q, '/') == sep;
      assert q[j] != '.';
      assert Splitext(q) == (q[..|stem|], q[|stem|..]);
      assert q[|stem|..] == ".png";
      assert Lower(".png") == ".png";
    }
  }
}

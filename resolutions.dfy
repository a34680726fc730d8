/** The target-resolution catalogue shared by both batch tools and the
    automatic choice of the catalogue entry whose aspect ratio is closest to
    an image's. */
module Resolutions {
  import opened Common

  datatype Size = Size(width: nat, height: nat)

  predicate Positive(s: Size) { s.width > 0 && s.height > 0 }

  /** One entry of `TARGET_RESOLUTIONS`: a bucket name and its landscape and
      portrait variants. */
  datatype Bucket = Bucket(name: string, variants: seq<Size>)

  /** `TARGET_RESOLUTIONS`, in dictionary (insertion) order. */
  const TargetResolutions: seq<Bucket> := [
    Bucket("1024:1024", [Size(1024, 1024)]),
    Bucket("832/1216", [Size(1216, 832), Size(832, 1216)]),
    Bucket("768/1344", [Size(1344, 768), Size(768, 1344)]),
    Bucket("896/1152", [Size(1152, 896), Size(896, 1152)])
  ]

  /** The variants of the buckets, bucket after bucket. */
  function Flatten(buckets: seq<Bucket>): seq<Size>
  {
    if buckets == [] then []
    else Flatten(buckets[..|buckets| - 1]) + buckets[|buckets| - 1].variants
  }

  /** Every (width, height) the catalogue offers, in the order the search
      visits them. */
  function Candidates(): (r: seq<Size>)
    ensures |r| == 7 && AllPositive(r)
  {
    [Size(1024, 1024), Size(1216, 832), Size(832, 1216), Size(1344, 768),
     Size(768, 1344), Size(1152, 896), Size(896, 1152)]
  }

  lemma FlattenStep(buckets: seq<Bucket>, b: nat)
    requires b < |buckets|
    ensures Flatten(buckets[..b + 1]) == Flatten(buckets[..b]) + buckets[b].variants
  {
    assert buckets[..b + 1][..b] == buckets[..b];
  }

  /** The seven candidates are exactly the catalogue's variants, bucket by
      bucket in dictionary order. */
  lemma CandidatesFlattenCatalogue()
    ensures Flatten(TargetResolutions) == Candidates()
  {
    var t := TargetResolutions;
    assert t[..0] == [];
    FlattenStep(t, 0);
    FlattenStep(t, 1);
    FlattenStep(t, 2);
    FlattenStep(t, 3);
    assert t[..4] == t;
  }

  /** Every landscape variant has its portrait mirror in the same bucket. */
  lemma BucketsAreMirrorPairs()
    ensures forall b :: b in TargetResolutions && |b.variants| == 2 ==>
      b.variants[0].width > b.variants[0].height &&
      b.variants[1] == Size(b.variants[0].height, b.variants[0].width)
  {
  }

  function Ratio(s: Size): real
    requires s.height > 0
  {
    s.width as real / s.height as real
  }

  /** `abs(original_ratio - target_ratio)` */
  function Score(ratio: real, c: Size): real
    requires c.height > 0
  {
    Abs(ratio - Ratio(c))
  }

  predicate AllPositive(cands: seq<Size>) { forall i :: 0 <= i < |cands| ==> Positive(cands[i]) }

  /** Index the strict-`<` scan over `cands` ends on: the first entry of
      least score. */
  function BestIndex(ratio: real, cands: seq<Size>): (k: nat)
    requires |cands| > 0 && AllPositive(cands)
    ensures k < |cands|
    ensures forall j :: 0 <= j < |cands| ==> Score(ratio, cands[k]) <= Score(ratio, cands[j])
    ensures forall j :: 0 <= j < k ==> Score(ratio, cands[k]) < Score(ratio, cands[j])
  {
    if |cands| == 1 then 0
    else
      var b := BestIndex(ratio, cands[..|cands| - 1]);
      if Score(ratio, cands[|cands| - 1]) < Score(ratio, cands[b]) then |cands| - 1 else b
  }

  /** The first minimum is the only index that is a minimum and beats every
      earlier entry strictly. */
  lemma FirstMinimumUnique(ratio: real, cands: seq<Size>, k: nat)
    requires |cands| > 0 && AllPositive(cands) && k < |cands|
    requires forall j :: 0 <= j < |cands| ==> Score(ratio, cands[k]) <= Score(ratio, cands[j])
    requires forall j :: 0 <= j < k ==> Score(ratio, cands[k]) < Score(ratio, cands[j])
    ensures k == BestIndex(ratio, cands)
  {
  }

  /** The resolution `find_best_resolution(width, height)` returns. */
  function BestResolution(width: nat, height: nat): (r: Size)
    requires height > 0
    ensures r in Candidates()
    ensures Positive(r)
  {
    Candidates()[BestIndex(width as real / height as real, Candidates())]
  }

  /** Every variant in the catalogue has positive sides. */
  lemma CatalogueEntriesPositive()
    ensures BucketsPositive(TargetResolutions)
  {
  }

  /** What the scan knows after visiting `seen`: whether anything was
      visited (`best_score` is finite), and that `best` is the first entry of
      least score so far with `best_score` its score. */
  predicate ScanState(ratio: real, seen: seq<Size>, found: bool, best: Size, bestScore: real)
  {
    && (found <==> seen != [])
    && AllPositive(seen)
    && (found ==> best == seen[BestIndex(ratio, seen)] && bestScore == Score(ratio, best))
  }

  /** One iteration of the inner loop keeps the scan state: the variant at
      `v` takes over only when it is strictly better than the best so far. */
  lemma ScanStep(ratio: real, seen: seq<Size>, variants: seq<Size>, v: nat,
                 found: bool, best: Size, bestScore: real, best': Size, bestScore': real)
    requires v < |variants| && Positive(variants[v])
    requires ScanState(ratio, seen + variants[..v], found, best, bestScore)
    requires !found || Score(ratio, variants[v]) < bestScore ==> best' == variants[v] && bestScore' == Score(ratio, variants[v])
    requires found && bestScore <= Score(ratio, variants[v]) ==> best' == best && bestScore' == bestScore
    ensures ScanState(ratio, seen + variants[..v + 1], true, best', bestScore')
  {
    var prev := seen + variants[..v];
    var s := seen + variants[..v + 1];
    assert s == prev + [variants[v]];
    assert s[..|prev|] == prev;
    if found {
      assert s[BestIndex(ratio, prev)] == prev[BestIndex(ratio, prev)];
    }
  }

  /** Every variant of every bucket has positive sides. */
  predicate BucketsPositive(buckets: seq<Bucket>)
  {
    forall b, v :: 0 <= b < |buckets| && 0 <= v < |buckets[b].variants| ==> Positive(buckets[b].variants[v])
  }

  lemma {:induction false} FlattenPositive(buckets: seq<Bucket>)
    requires BucketsPositive(buckets)
    ensures AllPositive(Flatten(buckets))
  {
    if buckets != [] {
      var init := buckets[..|buckets| - 1];
      assert BucketsPositive(init) by {
        forall b, v | 0 <= b < |init| && 0 <= v < |init[b].variants|
          ensures Positive(init[b].variants[v])
        {
          assert init[b] == buckets[b];
        }
      }
      FlattenPositive(init);
    }
  }

  /** What the scan over a catalogue ends with: nothing for a catalogue
      without variants, otherwise the first variant of least score. */
  function ScanResult(ratio: real, buckets: seq<Bucket>): Option<Size>
    requires BucketsPositive(buckets)
  {
    FlattenPositive(buckets);
    var all := Flatten(buckets);
    if all == [] then None else Some(all[BestIndex(ratio, all)])
  }

  /** The inner loop of `find_best_resolution` over the variants of one
      bucket: each variant takes over only when its score is strictly below
      `best_score`. `found` stands for `best_score` no longer being
      infinity. */
  method ScanVariants(ratio: real, ghost seen: seq<Size>, found: bool, best: Size, bestScore: real,
                      variants: seq<Size>)
    returns (found': bool, best': Size, bestScore': real)
    requires ScanState(ratio, seen, found, best, bestScore) && AllPositive(variants)
    ensures ScanState(ratio, seen + variants, found', best', bestScore')
  {
    found', best', bestScore' := found, best, bestScore;
    var v := 0;
    assert seen + variants[..0] == seen;
    while v < |variants|
      invariant 0 <= v <= |variants|
      invariant ScanState(ratio, seen + variants[..v], found', best', bestScore')
    {
      var target := variants[v];
      var score := Score(ratio, target);
      ghost var oldBest, oldScore := best', bestScore';
      if !found' || score < bestScore' {
        bestScore' := score;
        best' := target;
      }
      ScanStep(ratio, seen, variants, v, found', oldBest, oldScore, best', bestScore');
      found' := true;
      v := v + 1;
    }
    assert variants[..v] == variants;
  }

  /** The loop of `find_best_resolution` over a catalogue: the buckets in
      order, each scanned by the inner loop. */
  method ScanBuckets(originalRatio: real, buckets: seq<Bucket>) returns (r: Option<Size>)
    requires BucketsPositive(buckets)
    ensures r == ScanResult(originalRatio, buckets)
  {
    var found := false;
    var bestScore := 0.0;
    var best := Size(0, 0);
    var b := 0;
    while b < |buckets|
      invariant 0 <= b <= |buckets|
      invariant ScanState(originalRatio, Flatten(buckets[..b]), found, best, bestScore)
    {
      assert AllPositive(buckets[b].variants);
      FlattenStep(buckets, b);
      found, best, bestScore := ScanVariants(originalRatio, Flatten(buckets[..b]), found, best, bestScore,
                                             buckets[b].variants);
      b := b + 1;
    }
    assert buckets[..b] == buckets;
    r := if found then Some(best) else None;
  }

  /** `find_best_resolution(width, height)`: the catalogue entry whose aspect
      ratio is closest to the image's, ties going to the entry met first. */
  method FindBestResolution(width: nat, height: nat) returns (best: Size)
    requires height > 0
    ensures best == BestResolution(width, height)
    ensures forall j :: 0 <= j < |Candidates()| ==>
      Score(width as real / height as real, best) <= Score(width as real / height as real, Candidates()[j])
  {
    var originalRatio := width as real / height as real;
    CatalogueEntriesPositive();
    var r := ScanBuckets(originalRatio, TargetResolutions);
    CandidatesFlattenCatalogue();
    best := r.value;
  }

  /** A 1200x800 image (ratio 1.5) gets 1216x832, the closest ratio (about
      1.46) in the catalogue. */
  lemma LandscapeExample()
    ensures BestResolution(1200, 800) == Size(1216, 832)
  {
    var c := Candidates();
    assert 1200 as real / 800 as real == 1.5;
    forall j | 0 <= j < |c| ensures Score(1.5, c[1]) <= Score(1.5, c[j]) {
      ScoresAt15(j);
    }
    ScoresAt15(0);
    FirstMinimumUnique(1.5, c, 1);
  }

  lemma ScoresAt15(j: nat)
    requires j < 7
    ensures Score(1.5, Candidates()[1]) <= Score(1.5, Candidates()[j])
    ensures j == 0 ==> Score(1.5, Candidates()[1]) < Score(1.5, Candidates()[0])
  {
  }

  /** An exact match scores 0 and wins. */
  lemma ExactMatchExample()
    ensures BestResolution(1216, 832) == Size(1216, 832)
  {
    var c := Candidates();
    var r := 1216 as real / 832 as real;
    assert Score(r, c[1]) == 0.0;
    assert Score(r, c[0]) > 0.0;
    FirstMinimumUnique(r, c, 1);
  }

  /** Every square image gets 1024x1024. */
  lemma SquareExample(n: nat)
    requires n > 0
    ensures BestResolution(n, n) == Size(1024, 1024)
  {
    var c := Candidates();
    assert n as real / n as real == 1.0;
    assert Score(1.0, c[0]) == 0.0;
    FirstMinimumUnique(1.0, c, 0);
  }

  /** Ties go to the earlier entry: an 8x7 image (ratio 8/7) is exactly as
      far from 1024x1024 (ratio 1) as from 1152x896 (ratio 9/7), every other
      entry is farther, and the first of the two is chosen. */
  lemma TieExample()
    ensures Score(8.0 / 7.0, Size(1024, 1024)) == Score(8.0 / 7.0, Size(1152, 896))
    ensures BestResolution(8, 7) == Size(1024, 1024)
  {
    var c := Candidates();
    assert Score(8.0 / 7.0, Size(1024, 1024)) == 1.0 / 7.0;
    assert Score(8.0 / 7.0, Size(1152, 896)) == 1.0 / 7.0;
    assert 8 as real / 7 as real == 8.0 / 7.0;
    forall j | 0 <= j < |c| ensures Score(8.0 / 7.0, c[0]) <= Score(8.0 / 7.0, c[j]) {
      ScoresAtEightSevenths(j);
    }
    FirstMinimumUnique(8.0 / 7.0, c, 0);
  }

  lemma ScoresAtEightSevenths(j: nat)
    requires j < 7
    ensures Score(8.0 / 7.0, Candidates()[0]) <= Score(8.0 / 7.0, Candidates()[j])
  {
    var c := Candidates();
    assert Score(8.0 / 7.0, c[0]) == 1.0 / 7.0;
    if j == 1 {
      assert Ratio(c[1]) == 1216.0 / 832.0;
    } else if j == 2 {
      assert Ratio(c[2]) == 832.0 / 1216.0;
    } else if j == 3 {
      assert Ratio(c[3]) == 1344.0 / 768.0;
    } else if j == 4 {
      assert Ratio(c[4]) == 768.0 / 1344.0;
    } else if j == 5 {
      assert Ratio(c[5]) == 1152.0 / 896.0;
    } else if j == 6 {
      assert Ratio(c[6]) == 896.0 / 1152.0;
    }
  }
}

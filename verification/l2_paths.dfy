/** `calculate_l2_given_paths` (loss/sam_perceptural.py): the mean L2
    distance between every generated image in one folder and its
    counterparts, found purely by rewriting file names. The directory
    listing and the image distance are parameters. */
module L2Paths {
  import opened Outcomes
  import opened Strings

  const Fake := "fake"
  const Real := "real"
  const Png := ".png"

  /** The names of the listing that contain `fake`, in listing order. */
  function FakeNames(listing: seq<string>): (r: seq<string>)
    ensures |r| <= |listing|
    ensures forall n :: n in r <==> n in listing && Contains(n, Fake)
    decreases |listing|
  {
    if listing == [] then []
    else
      var last := listing[|listing| - 1];
      FakeNames(listing[..|listing| - 1]) + (if Contains(last, Fake) then [last] else [])
  }

  /** A single listed name is kept exactly when it contains `fake`. */
  lemma FakeNamesSingle(name: string)
    ensures FakeNames([name]) == if Contains(name, Fake) then [name] else []
  {
    assert [name][..0] == [];
  }

  /** The filter works piecewise: the kept names of a concatenated listing
      are those of the first part followed by those of the second. With
      `FakeNamesSingle` this fixes the order and the multiplicity of the
      kept names, and so the divisor of the mean. */
  lemma {:induction false} FakeNamesAppend(a: seq<string>, b: seq<string>)
    ensures FakeNames(a + b) == FakeNames(a) + FakeNames(b)
    decreases |b|
  {
    if b == [] {
      assert a + b == a;
    } else {
      var n := |b| - 1;
      assert (a + b)[..|a + b| - 1] == a + b[..n];
      assert (a + b)[|a + b| - 1] == b[n];
      FakeNamesAppend(a, b[..n]);
    }
  }

  /** `name.replace("fake", "real")`: the file compared in the first folder. */
  function SourceName(name: string): string {
    ReplaceAll(name, Fake, Real)
  }

  /** `name.split('.')[0] + '.png'`: the file compared in the second folder. */
  function TargetName(name: string): string {
    BeforeFirstDot(name) + Png
  }

  /** The two paths whose images are compared for one generated file. */
  function PathPair(path1: string, path2: string, name: string): (pp: (string, string))
    ensures EndsWith(pp.0, SourceName(name)) && EndsWith(pp.1, TargetName(name))
  {
    (PathJoin(path1, SourceName(name)), PathJoin(path2, TargetName(name)))
  }

  /** The compared pairs of every kept name, in listing order. */
  function PathPairs(path1: string, path2: string, names: seq<string>): (pairs: seq<(string, string)>)
    ensures |pairs| == |names|
    ensures forall i :: 0 <= i < |names| ==> pairs[i] == PathPair(path1, path2, names[i])
  {
    seq(|names|, i requires 0 <= i < |names| => PathPair(path1, path2, names[i]))
  }

  /** The summed distance of a list of compared pairs. */
  function Total(dist: (string, string) -> real, pairs: seq<(string, string)>): real
    decreases |pairs|
  {
    if pairs == [] then 0.0
    else Total(dist, pairs[..|pairs| - 1]) + dist(pairs[|pairs| - 1].0, pairs[|pairs| - 1].1)
  }

  /** Non-negative distances have a non-negative total. */
  lemma {:induction false} TotalNonNegative(dist: (string, string) -> real, pairs: seq<(string, string)>)
    requires forall p, q :: dist(p, q) >= 0.0
    ensures Total(dist, pairs) >= 0.0
    decreases |pairs|
  {
    if pairs != [] {
      TotalNonNegative(dist, pairs[..|pairs| - 1]);
    }
  }

  /** A prefix of a rewritten name that holds no `r` was not rewritten:
      every rewrite starts with the `r` of `real`. */
  lemma {:induction false} UnrewrittenPrefix(t: string, k: nat)
    requires k <= |t|
    ensures 'r' !in SourceName(t)[..k] ==> t[..k] == SourceName(t)[..k]
    decreases |t|
  {
    if k > 0 && !StartsWith(t, Fake) {
      var tail := t[1..];
      UnrewrittenPrefix(tail, k - 1);
      assert SourceName(t) == [t[0]] + SourceName(tail);
      assert SourceName(t)[..k] == [t[0]] + SourceName(tail)[..k - 1];
      assert t[..k] == [t[0]] + tail[..k - 1];
    } else if k > 0 {
      assert SourceName(t)[..k][0] == 'r';
    }
  }

  /** An occurrence past a prefix is an occurrence in what follows it. */
  lemma OccursPastPrefix(p: string, x: string, sub: string, i: int)
    requires |p| <= i
    ensures OccursAt(p + x, sub, i) ==> OccursAt(x, sub, i - |p|)
  {
    if OccursAt(p + x, sub, i) {
      assert (p + x)[i..i + |sub|] == x[i - |p|..i - |p| + |sub|];
    }
  }

  /** A name starting with `fake` turns into `real` followed by the
      rewritten rest, and no letter of `real` can begin a `fake`. */
  lemma RewrittenHead(s: string)
    requires StartsWith(s, Fake)
    requires !Contains(SourceName(s[4..]), Fake)
    ensures !Contains(SourceName(s), Fake)
  {
    var x := SourceName(s[4..]);
    var r := SourceName(s);
    assert r == Real + x;
    forall i | 0 <= i <= |r|
      ensures !OccursAt(r, Fake, i)
    {
      if i < 4 {
        assert i + 4 <= |r| ==> r[i..i + 4][0] == r[i];
        assert r[i] == Real[i] != Fake[0];
      } else {
        OccursPastPrefix(Real, x, Fake, i);
      }
    }
  }

  /** A `fake` beginning at a kept letter was already in the name: the
      three letters after it hold no `r`, so they were not rewritten. */
  lemma FakeThroughKeptLetter(c: char, t: string)
    ensures OccursAt([c] + SourceName(t), Fake, 0) ==> StartsWith([c] + t, Fake)
  {
    var r := [c] + SourceName(t);
    if OccursAt(r, Fake, 0) {
      UnrewrittenPrefix(t, 3);
      assert SourceName(t)[..3] == r[1..4] == "ake";
      assert 'r' !in "ake";
      assert ([c] + t)[..4] == [c] + t[..3] == Fake;
    }
  }

  /** A name not starting with `fake` keeps its first letter; that letter
      can only begin a `fake` if the untouched rest began with `ake`. */
  lemma KeptHead(s: string)
    requires s != [] && !StartsWith(s, Fake)
    requires !Contains(SourceName(s[1..]), Fake)
    ensures !Contains(SourceName(s), Fake)
  {
    var x := SourceName(s[1..]);
    var r := SourceName(s);
    assert r == [s[0]] + x;
    forall i | 0 <= i <= |r|
      ensures !OccursAt(r, Fake, i)
    {
      if i == 0 {
        FakeThroughKeptLetter(s[0], s[1..]);
        assert [s[0]] + s[1..] == s;
      } else {
        OccursPastPrefix([s[0]], x, Fake, i);
      }
    }
  }

  /** After the rewrite no `fake` is left. */
  lemma {:induction false} NoFakeLeft(s: string)
    ensures !Contains(SourceName(s), Fake)
    decreases |s|
  {
    if s != [] && StartsWith(s, Fake) {
      NoFakeLeft(s[4..]);
      RewrittenHead(s);
    } else if s != [] {
      NoFakeLeft(s[1..]);
      KeptHead(s);
    }
  }

  /** The rewrite keeps the length and renames a generated file only: a
      name without `fake` is left alone, and none remains afterwards. */
  lemma SourceNameFacts(name: string)
    ensures |SourceName(name)| == |name|
    ensures !Contains(name, Fake) ==> SourceName(name) == name
    ensures !Contains(SourceName(name), Fake)
  {
    NoFakeLeft(name);
  }

  /** A `real` beginning at a kept letter was already in the name: the
      three letters after it hold no `r`, so they were not rewritten. */
  lemma RealThroughKeptLetter(c: char, t: string)
    ensures OccursAt([c] + SourceName(t), Real, 0) ==> StartsWith([c] + t, Real)
  {
    var r := [c] + SourceName(t);
    if OccursAt(r, Real, 0) {
      UnrewrittenPrefix(t, 3);
      assert SourceName(t)[..3] == r[1..4] == "eal";
      assert 'r' !in "eal";
      assert ([c] + t)[..4] == [c] + t[..3] == Real;
    }
  }

  /** Undoing a rewrite at the front: `real` turns back into `fake`. */
  lemma UndoRewrittenHead(name: string)
    requires StartsWith(name, Fake)
    requires ReplaceAll(SourceName(name[4..]), Real, Fake) == name[4..]
    ensures ReplaceAll(SourceName(name), Real, Fake) == name
  {
    var rest := SourceName(name[4..]);
    ReplaceAllAtMatch(name, Fake, Real);
    assert (Real + rest)[4..] == rest;
    ReplaceAllAtMatch(Real + rest, Real, Fake);
    assert Fake + name[4..] == name;
  }

  /** Undoing a kept letter: it cannot begin a `real`, since the name has
      none and the letters after it were not rewritten. */
  lemma UndoKeptHead(name: string)
    requires name != [] && !StartsWith(name, Fake) && !Contains(name, Real)
    requires ReplaceAll(SourceName(name[1..]), Real, Fake) == name[1..]
    ensures ReplaceAll(SourceName(name), Real, Fake) == name
  {
    var rest := SourceName(name[1..]);
    var r := [name[0]] + rest;
    ReplaceAllKeepsLetter(name, Fake, Real);
    assert !StartsWith(r, Real) by {
      RealThroughKeptLetter(name[0], name[1..]);
      assert [name[0]] + name[1..] == name;
      if StartsWith(name, Real) {
        StartsWithOccurs(name, Real);
      }
      assert StartsWith(r, Real) ==> OccursAt(r, Real, 0);
    }
    ReplaceAllKeepsLetter(r, Real, Fake);
    assert r[1..] == rest;
    assert [name[0]] + name[1..] == name;
  }

  /** On a name without `real` the rewrite is undone by the opposite
      rewrite: every `real` of the renamed file marks a replaced `fake`,
      and every other letter is the original one. */
  lemma {:induction false} SourceNameInverse(name: string)
    requires !Contains(name, Real)
    ensures ReplaceAll(SourceName(name), Real, Fake) == name
    decreases |name|
  {
    if name != [] && StartsWith(name, Fake) {
      ContainsSuffix(name, 4, Real);
      SourceNameInverse(name[4..]);
      UndoRewrittenHead(name);
    } else if name != [] {
      ContainsSuffix(name, 1, Real);
      SourceNameInverse(name[1..]);
      UndoKeptHead(name);
    }
  }

  /** `split('.')[0]` of a dot-free stem followed by a dot gives the stem back. */
  lemma {:induction false} BeforeFirstDotOfStem(stem: string, rest: string)
    requires '.' !in stem
    ensures BeforeFirstDot(stem + "." + rest) == stem
    decreases |stem|
  {
    if stem != [] {
      BeforeFirstDotOfStem(stem[1..], rest);
      assert (stem + "." + rest)[1..] == stem[1..] + "." + rest;
    }
  }

  /** The target name is everything before the first dot followed by
      exactly one `.png`; renaming a target again changes nothing. */
  lemma TargetNameFacts(name: string)
    ensures |TargetName(name)| == |BeforeFirstDot(name)| + |Png|
    ensures EndsWith(TargetName(name), Png)
    ensures StartsWith(TargetName(name), BeforeFirstDot(name))
    ensures StartsWith(name, BeforeFirstDot(name))
    ensures TargetName(TargetName(name)) == TargetName(name)
  {
    var stem := BeforeFirstDot(name);
    assert TargetName(name) == stem + "." + "png";
    BeforeFirstDotOfStem(stem, "png");
  }

  /** A generated file `fake.jpg` is compared with `real.jpg` in the first
      folder and with `fake.png` in the second. */
  lemma NamingExample()
    ensures SourceName("fake.jpg") == "real.jpg"
    ensures TargetName("fake.jpg") == "fake.png"
  {
    SourceExample();
    TargetExample();
  }

  /** The rewrite of the example name: `fake` at the front, then no more. */
  lemma SourceExample()
    ensures SourceName("fake.jpg") == "real.jpg"
  {
    var ext := ".jpg";
    assert !OccursAt(ext, Fake, 0) by { assert ext[0..4][0] == '.'; }
    assert !Contains(ext, Fake);
    assert "fake.jpg"[4..] == ext;
  }

  /** The target name of the example: the stem before the dot, then `.png`. */
  lemma TargetExample()
    ensures TargetName("fake.jpg") == "fake.png"
  {
    BeforeFirstDotOfStem(Fake, "jpg");
    assert Fake + "." + "jpg" == "fake.jpg";
  }

  /** No name is kept exactly when no name of the listing holds `fake`. */
  lemma NoFakeNames(listing: seq<string>)
    ensures FakeNames(listing) == [] <==> forall n :: n in listing ==> !Contains(n, Fake)
  {
    var names := FakeNames(listing);
    if names != [] {
      assert names[0] in names;
    }
  }

  /** The accumulation loop and the final division of
      `calculate_l2_given_paths`: the mean distance of the compared pairs.
      Python divides the untouched total by `len(file_name)`, so an empty
      list raises ZeroDivisionError. */
  method MeanDistance(pairs: seq<(string, string)>, dist: (string, string) -> real) returns (r: Result<real>)
    ensures r.Err? <==> pairs == []
    ensures r.Err? ==> r.error == ZeroDivisionError
    ensures r.Ok? ==> r.value == Total(dist, pairs) / |pairs| as real
    ensures r.Ok? && (forall p, q :: dist(p, q) >= 0.0) ==> r.value >= 0.0
  {
    var total := 0.0;
    var k := 0;
    while k < |pairs|
      invariant k <= |pairs|
      invariant total == Total(dist, pairs[..k])
    {
      assert pairs[..k + 1][..k] == pairs[..k];
      total := total + dist(pairs[k].0, pairs[k].1);
      k := k + 1;
    }
    assert pairs[..k] == pairs;
    if |pairs| == 0 {
      return Err(ZeroDivisionError);
    }
    if forall p, q :: dist(p, q) >= 0.0 {
      TotalNonNegative(dist, pairs);
    }
    return Ok(total / |pairs| as real);
  }

  /** `calculate_l2_given_paths(path1, path2)`. `listing` is
      `os.listdir(path1)` and `dist(p, q)` the L2 norm of the difference of
      the images at `p` and `q`. It fails exactly when no listed name
      contains `fake`; otherwise it is the mean distance over the renamed
      pairs of the kept names. */
  method CalculateL2(path1: string, path2: string, listing: seq<string>, dist: (string, string) -> real)
    returns (r: Result<real>)
    ensures r.Err? <==> forall n :: n in listing ==> !Contains(n, Fake)
    ensures r.Err? ==> r.error == ZeroDivisionError
    ensures r.Ok? ==> var names := FakeNames(listing);
      |names| > 0 && r.value == Total(dist, PathPairs(path1, path2, names)) / |names| as real
    ensures r.Ok? && (forall p, q :: dist(p, q) >= 0.0) ==> r.value >= 0.0
  {
    var names := FakeNames(listing);
    NoFakeNames(listing);
    r := MeanDistance(PathPairs(path1, path2, names), dist);
  }
}

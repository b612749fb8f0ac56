/** Which files of a dataset directory become samples: the case-sensitive
    extension allow-list and the collection of image paths from a directory
    walk (dataset_simple.py, `is_image_file` and `make_dataset`). */
module ImageFiles {
  import opened Strings
  import opened Outcomes

  /** The ten accepted extensions without their leading dot, in the order
      the source lists them. */
  const ImageStems: seq<string> :=
    ["jpg", "JPG", "jpeg", "JPEG", "png", "PNG", "ppm", "PPM", "bmp", "BMP"]

  /** The accepted extensions, as the source lists them. */
  const ImgExtensions: seq<string> :=
    [".jpg", ".JPG", ".jpeg", ".JPEG", ".png", ".PNG", ".ppm", ".PPM", ".bmp", ".BMP"]

  /** Each extension is its stem behind a dot, and no stem holds a dot. */
  lemma ExtensionsAreDottedStems()
    ensures |ImgExtensions| == |ImageStems|
    ensures forall i :: 0 <= i < |ImageStems| ==> ImgExtensions[i] == "." + ImageStems[i]
    ensures forall i :: 0 <= i < |ImageStems| ==> '.' !in ImageStems[i]
  {
  }

  /** `any(name.endswith(e) for e in IMG_EXTENSIONS)`. */
  predicate IsImageFile(name: string) {
    exists i | 0 <= i < |ImgExtensions| :: EndsWith(name, ImgExtensions[i])
  }

  /** Index of the last '.' of `s`, or -1 when there is none. */
  function LastDot(s: string): (i: int)
    ensures -1 <= i < |s|
    ensures i >= 0 ==> s[i] == '.'
    ensures forall j :: i < j < |s| ==> s[j] != '.'
  {
    if |s| == 0 then -1
    else if s[|s| - 1] == '.' then |s| - 1
    else LastDot(s[..|s| - 1])
  }

  /** The extension of `s`: the text after its last dot, if it has one. */
  function Extension(s: string): (e: Option<string>)
    ensures e.Some? ==> '.' !in e.value && EndsWith(s, "." + e.value)
  {
    var i := LastDot(s);
    if i < 0 then None else Some(s[i + 1..])
  }

  /** For a dot-free stem, ending with "." + stem is the same as having that
      stem as extension. */
  lemma EndsWithDotStem(s: string, stem: string)
    requires '.' !in stem
    ensures EndsWith(s, "." + stem) <==> Extension(s) == Some(stem)
  {
    if EndsWith(s, "." + stem) {
      var k := |s| - |stem| - 1;
      assert s[k] == ("." + stem)[0] == '.';
      forall j | k < j < |s|
        ensures s[j] != '.'
      {
        assert s[j] == stem[j - k - 1];
      }
      var i := LastDot(s);
      assert i == k;
      assert s[i + 1..] == ("." + stem)[1..] == stem;
    }
  }

  /** `is_image_file` accepts a name exactly when its extension (the text
      after its last dot) is one of the ten stems; the comparison is exact,
      so "Png" is not a stem and "a.Png" is rejected. */
  lemma {:induction false} IsImageFileIffExtension(name: string)
    ensures IsImageFile(name) <==> Extension(name).Some? && Extension(name).value in ImageStems
  {
    ExtensionsAreDottedStems();
    forall i | 0 <= i < |ImgExtensions|
      ensures EndsWith(name, ImgExtensions[i]) <==> Extension(name) == Some(ImageStems[i])
    {
      EndsWithDotStem(name, ImageStems[i]);
    }
    if Extension(name).Some? && Extension(name).value in ImageStems {
      var i :| 0 <= i < |ImageStems| && ImageStems[i] == Extension(name).value;
      assert EndsWith(name, ImgExtensions[i]);
    }
  }

  /** Both spellings of jpeg are accepted. */
  lemma JpegBothCasesAccepted()
    ensures IsImageFile("x.jpeg") && IsImageFile("x.JPEG")
  {
    assert EndsWith("x.jpeg", ImgExtensions[2]);
    assert EndsWith("x.JPEG", ImgExtensions[3]);
  }

  /** Matching is case-sensitive: a mixed-case extension is rejected. */
  lemma MixedCaseRejected()
    ensures !IsImageFile("x.Png")
  {
    EndsWithDotStem("x.Png", "Png");
    IsImageFileIffExtension("x.Png");
  }

  /** Only the final extension counts. */
  lemma InnerExtensionIgnored()
    ensures !IsImageFile("x.jpg.txt")
  {
    EndsWithDotStem("x.jpg.txt", "txt");
    IsImageFileIffExtension("x.jpg.txt");
  }

  /** Joining a root in front of an image name keeps it an image name. */
  lemma JoinKeepsImage(root: string, name: string)
    requires IsImageFile(name)
    ensures IsImageFile(PathJoin(root, name))
  {
    var i :| 0 <= i < |ImgExtensions| && EndsWith(name, ImgExtensions[i]);
    EndsWithTrans(PathJoin(root, name), name, ImgExtensions[i]);
  }

  /** One entry of `os.walk`: a directory, its sub-directories, its files. */
  datatype WalkEntry = WalkEntry(root: string, dirs: seq<string>, files: seq<string>)

  /** The image files of `files`, each joined to `root`, in listing order. */
  function ImagesIn(root: string, files: seq<string>): seq<string>
  {
    if files == [] then []
    else
      var last := files[|files| - 1];
      ImagesIn(root, files[..|files| - 1]) + (if IsImageFile(last) then [PathJoin(root, last)] else [])
  }

  /** The image paths of a whole walk, directory by directory in walk order. */
  function ImagePaths(walk: seq<WalkEntry>): seq<string>
  {
    if walk == [] then []
    else
      var last := walk[|walk| - 1];
      ImagePaths(walk[..|walk| - 1]) + ImagesIn(last.root, last.files)
  }

  /** Number of files the walk lists. */
  function FileCount(walk: seq<WalkEntry>): nat
  {
    if walk == [] then 0 else FileCount(walk[..|walk| - 1]) + |walk[|walk| - 1].files|
  }

  predicate AllImages(paths: seq<string>) {
    forall i :: 0 <= i < |paths| ==> IsImageFile(paths[i])
  }

  lemma {:induction false} ImagesInAreImages(root: string, files: seq<string>)
    ensures AllImages(ImagesIn(root, files))
    ensures |ImagesIn(root, files)| <= |files|
    decreases |files|
  {
    if files != [] {
      var last := files[|files| - 1];
      ImagesInAreImages(root, files[..|files| - 1]);
      if IsImageFile(last) {
        JoinKeepsImage(root, last);
      }
    }
  }

  /** Every collected path names an image, and there are no more of them
      than files in the walk. */
  lemma {:induction false} ImagePathsAreImages(walk: seq<WalkEntry>)
    ensures AllImages(ImagePaths(walk))
    ensures |ImagePaths(walk)| <= FileCount(walk)
    decreases |walk|
  {
    if walk != [] {
      var last := walk[|walk| - 1];
      ImagePathsAreImages(walk[..|walk| - 1]);
      ImagesInAreImages(last.root, last.files);
    }
  }

  /** The last file of a directory, when it is an image, is collected. */
  lemma ImagesInLast(root: string, files: seq<string>)
    requires files != [] && IsImageFile(files[|files| - 1])
    ensures PathJoin(root, files[|files| - 1]) in ImagesIn(root, files)
  {
  }

  /** A path collected from all but the last file stays collected. */
  lemma ImagesInInit(root: string, files: seq<string>, p: string)
    requires files != [] && p in ImagesIn(root, files[..|files| - 1])
    ensures p in ImagesIn(root, files)
  {
  }

  /** Every image file of a directory is collected, joined to the directory. */
  lemma {:induction false} ImagesInComplete(root: string, files: seq<string>, j: nat)
    requires j < |files| && IsImageFile(files[j])
    ensures PathJoin(root, files[j]) in ImagesIn(root, files)
    decreases |files|
  {
    var n := |files| - 1;
    if j < n {
      var init := files[..n];
      assert init[j] == files[j];
      ImagesInComplete(root, init, j);
      ImagesInInit(root, files, PathJoin(root, files[j]));
    } else {
      ImagesInLast(root, files);
    }
  }

  /** Every collected path is the join of the directory with one of its
      image files. */
  lemma {:induction false} ImagesInSound(root: string, files: seq<string>, p: string)
    requires p in ImagesIn(root, files)
    ensures exists j :: 0 <= j < |files| && IsImageFile(files[j]) && p == PathJoin(root, files[j])
    decreases |files|
  {
    var n := |files| - 1;
    if p in ImagesIn(root, files[..n]) {
      ImagesInSound(root, files[..n], p);
      var j :| 0 <= j < n && IsImageFile(files[..n][j]) && p == PathJoin(root, files[..n][j]);
      assert files[j] == files[..n][j];
    } else {
      assert IsImageFile(files[n]) && p == PathJoin(root, files[n]);
    }
  }

  /** A path collected before the last directory stays collected. */
  lemma ImagePathsInit(walk: seq<WalkEntry>, p: string)
    requires walk != [] && p in ImagePaths(walk[..|walk| - 1])
    ensures p in ImagePaths(walk)
  {
  }

  /** A path collected from the last directory is collected. */
  lemma ImagePathsLast(walk: seq<WalkEntry>, p: string)
    requires walk != [] && p in ImagesIn(walk[|walk| - 1].root, walk[|walk| - 1].files)
    ensures p in ImagePaths(walk)
  {
  }

  /** Every image file of every walked directory is collected. */
  lemma {:induction false} ImagePathsComplete(walk: seq<WalkEntry>, k: nat, j: nat)
    requires k < |walk| && j < |walk[k].files| && IsImageFile(walk[k].files[j])
    ensures PathJoin(walk[k].root, walk[k].files[j]) in ImagePaths(walk)
    decreases |walk|
  {
    var n := |walk| - 1;
    var p := PathJoin(walk[k].root, walk[k].files[j]);
    if k < n {
      var init := walk[..n];
      assert init[k] == walk[k];
      ImagePathsComplete(init, k, j);
      ImagePathsInit(walk, p);
    } else {
      ImagesInComplete(walk[k].root, walk[k].files, j);
      ImagePathsLast(walk, p);
    }
  }

  /** Every collected path comes from an image file of a walked directory. */
  lemma {:induction false} ImagePathsSound(walk: seq<WalkEntry>, p: string)
    requires p in ImagePaths(walk)
    ensures exists k, j ::
              0 <= k < |walk| && 0 <= j < |walk[k].files| &&
              IsImageFile(walk[k].files[j]) && p == PathJoin(walk[k].root, walk[k].files[j])
    decreases |walk|
  {
    var n := |walk| - 1;
    if p in ImagePaths(walk[..n]) {
      ImagePathsSound(walk[..n], p);
      var k, j :| 0 <= k < n && 0 <= j < |walk[..n][k].files| &&
        IsImageFile(walk[..n][k].files[j]) && p == PathJoin(walk[..n][k].root, walk[..n][k].files[j]);
      assert walk[k] == walk[..n][k];
    } else {
      ImagesInSound(walk[n].root, walk[n].files, p);
    }
  }

  /** `make_dataset(dir)` given `isDir` (the result of `os.path.isdir(dir)`)
      and `walk` (the entries of `sorted(os.walk(dir))`). A missing directory
      fails the assertion; otherwise the result lists, in walk order, every
      image file joined to its directory and nothing else. */
  method MakeDataset(isDir: bool, dir: string, walk: seq<WalkEntry>) returns (r: Result<seq<string>>)
    ensures !isDir <==> r.Err?
    ensures r.Err? ==> r.error.AssertionError?
    ensures r.Ok? ==> r.value == ImagePaths(walk)
    ensures r.Ok? ==> AllImages(r.value) && |r.value| <= FileCount(walk)
  {
    if !isDir {
      return Err(AssertionError(dir + " is not a valid directory"));
    }
    var images: seq<string> := [];
    var k := 0;
    while k < |walk|
      invariant 0 <= k <= |walk|
      invariant images == ImagePaths(walk[..k])
    {
      var entry := walk[k];
      var j := 0;
      while j < |entry.files|
        invariant 0 <= j <= |entry.files|
        invariant images == ImagePaths(walk[..k]) + ImagesIn(entry.root, entry.files[..j])
      {
        var fname := entry.files[j];
        assert entry.files[..j + 1][..j] == entry.files[..j];
        if IsImageFile(fname) {
          images := images + [PathJoin(entry.root, fname)];
        }
        j := j + 1;
      }
      assert entry.files[..j] == entry.files;
      assert walk[..k + 1][..k] == walk[..k];
      k := k + 1;
    }
    assert walk[..k] == walk;
    ImagePathsAreImages(walk);
    return Ok(images);
  }
}

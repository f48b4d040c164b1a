/**
 * load_images: the directory listing is filtered by extension, every kept
 * name is joined to the folder, and the paths are sorted.
 */
module Listing {
  import opened PyStr

  /** f.lower().endswith(('.png', '.jpg', '.jpeg', '.gif')), with ASCII lower-casing. */
  predicate IsImageName(f: string)
  {
    var l := Lower(f);
    EndsWith(l, ".png") || EndsWith(l, ".jpg") || EndsWith(l, ".jpeg") || EndsWith(l, ".gif")
  }

  /** The names of the listing that pass the extension test, in listing order. */
  function Filter(names: seq<string>): (r: seq<string>)
    ensures |r| <= |names|
  {
    if names == [] then []
    else if IsImageName(names[0]) then [names[0]] + Filter(names[1..])
    else Filter(names[1..])
  }

  /** Filter keeps every image name as often as the listing has it, and nothing else. */
  lemma {:induction false} FilterCounts(names: seq<string>, x: string)
    ensures multiset(Filter(names))[x] == if IsImageName(x) then multiset(names)[x] else 0
  {
    if names != [] {
      FilterCounts(names[1..], x);
      assert names == [names[0]] + names[1..];
    }
  }

  lemma FilterOnlyImages(names: seq<string>)
    ensures forall f <- Filter(names) :: IsImageName(f)
  {
    forall f <- Filter(names) ensures IsImageName(f) {
      FilterCounts(names, f);
    }
  }

  /** Ascending in the order of Python str. */
  predicate Sorted(s: seq<string>)
  {
    forall i, j :: 0 <= i < j < |s| ==> LexLe(s[i], s[j])
  }

  function Insert(x: string, s: seq<string>): (r: seq<string>)
  {
    if s == [] then [x]
    else if LexLe(x, s[0]) then [x] + s
    else [s[0]] + Insert(x, s[1..])
  }

  /** sorted(): the result is proved below to be the one sorted permutation of s. */
  function Sort(s: seq<string>): (r: seq<string>)
  {
    if s == [] then [] else Insert(s[0], Sort(s[1..]))
  }

  lemma {:induction false} InsertPermutes(x: string, s: seq<string>)
    ensures multiset(Insert(x, s)) == multiset(s) + multiset{x}
  {
    if s != [] && !LexLe(x, s[0]) {
      InsertPermutes(x, s[1..]);
      assert s == [s[0]] + s[1..];
    }
  }

  /** Every element of Insert(x, s) is x or an element of s. */
  lemma InsertMembers(x: string, s: seq<string>, y: string)
    requires y in Insert(x, s)
    ensures y == x || y in s
  {
    InsertPermutes(x, s);
    assert y in multiset(Insert(x, s));
  }

  lemma SortedCons(h: string, t: seq<string>)
    requires Sorted(t)
    requires forall y <- t :: LexLe(h, y)
    ensures Sorted([h] + t)
  {
    var r := [h] + t;
    forall i, j | 0 <= i < j < |r| ensures LexLe(r[i], r[j]) {
      if i == 0 {
        assert r[j] == t[j - 1];
      } else {
        assert r[i] == t[i - 1] && r[j] == t[j - 1];
      }
    }
  }

  lemma {:induction false} InsertSorted(x: string, s: seq<string>)
    requires Sorted(s)
    ensures Sorted(Insert(x, s))
  {
    if s == [] {
    } else if LexLe(x, s[0]) {
      forall y <- s ensures LexLe(x, y) {
        var k :| 0 <= k < |s| && s[k] == y;
        if k > 0 { LexLeTransitive(x, s[0], y); }
      }
      SortedCons(x, s);
    } else {
      var t := s[1..];
      assert Sorted(t);
      InsertSorted(x, t);
      LexLeTotal(x, s[0]);
      forall y <- Insert(x, t) ensures LexLe(s[0], y) {
        InsertMembers(x, t, y);
        if y != x {
          var k :| 0 <= k < |t| && t[k] == y;
          assert s[k + 1] == y;
        }
      }
      SortedCons(s[0], Insert(x, t));
    }
  }

  lemma {:induction false} SortPermutes(s: seq<string>)
    ensures multiset(Sort(s)) == multiset(s)
  {
    if s != [] {
      SortPermutes(s[1..]);
      InsertPermutes(s[0], Sort(s[1..]));
      assert s == [s[0]] + s[1..];
    }
  }

  lemma {:induction false} SortSorted(s: seq<string>)
    ensures Sorted(Sort(s))
  {
    if s != [] {
      SortSorted(s[1..]);
      InsertSorted(s[0], Sort(s[1..]));
    }
  }

  /** The head of a sorted sequence is below every element of it. */
  lemma SortedHeadLeast(a: seq<string>, x: string)
    requires Sorted(a) && x in multiset(a)
    ensures LexLe(a[0], x)
  {
    var i :| 0 <= i < |a| && a[i] == x;
    if i == 0 { LexLeReflexive(x); }
  }

  lemma TailMultiset(a: seq<string>)
    requires a != []
    ensures multiset(a[1..]) == multiset(a) - multiset{a[0]}
  {
    assert a == [a[0]] + a[1..];
  }

  /** Two sorted arrangements of the same multiset are the same sequence, since LexLe is a total order. */
  lemma {:induction false} SortedPermutationUnique(a: seq<string>, b: seq<string>)
    requires Sorted(a) && Sorted(b)
    requires multiset(a) == multiset(b)
    ensures a == b
  {
    if a == [] {
      assert |b| == |multiset(b)| == 0;
    } else {
      assert |b| == |multiset(b)| == |a|;
      SortedHeadLeast(a, b[0]);
      SortedHeadLeast(b, a[0]);
      LexLeAntisymmetric(a[0], b[0]);
      TailMultiset(a);
      TailMultiset(b);
      SortedPermutationUnique(a[1..], b[1..]);
      assert a == [a[0]] + a[1..] && b == [b[0]] + b[1..];
    }
  }

  /** Sort returns THE sorted permutation: any sorted rearrangement of s is Sort(s). */
  lemma SortIsSortedPermutation(s: seq<string>, t: seq<string>)
    ensures Sorted(Sort(s)) && multiset(Sort(s)) == multiset(s)
    ensures Sorted(t) && multiset(t) == multiset(s) <==> t == Sort(s)
  {
    SortSorted(s);
    SortPermutes(s);
    if Sorted(t) && multiset(t) == multiset(s) {
      SortedPermutationUnique(t, Sort(s));
    }
  }

  /** Every element of s with the same prefix p put in front. */
  function Prefixed(p: string, s: seq<string>): (r: seq<string>)
    ensures |r| == |s|
  {
    seq(|s|, i requires 0 <= i < |s| => p + s[i])
  }

  lemma {:induction false} InsertPrefixed(p: string, x: string, s: seq<string>)
    ensures Insert(p + x, Prefixed(p, s)) == Prefixed(p, Insert(x, s))
  {
    if s != [] {
      LexLeCommonPrefix(p, x, s[0]);
      assert Prefixed(p, s)[1..] == Prefixed(p, s[1..]);
      if !LexLe(x, s[0]) {
        InsertPrefixed(p, x, s[1..]);
      }
    }
  }

  /** Sorting paths that share a prefix orders them as their names are ordered. */
  lemma {:induction false} SortPrefixed(p: string, s: seq<string>)
    ensures Sort(Prefixed(p, s)) == Prefixed(p, Sort(s))
  {
    if s != [] {
      assert Prefixed(p, s)[1..] == Prefixed(p, s[1..]);
      SortPrefixed(p, s[1..]);
      InsertPrefixed(p, s[0], Sort(s[1..]));
    }
  }

  /** [os.path.join(folder, f) for f in names] */
  function JoinAll(folder: string, names: seq<string>): (r: seq<string>)
    ensures |r| == |names|
  {
    seq(|names|, i requires 0 <= i < |names| => Join(folder, names[i]))
  }

  /**
   * The value load_images gives image_list for a folder whose listing is
   * names: the joined image names, each as often as listed, in sorted order.
   */
  function ImagePaths(folder: string, names: seq<string>): seq<string>
  {
    Sort(JoinAll(folder, Filter(names)))
  }

  /** An image name stays an image path once joined to a folder. */
  lemma JoinKeepsImage(folder: string, f: string)
    requires IsImageName(f)
    ensures IsImageName(Join(folder, f))
  {
    var p := Join(folder, f);
    if p != f {
      var front := p[..|p| - |f|];
      assert p == front + f;
      LowerConcat(front, f);
      var l := Lower(f);
      if EndsWith(l, ".png") { EndsWithPrepend(Lower(front), l, ".png"); }
      if EndsWith(l, ".jpg") { EndsWithPrepend(Lower(front), l, ".jpg"); }
      if EndsWith(l, ".jpeg") { EndsWithPrepend(Lower(front), l, ".jpeg"); }
      if EndsWith(l, ".gif") { EndsWithPrepend(Lower(front), l, ".gif"); }
    }
  }

  /** image_list has one entry per image name of the listing. */
  lemma ImagePathsLength(folder: string, names: seq<string>)
    ensures |ImagePaths(folder, names)| == |Filter(names)|
  {
    SortPermutes(JoinAll(folder, Filter(names)));
    assert |multiset(ImagePaths(folder, names))| == |multiset(JoinAll(folder, Filter(names)))|;
  }

  /**
   * What load_images promises about image_list: sorted, every entry an image
   * path, and exactly the joined image names of the listing, each as often as
   * the listing holds it; it is never longer than the listing.
   */
  lemma ImagePathsSpec(folder: string, names: seq<string>)
    ensures Sorted(ImagePaths(folder, names))
    ensures multiset(ImagePaths(folder, names)) == multiset(JoinAll(folder, Filter(names)))
    ensures |ImagePaths(folder, names)| <= |names|
    ensures forall p <- ImagePaths(folder, names) :: IsImageName(p)
  {
    var joined := JoinAll(folder, Filter(names));
    SortIsSortedPermutation(joined, joined);
    assert |ImagePaths(folder, names)| == |multiset(joined)| == |joined|;
    FilterOnlyImages(names);
    forall p <- ImagePaths(folder, names) ensures IsImageName(p) {
      assert p in multiset(joined);
      var i :| 0 <= i < |joined| && joined[i] == p;
      assert Filter(names)[i] in Filter(names);
      JoinKeepsImage(folder, Filter(names)[i]);
    }
  }

  lemma JoinAllRelative(folder: string, s: seq<string>)
    requires forall f <- s :: f == [] || f[0] != '/'
    ensures JoinAll(folder, s) == Prefixed(JoinPrefix(folder), s)
  {
    forall i | 0 <= i < |s| ensures JoinAll(folder, s)[i] == Prefixed(JoinPrefix(folder), s)[i] {
      JoinRelative(folder, s[i]);
    }
  }

  /** No entry of image_list is the empty string (each ends in an image extension). */
  lemma ImagePathNonEmpty(folder: string, names: seq<string>, i: int)
    requires 0 <= i < |ImagePaths(folder, names)|
    ensures ImagePaths(folder, names)[i] != []
  {
    ImagePathsSpec(folder, names);
    assert IsImageName(ImagePaths(folder, names)[i]);
  }

  /**
   * Directory entries hold no '/', so every path has the same prefix and
   * image_list is the folder joined to the image names sorted by name.
   */
  lemma ImagePathsByName(folder: string, names: seq<string>)
    requires forall f <- names :: '/' !in f
    ensures ImagePaths(folder, names) == JoinAll(folder, Sort(Filter(names)))
  {
    var kept := Filter(names);
    forall f <- kept ensures f == [] || f[0] != '/' {
      FilterCounts(names, f);
      assert f in multiset(names);
      assert '/' !in f;
      if f != [] { assert f[0] in f; }
    }
    JoinAllRelative(folder, kept);
    SortPrefixed(JoinPrefix(folder), kept);
    SortPermutes(kept);
    forall f <- Sort(kept) ensures f == [] || f[0] != '/' {
      assert f in multiset(kept);
    }
    JoinAllRelative(folder, Sort(kept));
  }

  /**
   * For a listing of directory entries (no '/'), every entry of image_list
   * has as base name an image name of the listing: the name the title shows.
   */
  lemma ImagePathBasename(folder: string, names: seq<string>, i: int)
    requires forall f <- names :: '/' !in f
    requires 0 <= i < |ImagePaths(folder, names)|
    ensures Basename(ImagePaths(folder, names)[i]) in names
    ensures IsImageName(Basename(ImagePaths(folder, names)[i]))
  {
    ImagePathsByName(folder, names);
    var sorted := Sort(Filter(names));
    SortPermutes(Filter(names));
    var f := sorted[i];
    assert f in multiset(Filter(names));
    FilterCounts(names, f);
    assert f in multiset(names);
    BasenameJoin(folder, f);
  }

  lemma ExamplePng()
    ensures IsImageName("b.png")
  {
    LowerEndsWith("b.png", ".png");
  }

  lemma ExampleJpg()
    ensures IsImageName("A.JPG")
  {
    LowerEndsWith("A.JPG", ".jpg");
  }

  lemma ExampleTxt()
    ensures !IsImageName("c.txt")
  {
    assert Lower("c.txt") == "c.txt";
  }

  lemma ExampleGif()
    ensures IsImageName("a.gif")
  {
    LowerEndsWith("a.gif", ".gif");
  }

  lemma ExampleFilter()
    ensures Filter(["b.png", "A.JPG", "c.txt", "a.gif"]) == ["b.png", "A.JPG", "a.gif"]
  {
    var names := ["b.png", "A.JPG", "c.txt", "a.gif"];
    ExamplePng();
    ExampleJpg();
    ExampleTxt();
    ExampleGif();
    assert Filter(names[3..]) == ["a.gif"];
    assert Filter(names[2..]) == ["a.gif"];
    assert Filter(names[1..]) == ["A.JPG", "a.gif"];
  }

  lemma ExampleOrder()
    ensures Sorted(["A.JPG", "a.gif", "b.png"])
  {
    assert LexLe("A.JPG", "a.gif");
    assert LexLe("A.JPG", "b.png");
    assert LexLe("a.gif", "b.png");
  }

  lemma ExampleJoin()
    ensures JoinAll("/photos", ["A.JPG", "a.gif", "b.png"]) == ["/photos/A.JPG", "/photos/a.gif", "/photos/b.png"]
  {
    assert Join("/photos", "A.JPG") == "/photos/A.JPG";
    assert Join("/photos", "a.gif") == "/photos/a.gif";
    assert Join("/photos", "b.png") == "/photos/b.png";
  }

  lemma ExampleSort()
    ensures Sort(["b.png", "A.JPG", "a.gif"]) == ["A.JPG", "a.gif", "b.png"]
  {
    ExampleOrder();
    assert multiset(["A.JPG", "a.gif", "b.png"]) == multiset(["b.png", "A.JPG", "a.gif"]);
    SortIsSortedPermutation(["b.png", "A.JPG", "a.gif"], ["A.JPG", "a.gif", "b.png"]);
  }

  lemma ExampleNoSlash()
    ensures forall f <- ["b.png", "A.JPG", "c.txt", "a.gif"] :: '/' !in f
  {
  }

  /** A folder holding b.png, A.JPG, c.txt and a.gif lists A.JPG, a.gif, b.png: upper case sorts first, c.txt is dropped. */
  lemma LoadExample()
    ensures ImagePaths("/photos", ["b.png", "A.JPG", "c.txt", "a.gif"])
         == ["/photos/A.JPG", "/photos/a.gif", "/photos/b.png"]
  {
    ExampleNoSlash();
    ImagePathsByName("/photos", ["b.png", "A.JPG", "c.txt", "a.gif"]);
    ExampleFilter();
    ExampleSort();
    ExampleJoin();
  }
}

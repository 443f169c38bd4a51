/**
 * Preview-size selection of MainView.getMinCameraSize: the supported preview
 * sizes are copied into an array, sorted ascending by area in place, and
 * scanned for the first size whose area reaches the floor MinSize.
 */
module PreviewSize {
  import opened Wrappers

  /** A Camera.Size: width and height in pixels. */
  datatype Size = Size(width: nat, height: nat)

  function Area(s: Size): nat
  {
    s.width * s.height
  }

  /** MIN_SIZE: the smallest preview area the view asks for (320 x 240). */
  const MinSize: nat := 320 * 240

  ghost predicate SortedByArea(s: seq<Size>)
  {
    forall k, l :: 0 <= k < l < |s| ==> Area(s[k]) <= Area(s[l])
  }

  ghost predicate SomeMeetsFloor(sizes: seq<Size>)
  {
    exists s :: s in sizes && Area(s) >= MinSize
  }

  /**
   * The size the view should pick from `sizes`: one of them; when some size
   * reaches the floor, one of least area among those that do; otherwise one
   * of greatest area.
   */
  ghost predicate IsMinCameraSize(sizes: seq<Size>, z: Size)
  {
    && z in sizes
    && (if SomeMeetsFloor(sizes) then
          && Area(z) >= MinSize
          && forall s :: s in sizes && Area(s) >= MinSize ==> Area(z) <= Area(s)
        else
          forall s :: s in sizes ==> Area(s) <= Area(z))
  }

  /** Arrays.sort with a comparator on the area: ascending by area, a permutation. */
  method SortByArea(a: array<Size>)
    modifies a
    ensures SortedByArea(a[..])
    ensures multiset(a[..]) == old(multiset(a[..]))
  {
    var i := 0;
    while i < a.Length
      invariant 0 <= i <= a.Length
      invariant SortedByArea(a[..i])
      invariant multiset(a[..]) == old(multiset(a[..]))
    {
      InsertByArea(a, i);
      i := i + 1;
    }
    assert a[..i] == a[..];
  }

  /** One insertion step: a[i] moves left past every larger area before it. */
  method InsertByArea(a: array<Size>, i: nat)
    requires i < a.Length
    requires SortedByArea(a[..i])
    modifies a
    ensures SortedByArea(a[..i + 1])
    ensures multiset(a[..]) == old(multiset(a[..]))
  {
    var j := i;
    while j > 0 && Area(a[j - 1]) > Area(a[j])
      invariant 0 <= j <= i
      invariant SortedExcept(a[..], i, j) && BelowRest(a[..], i, j)
      invariant multiset(a[..]) == old(multiset(a[..]))
    {
      SwapKeepsInsertion(a[..], i, j);
      a[j - 1], a[j] := a[j], a[j - 1];
      j := j - 1;
    }
    InsertionDone(a[..], i, j);
  }

  /** s[..n + 1] is ordered by area except possibly at the moving position j. */
  ghost predicate SortedExcept(s: seq<Size>, n: nat, j: nat)
    requires n < |s|
  {
    forall k, l :: 0 <= k < l <= n && k != j && l != j ==> Area(s[k]) <= Area(s[l])
  }

  /** The moving size at j is smaller than everything it has passed. */
  ghost predicate BelowRest(s: seq<Size>, n: nat, j: nat)
    requires j <= n < |s|
  {
    forall l :: j < l <= n ==> Area(s[j]) < Area(s[l])
  }

  /** Swapping the moving size with a larger left neighbour keeps both facts, one place further left. */
  lemma SwapKeepsInsertion(s: seq<Size>, n: nat, j: nat)
    requires 0 < j <= n < |s|
    requires SortedExcept(s, n, j) && BelowRest(s, n, j)
    requires Area(s[j - 1]) > Area(s[j])
    ensures var t := s[j - 1 := s[j]][j := s[j - 1]];
      SortedExcept(t, n, j - 1) && BelowRest(t, n, j - 1)
  {
  }

  /** Once the left neighbour is no larger, s[..n + 1] is sorted. */
  lemma InsertionDone(s: seq<Size>, n: nat, j: nat)
    requires j <= n < |s|
    requires SortedExcept(s, n, j) && BelowRest(s, n, j)
    requires j > 0 ==> Area(s[j - 1]) <= Area(s[j])
    ensures SortedByArea(s[..n + 1])
  {
  }

  /**
   * getMinCameraSize: no size exactly when none is supported, otherwise the
   * size IsMinCameraSize describes.
   */
  method GetMinCameraSize(supported: seq<Size>) returns (r: Option<Size>)
    ensures r.None? <==> |supported| == 0
    ensures r.Some? ==> IsMinCameraSize(supported, r.value)
  {
    var camSizes := new Size[|supported|](k requires 0 <= k < |supported| => supported[k]);
    assert camSizes[..] == supported;
    SortByArea(camSizes);

    var camSize: Option<Size> := None;
    var camSizeArea := 0;
    var i := 0;
    while i < camSizes.Length && camSizeArea < MinSize
      invariant 0 <= i <= camSizes.Length
      invariant i == 0 ==> camSize.None? && camSizeArea == 0
      invariant i > 0 ==> camSize == Some(camSizes[i - 1]) && camSizeArea == Area(camSizes[i - 1])
      invariant forall k :: 0 <= k < i - 1 ==> Area(camSizes[k]) < MinSize
    {
      camSize := Some(camSizes[i]);
      camSizeArea := Area(camSizes[i]);
      i := i + 1;
    }
    r := camSize;

    if i > 0 {
      var sorted := camSizes[..];
      forall s | s in supported ensures s in sorted {
        assert s in multiset(supported);
      }
      assert r.value in supported by {
        assert r.value == sorted[i - 1];
        assert r.value in multiset(sorted);
      }
      if camSizeArea >= MinSize {
        forall s | s in supported && Area(s) >= MinSize ensures Area(r.value) <= Area(s) {
          var k :| 0 <= k < |sorted| && sorted[k] == s;
          assert i - 1 <= k;
        }
      } else {
        forall s | s in supported ensures Area(s) <= Area(r.value) && Area(s) < MinSize {
          var k :| 0 <= k < |sorted| && sorted[k] == s;
        }
      }
    }
  }

  /** Two admissible answers always have the same area. */
  lemma MinCameraSizeAreaUnique(sizes: seq<Size>, z1: Size, z2: Size)
    requires IsMinCameraSize(sizes, z1) && IsMinCameraSize(sizes, z2)
    ensures Area(z1) == Area(z2)
  {
  }

  /** Sizes 160x120, 320x240, 640x480: the floor is met exactly by 320x240. */
  lemma ExactFloorScenario(z: Size)
    requires IsMinCameraSize([Size(160, 120), Size(320, 240), Size(640, 480)], z)
    ensures z == Size(320, 240)
  {
    assert Area(Size(320, 240)) == MinSize;
  }

  /** A single size below the floor is still chosen. */
  lemma BelowFloorScenario(z: Size)
    requires IsMinCameraSize([Size(100, 100)], z)
    ensures z == Size(100, 100)
  {
  }
}

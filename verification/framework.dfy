/**
 * Shape arithmetic shared by the processing frameworks: singleton expansion of image
 * sizes and tensor-element counts, the choice of the dimension along which image lines
 * are processed, and the split of an image into blocks of lines of equal pixel count.
 */
module Framework {
  import opened Errors
  import opened Images

  // ---- Singleton expansion ----

  /** Two sizes along one dimension are compatible when they are equal or one of them is a singleton. */
  predicate Broadcastable(a: nat, b: nat) {
    a == b || a == 1 || b == 1
  }

  /**
   * `x` singleton-expands to `r`: `r` has at least as many dimensions, and along each
   * dimension of `x` the size is `r`'s size or 1. Missing trailing dimensions of `x`
   * are singletons.
   */
  predicate ExpandsTo(x: seq<nat>, r: seq<nat>) {
    |x| <= |r| && forall i :: 0 <= i < |x| ==> x[i] == r[i] || x[i] == 1
  }

  function Max(a: nat, b: nat): nat { if a < b then b else a }

  /** The size of `s` along dimension `i`, where the dimensions beyond `s` are singletons. */
  function SizeAt(s: seq<nat>, i: nat): nat { if i < |s| then s[i] else 1 }

  /** `size` extended with singleton dimensions up to `n` dimensions. */
  function PadWithOnes(size: seq<nat>, n: nat): (r: seq<nat>)
    ensures |r| == Max(|size|, n)
    ensures forall i :: 0 <= i < |r| ==> r[i] == SizeAt(size, i)
  {
    if |size| < n then size + seq(n - |size|, _ => 1) else size
  }

  /**
   * Singleton-expands `size` against `size2`. The source updates `size` in place; here
   * the updated array is the success value.
   */
  method SingletonExpandedSize(size: seq<nat>, size2: seq<nat>) returns (r: Result<seq<nat>>)
    ensures r.Success? <==>
      forall jj :: 0 <= jj < |size2| && jj < |size| ==> Broadcastable(size[jj], size2[jj])
    ensures r.Failure? ==> r.error == SizesDontMatch
    ensures r.Success? ==>
      |r.value| == Max(|size|, |size2|) && ExpandsTo(size, r.value) && ExpandsTo(size2, r.value)
    ensures r.Success? ==> forall jj :: 0 <= jj < |r.value| ==>
      (jj < |size| && r.value[jj] == size[jj]) || (jj < |size2| && r.value[jj] == size2[jj])
    ensures r.Success? ==> forall jj :: |size2| <= jj < |size| ==> r.value[jj] == size[jj]
    ensures r.Success? && (forall i :: 0 <= i < |size| ==> size[i] > 0)
                       && (forall i :: 0 <= i < |size2| ==> size2[i] > 0) ==>
      forall jj :: 0 <= jj < |r.value| ==> r.value[jj] == Max(SizeAt(size, jj), SizeAt(size2, jj))
  {
    var s := PadWithOnes(size, |size2|);
    var jj := 0;
    while jj < |size2|
      invariant 0 <= jj <= |size2|
      invariant |s| == Max(|size|, |size2|)
      invariant forall k :: 0 <= k < jj ==> Broadcastable(SizeAt(size, k), size2[k])
      invariant forall k :: 0 <= k < jj ==> s[k] == if SizeAt(size, k) == 1 then size2[k] else SizeAt(size, k)
      invariant forall k :: jj <= k < |s| ==> s[k] == SizeAt(size, k)
    {
      if s[jj] != size2[jj] {
        if s[jj] == 1 {
          s := s[jj := size2[jj]];
        } else if size2[jj] != 1 {
          assert !Broadcastable(size[jj], size2[jj]);
          return Failure(SizesDontMatch);
        }
      }
      jj := jj + 1;
    }
    return Success(s);
  }

  /** Every two of the first `n` size arrays are compatible along every dimension they share. */
  predicate PairwiseCompatible(sizes: seq<seq<nat>>, n: nat)
    requires n <= |sizes|
  {
    forall i, j, k :: 0 <= i < n && 0 <= j < n && 0 <= k < |sizes[i]| && k < |sizes[j]| ==>
      Broadcastable(sizes[i][k], sizes[j][k])
  }

  /** Every size in `size` is the size of one of the first `n` arrays along that dimension. */
  predicate FromSomeInput(sizes: seq<seq<nat>>, n: nat, size: seq<nat>)
    requires n <= |sizes|
  {
    forall k :: 0 <= k < |size| ==> SizeOfSome(sizes, n, k, size[k])
  }

  /** One of the first `n` arrays has size `v` along dimension `k`. */
  predicate SizeOfSome(sizes: seq<seq<nat>>, n: nat, k: nat, v: nat)
    requires n <= |sizes|
  {
    exists t :: 0 <= t < n && k < |sizes[t]| && sizes[t][k] == v
  }

  lemma CompatibleStep(sizes: seq<seq<nat>>, ii: nat, size: seq<nat>)
    requires ii < |sizes| && PairwiseCompatible(sizes, ii)
    requires forall t :: 0 <= t < ii ==> ExpandsTo(sizes[t], size)
    requires forall k :: 0 <= k < |sizes[ii]| && k < |size| ==> Broadcastable(size[k], sizes[ii][k])
    ensures PairwiseCompatible(sizes, ii + 1)
  {
    forall i, j, k | 0 <= i < ii + 1 && 0 <= j < ii + 1 && 0 <= k < |sizes[i]| && k < |sizes[j]|
      ensures Broadcastable(sizes[i][k], sizes[j][k])
    {
      if i == ii && j < ii {
        assert ExpandsTo(sizes[j], size);
      } else if j == ii && i < ii {
        assert ExpandsTo(sizes[i], size);
      }
    }
  }

  lemma IncompatibleStep(sizes: seq<seq<nat>>, ii: nat, size: seq<nat>, k: nat)
    requires ii < |sizes| && FromSomeInput(sizes, ii, size)
    requires k < |sizes[ii]| && k < |size| && !Broadcastable(size[k], sizes[ii][k])
    ensures !PairwiseCompatible(sizes, |sizes|)
  {
    var t :| 0 <= t < ii && k < |sizes[t]| && sizes[t][k] == size[k];
    assert !Broadcastable(sizes[t][k], sizes[ii][k]);
  }

  lemma FromSomeStep(sizes: seq<seq<nat>>, ii: nat, size: seq<nat>, next: seq<nat>)
    requires ii < |sizes| && FromSomeInput(sizes, ii, size)
    requires forall k :: 0 <= k < |next| ==>
      (k < |size| && next[k] == size[k]) || (k < |sizes[ii]| && next[k] == sizes[ii][k])
    ensures FromSomeInput(sizes, ii + 1, next)
  {
    forall k | 0 <= k < |next|
      ensures SizeOfSome(sizes, ii + 1, k, next[k])
    {
      if k < |size| && next[k] == size[k] {
        var t :| 0 <= t < ii && k < |sizes[t]| && sizes[t][k] == size[k];
        assert 0 <= t < ii + 1 && k < |sizes[t]| && sizes[t][k] == next[k];
      } else {
        assert 0 <= ii < ii + 1 && k < |sizes[ii]| && sizes[ii][k] == next[k];
      }
    }
  }

  /**
   * The common size of a set of images (given by their sizes), folding the two-array
   * expansion over them from the first.
   */
  method SingletonExpandedSizes(sizes: seq<seq<nat>>) returns (r: Result<seq<nat>>)
    requires |sizes| >= 1
    ensures r.Success? <==> PairwiseCompatible(sizes, |sizes|)
    ensures r.Failure? ==> r.error == SizesDontMatch
    ensures r.Success? ==> forall i :: 0 <= i < |sizes| ==> ExpandsTo(sizes[i], r.value)
    ensures r.Success? ==> FromSomeInput(sizes, |sizes|, r.value)
  {
    var size := sizes[0];
    var ii := 1;
    while ii < |sizes|
      invariant 1 <= ii <= |sizes|
      invariant PairwiseCompatible(sizes, ii)
      invariant forall t :: 0 <= t < ii ==> ExpandsTo(sizes[t], size)
      invariant FromSomeInput(sizes, ii, size)
    {
      var next := SingletonExpandedSize(size, sizes[ii]);
      if next.Failure? {
        var k :| 0 <= k < |sizes[ii]| && k < |size| && !Broadcastable(size[k], sizes[ii][k]);
        IncompatibleStep(sizes, ii, size, k);
        return next;
      }
      CompatibleStep(sizes, ii, size);
      FromSomeStep(sizes, ii, size, next.value);
      size := next.value;
      ii := ii + 1;
    }
    return Success(size);
  }

  /** The common tensor-element count of a set of images, by the same singleton rule. */
  method SingletonExpandedTensorElements(counts: seq<nat>) returns (r: Result<nat>)
    requires |counts| >= 1
    ensures r.Success? <==>
      forall i, j :: 0 <= i < |counts| && 0 <= j < |counts| ==> Broadcastable(counts[i], counts[j])
    ensures r.Failure? ==> r.error == SizesDontMatch
    ensures r.Success? ==> r.value in counts
    ensures r.Success? ==> forall i :: 0 <= i < |counts| ==> counts[i] == 1 || counts[i] == r.value
    ensures r.Success? ==> (r.value == 1 <==> forall i :: 0 <= i < |counts| ==> counts[i] == 1)
  {
    var tsize := counts[0];
    var ii := 1;
    while ii < |counts|
      invariant 1 <= ii <= |counts|
      invariant tsize in counts[..ii]
      invariant forall t :: 0 <= t < ii ==> counts[t] == 1 || counts[t] == tsize
      invariant forall i, j :: 0 <= i < ii && 0 <= j < ii ==> Broadcastable(counts[i], counts[j])
    {
      var tsize2 := counts[ii];
      if tsize != tsize2 {
        if tsize == 1 {
          tsize := tsize2;
        } else if tsize2 != 1 {
          var t :| 0 <= t < ii && counts[t] == tsize;
          assert !Broadcastable(counts[t], counts[ii]);
          return Failure(SizesDontMatch);
        }
      }
      assert counts[..ii + 1] == counts[..ii] + [counts[ii]];
      ii := ii + 1;
    }
    assert counts[..ii] == counts;
    return Success(tsize);
  }

  // ---- The processing dimension ----

  /** Dimensions longer than this are not small; a good value depends on the cache size. */
  const SMALL_IMAGE: nat := 63

  function Abs(x: int): nat { if x < 0 then -x else x }

  /** A size as the heuristic sees it: every size above `SMALL_IMAGE` counts the same. */
  function Capped(n: nat): nat { if n > SMALL_IMAGE then SMALL_IMAGE + 1 else n }

  /**
   * What the heuristic guarantees of its choice `pd`: an index of a dimension (0 when
   * there is none); a dimension with a non-zero stride whenever there is one; among the
   * dimensions with a non-zero stride one of the longest, where all dimensions longer
   * than `SMALL_IMAGE` tie; and among those long dimensions one with the smallest stride.
   */
  predicate GoodProcessingDim(sizes: seq<nat>, strides: seq<int>, pd: nat)
    requires |sizes| == |strides|
  {
    (|strides| == 0 && pd == 0)
    || (pd < |strides|
        && ((forall k :: 0 <= k < |strides| ==> strides[k] == 0) ==> pd == 0)
        && (strides[pd] == 0 ==> forall k :: 0 <= k < |strides| ==> strides[k] == 0)
        && (forall k :: 0 <= k < |strides| && strides[k] != 0 ==> Capped(sizes[k]) <= Capped(sizes[pd]))
        && (forall k :: 0 <= k < |strides| && strides[k] != 0 && sizes[k] > SMALL_IMAGE ==>
              Abs(strides[pd]) <= Abs(strides[k])))
  }

  method OptimalProcessingDimInternal(sizes: seq<nat>, strides: seq<int>) returns (processingDim: nat)
    requires |sizes| == |strides|
    ensures GoodProcessingDim(sizes, strides, processingDim)
  {
    processingDim := 0;
    var ii := 1;
    while ii < |strides|
      invariant 1 <= ii && processingDim < ii && (|strides| == 0 ==> processingDim == 0)
      invariant |strides| > 0 ==> ii <= |strides|
      invariant |strides| > 0 && strides[processingDim] == 0 ==>
        processingDim == 0 && forall k :: 0 <= k < ii ==> strides[k] == 0
      invariant |strides| > 0 ==> forall k :: 0 <= k < ii && strides[k] != 0 ==>
        Capped(sizes[k]) <= Capped(sizes[processingDim])
      invariant |strides| > 0 ==> forall k :: 0 <= k < ii && strides[k] != 0 && sizes[k] > SMALL_IMAGE ==>
        Abs(strides[processingDim]) <= Abs(strides[k])
    {
      if strides[ii] != 0 {
        if strides[processingDim] == 0
          || (sizes[ii] > SMALL_IMAGE && Abs(strides[ii]) < Abs(strides[processingDim]))
          || (sizes[processingDim] <= SMALL_IMAGE && sizes[ii] > sizes[processingDim])
        {
          processingDim := ii;
        }
      }
      ii := ii + 1;
    }
  }

  /** The processing dimension of a forged image. */
  method OptimalProcessingDim(img: Image) returns (r: Result<nat>)
    requires img.WellFormed()
    ensures r.Failure? <==> !img.forged
    ensures r.Failure? ==> r.error == ImageNotForged
    ensures r.Success? ==> GoodProcessingDim(img.sizes, img.strides, r.value)
  {
    if !img.forged {
      return Failure(ImageNotForged);
    }
    var pd := OptimalProcessingDimInternal(img.sizes, img.strides);
    return Success(pd);
  }

  /** The sizes the kernel-aware search looks at: a dimension with a unit kernel counts as a singleton. */
  function MaskUnitKernel(sizes: seq<nat>, kernelSizes: seq<nat>): (r: seq<nat>)
    requires |sizes| == |kernelSizes|
  {
    seq(|sizes|, i requires 0 <= i < |sizes| => if kernelSizes[i] == 1 then 1 else sizes[i])
  }

  /**
   * The processing dimension of a forged image for a kernel of the given sizes: the same
   * search, where dimensions along which the kernel has size 1 count as singletons. Such
   * a dimension is therefore avoided whenever a non-singleton dimension with a
   * non-unit kernel and a non-zero stride exists.
   */
  method OptimalProcessingDimForKernel(img: Image, kernelSizes: seq<nat>) returns (r: Result<nat>)
    requires img.WellFormed()
    ensures !img.forged ==> r == Failure(ImageNotForged)
    ensures img.forged && |kernelSizes| != |img.sizes| ==> r == Failure(ArrayParameterWrongLength)
    ensures img.forged && |kernelSizes| == |img.sizes| ==>
      r.Success? && GoodProcessingDim(MaskUnitKernel(img.sizes, kernelSizes), img.strides, r.value)
    ensures r.Success? && (exists k :: 0 <= k < |img.strides| && img.strides[k] != 0
                                       && kernelSizes[k] != 1 && img.sizes[k] >= 2) ==>
      kernelSizes[r.value] != 1
  {
    if !img.forged {
      return Failure(ImageNotForged);
    }
    if |img.sizes| != |kernelSizes| {
      return Failure(ArrayParameterWrongLength);
    }
    var sizes := img.sizes;
    var ii := 0;
    while ii < |sizes|
      invariant 0 <= ii <= |sizes| == |img.sizes|
      invariant forall k :: 0 <= k < ii ==> sizes[k] == MaskUnitKernel(img.sizes, kernelSizes)[k]
      invariant forall k :: ii <= k < |sizes| ==> sizes[k] == img.sizes[k]
    {
      if kernelSizes[ii] == 1 {
        sizes := sizes[ii := 1];
      }
      ii := ii + 1;
    }
    assert sizes == MaskUnitKernel(img.sizes, kernelSizes);
    var pd := OptimalProcessingDimInternal(sizes, img.strides);
    if exists k :: 0 <= k < |img.strides| && img.strides[k] != 0 && kernelSizes[k] != 1 && img.sizes[k] >= 2 {
      var k :| 0 <= k < |img.strides| && img.strides[k] != 0 && kernelSizes[k] != 1 && img.sizes[k] >= 2;
      assert Capped(sizes[k]) >= 2;
    }
    return Success(pd);
  }

  // ---- Splitting an image into blocks of lines ----

  /** The first dimension the splitter walks along: 0, or 1 when 0 is the processing dimension. */
  function FirstDim(processingDim: nat): nat { if processingDim == 0 then 1 else 0 }

  /**
   * The step in pixels of dimension `k` in the order the splitter walks: the product of
   * the sizes of the dimensions below `k`, the processing dimension left out.
   */
  function Weight(sizes: seq<nat>, pd: nat, k: nat): (w: nat)
    requires k <= |sizes|
    ensures AllPositive(sizes) ==> w >= 1
  {
    if k == 0 then 1 else Weight(sizes, pd, k - 1) * (if k - 1 == pd then 1 else sizes[k - 1])
  }

  /** Coordinate `d` of `c`; coordinates beyond `c` count as 0. */
  function CoordAt(c: seq<nat>, d: nat): nat { if d < |c| then c[d] else 0 }

  /** The position of `c` counting only its dimensions below `k`. */
  function ValueBelow(sizes: seq<nat>, pd: nat, c: seq<nat>, k: nat): nat
    requires k <= |sizes|
  {
    if k == 0 then 0
    else ValueBelow(sizes, pd, c, k - 1) + (if k - 1 == pd then 0 else CoordAt(c, k - 1) * Weight(sizes, pd, k - 1))
  }

  /**
   * The position of the coordinates `c` in the order in which the splitter walks the
   * image: dimension 0 fastest, with the processing dimension left out.
   */
  function Position(sizes: seq<nat>, pd: nat, c: seq<nat>): nat {
    ValueBelow(sizes, pd, c, |sizes|)
  }

  /** The number of positions: the product of all sizes except the processing dimension's. */
  function Span(sizes: seq<nat>, pd: nat): (n: nat)
    ensures AllPositive(sizes) ==> n >= 1
  {
    Weight(sizes, pd, |sizes|)
  }

  /** Coordinates inside the image whose processing-dimension coordinate is 0. */
  predicate InDomain(sizes: seq<nat>, pd: nat, c: seq<nat>) {
    |c| == |sizes|
    && (forall d :: 0 <= d < |c| ==> c[d] < sizes[d])
    && (pd < |c| ==> c[pd] == 0)
  }

  lemma MulMonotone(a: nat, b: nat, w: nat)
    requires a <= b
    ensures a * w <= b * w
  {
  }

  /** Every position of an in-domain coordinate is below the span. */
  lemma {:induction false} PositionBound(sizes: seq<nat>, pd: nat, c: seq<nat>, k: nat)
    requires k <= |sizes| && InDomain(sizes, pd, c)
    ensures ValueBelow(sizes, pd, c, k) < Weight(sizes, pd, k)
  {
    if k > 0 {
      PositionBound(sizes, pd, c, k - 1);
      var w := Weight(sizes, pd, k - 1);
      if k - 1 != pd {
        MulMonotone(c[k - 1], sizes[k - 1] - 1, w);
        assert (sizes[k - 1] - 1) * w == sizes[k - 1] * w - w;
      }
    }
  }

  /** Changing coordinate `d` from `c[d]` to `v` trades `c[d]` steps of dimension `d` for `v` steps. */
  lemma {:induction false} PositionUpdate(sizes: seq<nat>, pd: nat, c: seq<nat>, d: nat, v: nat, k: nat)
    requires k <= |sizes| && d < |c| && d != pd
    ensures ValueBelow(sizes, pd, c[d := v], k) + (if d < k then c[d] * Weight(sizes, pd, d) else 0)
         == ValueBelow(sizes, pd, c, k) + (if d < k then v * Weight(sizes, pd, d) else 0)
  {
    if k > 0 {
      PositionUpdate(sizes, pd, c, d, v, k - 1);
    }
  }

  lemma {:induction false} PositionOfZero(sizes: seq<nat>, pd: nat, k: nat)
    requires k <= |sizes|
    ensures ValueBelow(sizes, pd, seq(|sizes|, _ => 0), k) == 0
  {
    if k > 0 {
      PositionOfZero(sizes, pd, k - 1);
    }
  }

  /** A value written as `a + q * span` with `0 <= a < span` has remainder `a`. */
  lemma ModUnique(a: int, b: int, q: int, span: int)
    requires span > 0 && 0 <= a < span && a + q * span == b
    ensures a == b % span
  {
    var d := q - b / span;
    assert d * span == b % span - a;
    if d >= 1 {
      MulMonotone(1, d, span);
    } else if d <= -1 {
      MulMonotone(1, -d, span);
    }
  }

  lemma ModAdd(x: int, p: int, span: int)
    requires span > 0
    ensures (x % span + p) % span == (x + p) % span
  {
    var a := (x % span + p) % span;
    var q := (x % span + p) / span;
    assert a + q * span == x % span + p;
    assert x % span == x - (x / span) * span;
    assert a + (q + x / span) * span == x + p;
    ModUnique(a, x + p, q + x / span, span);
  }

  /** Rewinding the first dimension to 0 and carrying one line on moves the position by what was left of the line. */
  lemma RewindFirst(sizes: seq<nat>, pd: nat, c: seq<nat>)
    requires InDomain(sizes, pd, c) && FirstDim(pd) < |sizes|
    ensures Position(sizes, pd, c[FirstDim(pd) := 0]) + Weight(sizes, pd, FirstDim(pd) + 1)
         == Position(sizes, pd, c) + (sizes[FirstDim(pd)] - c[FirstDim(pd)])
  {
    var f := FirstDim(pd);
    assert Weight(sizes, pd, f) == 1;
    assert Weight(sizes, pd, f + 1) == sizes[f];
    PositionUpdate(sizes, pd, c, f, 0, |sizes|);
  }

  /** Moving along the first dimension by `m` within its line moves the position by `m`. */
  lemma ForwardFirst(sizes: seq<nat>, pd: nat, c: seq<nat>, m: nat)
    requires InDomain(sizes, pd, c) && FirstDim(pd) < |sizes|
    ensures Position(sizes, pd, c[FirstDim(pd) := c[FirstDim(pd)] + m]) == Position(sizes, pd, c) + m
  {
    var f := FirstDim(pd);
    assert Weight(sizes, pd, f) == 1;
    PositionUpdate(sizes, pd, c, f, c[f] + m, |sizes|);
  }

  /** Counting dimension `d` up by one moves the position by one step of `d`. */
  lemma CountUp(sizes: seq<nat>, pd: nat, c: seq<nat>, d: nat)
    requires |c| == |sizes| && d < |sizes| && d != pd
    ensures Position(sizes, pd, c[d := c[d] + 1]) == Position(sizes, pd, c) + Weight(sizes, pd, d)
  {
    var w := Weight(sizes, pd, d);
    PositionUpdate(sizes, pd, c, d, c[d] + 1, |sizes|);
    assert (c[d] + 1) * w == c[d] * w + w;
  }

  /** Rewinding a full dimension `d` to 0 and carrying one step of `d + 1` leaves the position unchanged. */
  lemma Carry(sizes: seq<nat>, pd: nat, c: seq<nat>, d: nat)
    requires |c| == |sizes| && d < |sizes| && d != pd && c[d] == sizes[d]
    ensures Position(sizes, pd, c[d := 0]) + Weight(sizes, pd, d + 1) == Position(sizes, pd, c)
  {
    var w := Weight(sizes, pd, d);
    assert Weight(sizes, pd, d + 1) == w * sizes[d];
    PositionUpdate(sizes, pd, c, d, 0, |sizes|);
    assert c[d] * w == w * sizes[d];
  }

  /**
   * One pass of the splitter's inner loop from `c0` with `r0` pixels still to go: the
   * first dimension moves forward as far as its line allows; if the line is used up it
   * rewinds and the following dimensions count up with carry. `wrapped` is 1 when the
   * carry ran past the last dimension, so the walk starts over at the first pixel.
   */
  method WalkLines(sizes: seq<nat>, pd: nat, c0: seq<nat>, r0: nat)
    returns (c: seq<nat>, remaining: nat, ghost wrapped: nat)
    requires AllPositive(sizes) && InDomain(sizes, pd, c0)
    requires r0 == 0 || FirstDim(pd) < |sizes|
    ensures InDomain(sizes, pd, c)
    ensures remaining == 0 || remaining < r0
    ensures wrapped <= 1
    ensures Position(sizes, pd, c) + wrapped * Span(sizes, pd) + remaining == Position(sizes, pd, c0) + r0
  {
    var nDims := |sizes|;
    var firstDim := FirstDim(pd);
    c, remaining, wrapped := c0, r0, 0;
    var dd := 0;
    while dd < nDims
      invariant 0 <= dd <= nDims
      invariant InDomain(sizes, pd, c)
      invariant dd <= firstDim ==> c == c0 && remaining == r0
      invariant dd > firstDim ==> remaining < r0
      invariant dd > firstDim ==>
        Position(sizes, pd, c) + Weight(sizes, pd, dd) + remaining == Position(sizes, pd, c0) + r0
    {
      if dd == firstDim {
        var n := sizes[dd] - c[dd];
        if remaining >= n {
          RewindFirst(sizes, pd, c);
          remaining := remaining - n;
          c := c[dd := 0];
        } else {
          ForwardFirst(sizes, pd, c, remaining);
          c := c[dd := c[dd] + remaining];
          remaining := 0;
          return;
        }
      } else if dd != pd {
        CountUp(sizes, pd, c, dd);
        c := c[dd := c[dd] + 1];
        if c[dd] < sizes[dd] {
          return;
        }
        Carry(sizes, pd, c, dd);
        c := c[dd := 0];
      }
      dd := dd + 1;
    }
    if nDims > firstDim {
      wrapped := 1;
    }
  }

  /**
   * Advances the coordinates `start` by `nPixels` positions, repeating passes of the
   * inner loop until no pixels are left. Past the last pixel the walk wraps to the first.
   */
  method AdvanceStart(sizes: seq<nat>, pd: nat, start: seq<nat>, nPixels: nat) returns (c: seq<nat>)
    requires AllPositive(sizes) && InDomain(sizes, pd, start)
    requires nPixels == 0 || FirstDim(pd) < |sizes|
    ensures InDomain(sizes, pd, c)
    ensures Position(sizes, pd, c) == (Position(sizes, pd, start) + nPixels) % Span(sizes, pd)
  {
    c := start;
    var remaining := nPixels;
    ghost var span := Span(sizes, pd);
    ghost var wraps: nat := 0;
    while true
      invariant InDomain(sizes, pd, c)
      invariant remaining == 0 || FirstDim(pd) < |sizes|
      invariant Position(sizes, pd, c) + wraps * span + remaining == Position(sizes, pd, start) + nPixels
      decreases remaining
    {
      ghost var w;
      c, remaining, w := WalkLines(sizes, pd, c, remaining);
      assert (wraps + w) * span == wraps * span + w * span;
      wraps := wraps + w;
      if remaining == 0 {
        break;
      }
    }
    PositionBound(sizes, pd, c, |sizes|);
    ModUnique(Position(sizes, pd, c), Position(sizes, pd, start) + nPixels, wraps, span);
  }

  /**
   * The start coordinates of `nBlocks` blocks of `nPixelsPerBlock` pixels each, the
   * processing dimension left out of the count: block 0 starts at the origin and each
   * next block `nPixelsPerBlock` positions further on. A processing dimension of
   * `|sizes|` or more means there is none.
   */
  method SplitImageEvenlyForProcessing(sizes: seq<nat>, nBlocks: nat, nPixelsPerBlock: nat, processingDim: nat)
    returns (startCoords: seq<seq<nat>>)
    requires nBlocks >= 1 && AllPositive(sizes)
    requires nBlocks == 1 || nPixelsPerBlock == 0 || FirstDim(processingDim) < |sizes|
    ensures |startCoords| == nBlocks
    ensures startCoords[0] == seq(|sizes|, _ => 0)
    ensures forall i :: 0 <= i < nBlocks ==> InDomain(sizes, processingDim, startCoords[i])
    ensures forall i :: 1 <= i < nBlocks ==>
      Position(sizes, processingDim, startCoords[i])
        == (Position(sizes, processingDim, startCoords[i - 1]) + nPixelsPerBlock) % Span(sizes, processingDim)
    ensures forall i :: 0 <= i < nBlocks ==>
      Position(sizes, processingDim, startCoords[i]) == BlockStart(i, nPixelsPerBlock, Span(sizes, processingDim))
  {
    var span := Span(sizes, processingDim);
    PositionOfZero(sizes, processingDim, |sizes|);
    startCoords := [seq(|sizes|, _ => 0)];
    var ii := 1;
    while ii < nBlocks
      invariant 1 <= ii <= nBlocks && |startCoords| == ii
      invariant startCoords[0] == seq(|sizes|, _ => 0)
      invariant forall i :: 0 <= i < ii ==> InDomain(sizes, processingDim, startCoords[i])
      invariant forall i :: 0 <= i < ii ==>
        Position(sizes, processingDim, startCoords[i]) == BlockStart(i, nPixelsPerBlock, span)
    {
      var next := AdvanceStart(sizes, processingDim, startCoords[ii - 1], nPixelsPerBlock);
      NextBlockStart(ii, nPixelsPerBlock, span);
      startCoords := startCoords + [next];
      ii := ii + 1;
    }
    forall i | 1 <= i < nBlocks
      ensures Position(sizes, processingDim, startCoords[i])
        == (Position(sizes, processingDim, startCoords[i - 1]) + nPixelsPerBlock) % span
    {
      NextBlockStart(i, nPixelsPerBlock, span);
    }
  }

  /** The position at which block `i` starts. */
  function BlockStart(i: nat, nPixelsPerBlock: nat, span: nat): nat
    requires span > 0
  {
    (i * nPixelsPerBlock) % span
  }

  lemma NextBlockStart(i: nat, nPixelsPerBlock: nat, span: nat)
    requires span > 0 && i >= 1
    ensures BlockStart(i, nPixelsPerBlock, span) == (BlockStart(i - 1, nPixelsPerBlock, span) + nPixelsPerBlock) % span
  {
    ModAdd((i - 1) * nPixelsPerBlock, nPixelsPerBlock, span);
    assert (i - 1) * nPixelsPerBlock + nPixelsPerBlock == i * nPixelsPerBlock;
  }
}

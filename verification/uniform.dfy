/**
 * The rectangular uniform (box) filter: per-dimension parameters for the separable
 * framework, and the line filter that slides a running sum of `fs` samples along a
 * line whose margin the framework has padded.
 *
 * Sample values are modelled as `real`; the float and complex sample types, and the
 * rounding of their arithmetic, are not modelled. A line lives in an array of samples:
 * sample `j` of a line that starts at index `at` with step `stride` is at `Addr(at, j, stride)`.
 */
module Uniform {
  import opened Errors
  import opened DataTypes
  import opened Images
  import opened Separable

  // ---------------------------------------------------------------------------------
  // Lines, margins and windows
  // ---------------------------------------------------------------------------------

  /**
   * The array index of sample `j` of the line that starts at `at` with step `stride`,
   * reached one step at a time as the filter's pointers are.
   */
  function Addr(at: int, j: int, stride: int): int
    decreases if j < 0 then -j else j
  {
    if j == 0 then at
    else if j > 0 then Addr(at, j - 1, stride) + stride
    else Addr(at, j + 1, stride) - stride
  }

  /** Moving a pointer on by one step. */
  lemma AddrStep(at: int, j: int, stride: int)
    ensures Addr(at, j + 1, stride) == Addr(at, j, stride) + stride
  {
  }

  /** Sample `j` is at `at + j * stride`. */
  lemma {:induction false} AddrIsLinear(at: int, j: int, stride: int)
    ensures Addr(at, j, stride) == at + j * stride
    decreases if j < 0 then -j else j
  {
    if j > 0 {
      AddrIsLinear(at, j - 1, stride);
    } else if j < 0 {
      AddrIsLinear(at, j + 1, stride);
    }
  }

  /** Along a line, indices grow with a non-negative step and shrink with a negative one. */
  lemma {:induction false} AddrMonotone(at: int, a: int, b: int, stride: int)
    requires a <= b
    ensures stride >= 0 ==> Addr(at, a, stride) <= Addr(at, b, stride)
    ensures stride < 0 ==> Addr(at, a, stride) >= Addr(at, b, stride)
    decreases b - a
  {
    if a < b {
      AddrMonotone(at, a, b - 1, stride);
      AddrStep(at, b - 1, stride);
    }
  }

  /** Distinct samples of a line with a non-zero step are at distinct indices. */
  lemma AddrInjective(at: int, a: int, b: int, stride: int)
    requires stride != 0 && a != b
    ensures Addr(at, a, stride) != Addr(at, b, stride)
  {
    AddrIsLinear(at, a, stride);
    AddrIsLinear(at, b, stride);
    assert a * stride - b * stride == (a - b) * stride;
  }

  /**
   * Both ends of the run of samples `lo` to `hi - 1` of a line are inside an array of
   * `size` samples, and so, by `InRun`, is every sample between them.
   */
  predicate RunInMemory(size: nat, at: int, stride: int, lo: int, hi: int) {
    lo < hi ==> 0 <= Addr(at, lo, stride) < size && 0 <= Addr(at, hi - 1, stride) < size
  }

  /** A sample between the two ends of a run in memory is in memory. */
  lemma InRun(size: nat, at: int, stride: int, lo: int, hi: int, j: int)
    requires RunInMemory(size, at, stride, lo, hi) && lo <= j < hi
    ensures 0 <= Addr(at, j, stride) < size
  {
    AddrMonotone(at, lo, j, stride);
    AddrMonotone(at, j, hi - 1, stride);
  }

  /** A part of a run in memory is in memory. */
  lemma SubRun(size: nat, at: int, stride: int, lo: int, hi: int, lo': int, hi': int)
    requires RunInMemory(size, at, stride, lo, hi) && lo <= lo' && hi' <= hi
    ensures RunInMemory(size, at, stride, lo', hi')
  {
    if lo' < hi' {
      InRun(size, at, stride, lo, hi, lo');
      InRun(size, at, stride, lo, hi, hi' - 1);
    }
  }

  /**
   * The line of `length` samples and a margin of `border` samples on either side, the
   * part of a line buffer the framework fills, are inside an array of `size` samples.
   */
  predicate MarginInMemory(size: nat, at: int, stride: int, length: nat, border: nat) {
    RunInMemory(size, at, stride, -(border as int), length + border)
  }

  /** The `length` output samples are inside an array of `size` samples. */
  predicate LineInMemory(size: nat, at: int, stride: int, length: nat) {
    forall k :: 0 <= k < length ==> 0 <= Addr(at, k, stride) < size
  }

  /** `i` is not one of the `length` samples of the line that starts at `at`. */
  predicate OffLine(i: int, at: int, stride: int, length: nat) {
    forall k :: 0 <= k < length ==> i != Addr(at, k, stride)
  }

  /** The leftmost offset of the filter window of output `k`. */
  function WindowFirst(k: int, fs: nat): int {
    k - fs / 2
  }

  /** One past the rightmost offset of the filter window of output `k`: the window holds `fs` samples. */
  function WindowEnd(k: int, fs: nat): (e: int)
    ensures e - WindowFirst(k, fs) == fs
  {
    k + (fs + 1) / 2
  }

  /**
   * A border of `fs / 2` samples covers the window of every output: the window reaches
   * `fs / 2` samples to the left and `(fs + 1) / 2 - 1` (which is at most `fs / 2`) to the right.
   */
  lemma BorderCoversWindow(fs: nat, length: nat, k: int)
    requires 0 <= k < length
    ensures -(fs / 2) <= WindowFirst(k, fs) && WindowEnd(k, fs) <= length + fs / 2
    ensures WindowFirst(0, fs) == -(fs / 2)
  {
  }

  /** The sum of the samples at offsets `lo` to `hi - 1` of a line. */
  function SumAlong(mem: seq<real>, at: int, stride: int, lo: int, hi: int): real
    requires RunInMemory(|mem|, at, stride, lo, hi)
    decreases hi - lo
  {
    if hi <= lo then 0.0
    else
      SubRun(|mem|, at, stride, lo, hi, lo, hi - 1);
      SumAlong(mem, at, stride, lo, hi - 1) + mem[Addr(at, hi - 1, stride)]
  }

  /** Taking the first sample off a sum. */
  lemma {:induction false} SumAlongFirst(mem: seq<real>, at: int, stride: int, lo: int, hi: int)
    requires lo < hi && RunInMemory(|mem|, at, stride, lo, hi)
    ensures RunInMemory(|mem|, at, stride, lo + 1, hi)
    ensures SumAlong(mem, at, stride, lo, hi) == mem[Addr(at, lo, stride)] + SumAlong(mem, at, stride, lo + 1, hi)
    decreases hi - lo
  {
    SubRun(|mem|, at, stride, lo, hi, lo + 1, hi);
    SubRun(|mem|, at, stride, lo, hi, lo, hi - 1);
    if lo < hi - 1 {
      SumAlongFirst(mem, at, stride, lo, hi - 1);
      SubRun(|mem|, at, stride, lo, hi, lo + 1, hi - 1);
    }
  }

  /** `n` copies of `v` added up one at a time, as a running sum does. */
  function Copies(n: nat, v: real): real {
    if n == 0 then 0.0 else Copies(n - 1, v) + v
  }

  /** `n` copies of `v` add up to `n * v`. */
  lemma {:induction false} CopiesIsProduct(n: nat, v: real)
    ensures Copies(n, v) == n as real * v
  {
    if n > 0 {
      CopiesIsProduct(n - 1, v);
      calc {
        Copies(n, v);
        (n - 1) as real * v + v;
        ((n - 1) as real + 1.0) * v;
        n as real * v;
      }
    }
  }

  /** The sum over a run of equal samples is that many copies of their value. */
  lemma {:induction false} SumAlongConstant(mem: seq<real>, at: int, stride: int, lo: int, hi: int, v: real)
    requires lo <= hi && RunInMemory(|mem|, at, stride, lo, hi)
    requires forall j :: lo <= j < hi && 0 <= Addr(at, j, stride) < |mem| ==> mem[Addr(at, j, stride)] == v
    ensures SumAlong(mem, at, stride, lo, hi) == Copies(hi - lo, v)
    decreases hi - lo
  {
    if lo < hi {
      SubRun(|mem|, at, stride, lo, hi, lo, hi - 1);
      SumAlongConstant(mem, at, stride, lo, hi - 1, v);
      assert hi - 1 - lo == (hi - lo) - 1;
    }
  }

  /** The sum of the filter window of output `k`. */
  function WindowSum(mem: seq<real>, at: int, stride: int, length: nat, fs: nat, k: int): real
    requires MarginInMemory(|mem|, at, stride, length, fs / 2) && 0 <= k < length
  {
    BorderCoversWindow(fs, length, k);
    SubRun(|mem|, at, stride, -(fs / 2), length + fs / 2, WindowFirst(k, fs), WindowEnd(k, fs));
    SumAlong(mem, at, stride, WindowFirst(k, fs), WindowEnd(k, fs))
  }

  /** A window sum scaled by the filter's normalisation factor `1 / fs`. */
  function Normalized(sum: real, fs: nat): real
    requires fs >= 1
  {
    sum * (1.0 / fs as real)
  }

  /** Multiplying by a precomputed `1 / fs` is normalising. */
  lemma ScaledIsNormalized(sum: real, fs: nat, norm: real)
    requires fs >= 1 && norm == 1.0 / fs as real
    ensures sum * norm == Normalized(sum, fs)
  {
  }

  /** The mean of the filter window of output `k`: what the box filter writes there. */
  function Mean(mem: seq<real>, at: int, stride: int, length: nat, fs: nat, k: int): real
    requires fs >= 1
    requires MarginInMemory(|mem|, at, stride, length, fs / 2) && 0 <= k < length
  {
    Normalized(WindowSum(mem, at, stride, length, fs, k), fs)
  }

  /** Normalising the sum of `fs` equal samples gives their value back. */
  lemma NormalizedMultiple(fs: nat, v: real)
    requires fs >= 1
    ensures Normalized(fs as real * v, fs) == v
  {
    var f := fs as real;
    assert f * (1.0 / f) == 1.0;
    calc {
      Normalized(f * v, fs);
      (f * v) * (1.0 / f);
      v * (f * (1.0 / f));
    }
  }

  /** Moving the window one sample on drops its leftmost sample and adds the one past its end. */
  lemma WindowSlides(mem: seq<real>, at: int, stride: int, length: nat, fs: nat, k: int)
    requires fs >= 1 && MarginInMemory(|mem|, at, stride, length, fs / 2) && 0 <= k < length - 1
    ensures 0 <= Addr(at, WindowFirst(k, fs), stride) < |mem| && 0 <= Addr(at, WindowEnd(k, fs), stride) < |mem|
    ensures WindowSum(mem, at, stride, length, fs, k + 1)
         == WindowSum(mem, at, stride, length, fs, k) - mem[Addr(at, WindowFirst(k, fs), stride)]
            + mem[Addr(at, WindowEnd(k, fs), stride)]
  {
    BorderCoversWindow(fs, length, k);
    BorderCoversWindow(fs, length, k + 1);
    InRun(|mem|, at, stride, -(fs / 2), length + fs / 2, WindowFirst(k, fs));
    InRun(|mem|, at, stride, -(fs / 2), length + fs / 2, WindowEnd(k, fs));
    SubRun(|mem|, at, stride, -(fs / 2), length + fs / 2, WindowFirst(k, fs), WindowEnd(k, fs));
    SumAlongFirst(mem, at, stride, WindowFirst(k, fs), WindowEnd(k, fs));
    assert WindowFirst(k + 1, fs) == WindowFirst(k, fs) + 1 && WindowEnd(k + 1, fs) == WindowEnd(k, fs) + 1;
  }

  /** The sum over a window of equal samples is `fs` times their value. */
  lemma ConstantWindowSum(mem: seq<real>, at: int, stride: int, length: nat, fs: nat, k: int, v: real)
    requires MarginInMemory(|mem|, at, stride, length, fs / 2) && 0 <= k < length
    requires forall j :: WindowFirst(k, fs) <= j < WindowEnd(k, fs) && 0 <= Addr(at, j, stride) < |mem|
               ==> mem[Addr(at, j, stride)] == v
    ensures WindowSum(mem, at, stride, length, fs, k) == fs as real * v
  {
    BorderCoversWindow(fs, length, k);
    var lo, hi := WindowFirst(k, fs), WindowEnd(k, fs);
    SubRun(|mem|, at, stride, -(fs / 2), length + fs / 2, lo, hi);
    SumAlongConstant(mem, at, stride, lo, hi, v);
    assert hi - lo == fs;
    assert WindowSum(mem, at, stride, length, fs, k) == Copies(fs, v);
    CopiesIsProduct(fs, v);
  }

  /** The box filter keeps a constant line: the mean of a window of equal samples is their value. */
  lemma ConstantWindowMean(mem: seq<real>, at: int, stride: int, length: nat, fs: nat, k: int, v: real)
    requires fs >= 1 && MarginInMemory(|mem|, at, stride, length, fs / 2) && 0 <= k < length
    requires forall j :: WindowFirst(k, fs) <= j < WindowEnd(k, fs) && 0 <= Addr(at, j, stride) < |mem|
               ==> mem[Addr(at, j, stride)] == v
    ensures Mean(mem, at, stride, length, fs, k) == v
  {
    ConstantWindowSum(mem, at, stride, length, fs, k, v);
    NormalizedMultiple(fs, v);
  }

  /** On a line with step 0 every sample of every window is the sample at `at`. */
  lemma StrideZeroWindow(mem: seq<real>, at: int, length: nat, fs: nat, k: int)
    requires MarginInMemory(|mem|, at, 0, length, fs / 2) && 0 <= k < length
    ensures 0 <= at < |mem|
    ensures forall j :: WindowFirst(k, fs) <= j < WindowEnd(k, fs) && 0 <= Addr(at, j, 0) < |mem|
              ==> mem[Addr(at, j, 0)] == mem[at]
  {
    InRun(|mem|, at, 0, -(fs / 2), length + fs / 2, 0);
    forall j | WindowFirst(k, fs) <= j < WindowEnd(k, fs) && 0 <= Addr(at, j, 0) < |mem|
      ensures mem[Addr(at, j, 0)] == mem[at]
    {
      AddrStrideZero(at, j);
    }
  }

  /** On a line with step 0 every window sums `fs` copies of the sample at `at`. */
  lemma StrideZeroSum(mem: seq<real>, at: int, length: nat, fs: nat, k: int)
    requires MarginInMemory(|mem|, at, 0, length, fs / 2) && 0 <= k < length
    ensures 0 <= at < |mem|
    ensures WindowSum(mem, at, 0, length, fs, k) == fs as real * mem[at]
  {
    StrideZeroWindow(mem, at, length, fs, k);
    ConstantWindowSum(mem, at, 0, length, fs, k, mem[at]);
  }

  /**
   * On a line with step 0 every window mean is the sample at `at`: this is what the
   * filter should write for a singleton-expanded input line.
   */
  lemma StrideZeroMean(mem: seq<real>, at: int, length: nat, fs: nat, k: int)
    requires fs >= 1 && MarginInMemory(|mem|, at, 0, length, fs / 2) && 0 <= k < length
    ensures 0 <= at < |mem|
    ensures Mean(mem, at, 0, length, fs, k) == mem[at]
  {
    StrideZeroWindow(mem, at, length, fs, k);
    ConstantWindowMean(mem, at, 0, length, fs, k, mem[at]);
  }

  /** A line with step 0 stays on its first sample. */
  lemma AddrStrideZero(at: int, j: int)
    ensures Addr(at, j, 0) == at
  {
    AddrIsLinear(at, j, 0);
  }

  // ---------------------------------------------------------------------------------
  // The line filter
  // ---------------------------------------------------------------------------------

  /**
   * Adding sample `c` of the first window: it is in the margin and in memory, the sum's
   * run grows by it, the pointer moves one step on, and with a non-zero step the pointer
   * reaches the end of the window exactly after the last sample.
   */
  lemma FirstWindowStep(mem: seq<real>, start: int, inStride: int, length: nat, fs: nat, c: nat)
    requires length >= 1 && c < fs && MarginInMemory(|mem|, start, inStride, length, fs / 2)
    requires RunInMemory(|mem|, start, inStride, WindowFirst(0, fs), WindowFirst(0, fs) + c)
    ensures -(fs / 2) <= WindowFirst(0, fs) + c < length + fs / 2
    ensures 0 <= Addr(start, WindowFirst(0, fs) + c, inStride) < |mem|
    ensures RunInMemory(|mem|, start, inStride, WindowFirst(0, fs), WindowFirst(0, fs) + c + 1)
    ensures SumAlong(mem, start, inStride, WindowFirst(0, fs), WindowFirst(0, fs) + c + 1)
         == SumAlong(mem, start, inStride, WindowFirst(0, fs), WindowFirst(0, fs) + c)
            + mem[Addr(start, WindowFirst(0, fs) + c, inStride)]
    ensures Addr(start, WindowFirst(0, fs) + c + 1, inStride) == Addr(start, WindowFirst(0, fs) + c, inStride) + inStride
    ensures inStride != 0 ==>
      (Addr(start, WindowFirst(0, fs) + c + 1, inStride) == Addr(start, WindowEnd(0, fs), inStride) <==> c + 1 == fs)
  {
    var first := WindowFirst(0, fs);
    BorderCoversWindow(fs, length, 0);
    InRun(|mem|, start, inStride, -(fs / 2), length + fs / 2, first + c);
    SubRun(|mem|, start, inStride, -(fs / 2), length + fs / 2, first, first + c + 1);
    AddrStep(start, first + c, inStride);
    if inStride != 0 && c + 1 != fs {
      AddrInjective(start, first + c + 1, WindowEnd(0, fs), inStride);
    }
  }

  /**
   * The sum of the first window, as written: a pointer walks from the leftmost sample
   * until it reaches the one past the window. With a step of 0 the two pointers are
   * equal from the start, so no sample is added and the sum is 0.
   */
  method InitialSumAsWritten(src: array<real>, start: int, inStride: int, length: nat, fs: nat)
    returns (sum: real, ghost touched: seq<int>)
    requires fs >= 1 && length >= 1 && MarginInMemory(src.Length, start, inStride, length, fs / 2)
    ensures inStride != 0 ==> sum == WindowSum(src[..], start, inStride, length, fs, 0)
    ensures inStride == 0 ==> sum == 0.0
    ensures forall j :: j in touched ==> -(fs / 2) <= j < length + fs / 2
  {
    ghost var mem := src[..];
    var left := Addr(start, WindowFirst(0, fs), inStride);
    var right := Addr(start, WindowEnd(0, fs), inStride);
    sum := 0.0;
    touched := [];
    var p := left;
    ghost var c := 0;
    if inStride == 0 {
      AddrStrideZero(start, WindowFirst(0, fs));
      AddrStrideZero(start, WindowEnd(0, fs));
    } else {
      AddrInjective(start, WindowFirst(0, fs), WindowEnd(0, fs), inStride);
    }
    while p != right
      invariant 0 <= c <= fs && p == Addr(start, WindowFirst(0, fs) + c, inStride)
      invariant inStride == 0 ==> p == right && c == 0
      invariant inStride != 0 ==> (p == right <==> c == fs)
      invariant RunInMemory(|mem|, start, inStride, WindowFirst(0, fs), WindowFirst(0, fs) + c)
      invariant sum == SumAlong(mem, start, inStride, WindowFirst(0, fs), WindowFirst(0, fs) + c)
      invariant forall j :: j in touched ==> -(fs / 2) <= j < length + fs / 2
      decreases fs - c
    {
      FirstWindowStep(mem, start, inStride, length, fs, c);
      touched := touched + [WindowFirst(0, fs) + c];
      sum := sum + src[p];
      p := p + inStride;
      c := c + 1;
    }
  }

  /** The sum of the first window, counting the `fs` samples. */
  method InitialSum(src: array<real>, start: int, inStride: int, length: nat, fs: nat)
    returns (sum: real, ghost touched: seq<int>)
    requires fs >= 1 && length >= 1 && MarginInMemory(src.Length, start, inStride, length, fs / 2)
    ensures sum == WindowSum(src[..], start, inStride, length, fs, 0)
    ensures forall j :: j in touched ==> -(fs / 2) <= j < length + fs / 2
  {
    ghost var mem := src[..];
    sum := 0.0;
    touched := [];
    var p := Addr(start, WindowFirst(0, fs), inStride);
    for c := 0 to fs
      invariant p == Addr(start, WindowFirst(0, fs) + c, inStride)
      invariant RunInMemory(|mem|, start, inStride, WindowFirst(0, fs), WindowFirst(0, fs) + c)
      invariant sum == SumAlong(mem, start, inStride, WindowFirst(0, fs), WindowFirst(0, fs) + c)
      invariant forall j :: j in touched ==> -(fs / 2) <= j < length + fs / 2
    {
      FirstWindowStep(mem, start, inStride, length, fs, c);
      touched := touched + [WindowFirst(0, fs) + c];
      sum := sum + src[p];
      p := p + inStride;
    }
  }

  /**
   * One step of the sliding window from output `k - 1` to output `k`: both ends move on
   * by one sample, the sample dropped and the sample added are in memory, and the sum
   * changes by their difference.
   */
  lemma SlideStep(mem: seq<real>, start: int, inStride: int, length: nat, fs: nat, k: int)
    requires fs >= 1 && MarginInMemory(|mem|, start, inStride, length, fs / 2) && 1 <= k < length
    ensures WindowFirst(k, fs) == WindowFirst(k - 1, fs) + 1 && WindowEnd(k, fs) == WindowEnd(k - 1, fs) + 1
    ensures -(fs / 2) <= WindowFirst(k - 1, fs) && WindowEnd(k - 1, fs) < length + fs / 2
    ensures Addr(start, WindowFirst(k, fs), inStride) == Addr(start, WindowFirst(k - 1, fs), inStride) + inStride
    ensures Addr(start, WindowEnd(k, fs), inStride) == Addr(start, WindowEnd(k - 1, fs), inStride) + inStride
    ensures 0 <= Addr(start, WindowFirst(k - 1, fs), inStride) < |mem|
    ensures 0 <= Addr(start, WindowEnd(k - 1, fs), inStride) < |mem|
    ensures WindowSum(mem, start, inStride, length, fs, k)
         == WindowSum(mem, start, inStride, length, fs, k - 1) - mem[Addr(start, WindowFirst(k - 1, fs), inStride)]
            + mem[Addr(start, WindowEnd(k - 1, fs), inStride)]
  {
    WindowSlides(mem, start, inStride, length, fs, k - 1);
    BorderCoversWindow(fs, length, k);
    AddrStep(start, WindowFirst(k - 1, fs), inStride);
    AddrStep(start, WindowEnd(k - 1, fs), inStride);
  }

  /** The next output sample is one step on, and at none of the indices written before. */
  lemma OutputStep(out: int, outStride: int, k: int)
    requires outStride != 0 && k >= 1
    ensures Addr(out, k, outStride) == Addr(out, k - 1, outStride) + outStride
    ensures forall i :: 0 <= i < k ==> Addr(out, i, outStride) != Addr(out, k, outStride)
  {
    AddrStep(out, k - 1, outStride);
    forall i | 0 <= i < k ensures Addr(out, i, outStride) != Addr(out, k, outStride) {
      AddrInjective(out, i, k, outStride);
    }
  }

  /**
   * What the sliding part writes at output `k` when it starts from the sum `sum0`: the
   * window mean, off by whatever `sum0` is off from the first window's sum.
   */
  function SlidOutput(mem: seq<real>, start: int, inStride: int, length: nat, fs: nat, sum0: real, k: int): real
    requires fs >= 1 && MarginInMemory(|mem|, start, inStride, length, fs / 2) && 0 <= k < length
  {
    Normalized(SlidSum(mem, start, inStride, length, fs, sum0, k), fs)
  }

  /** The running sum at output `k` when the first sum was `sum0`. */
  function SlidSum(mem: seq<real>, start: int, inStride: int, length: nat, fs: nat, sum0: real, k: int): real
    requires MarginInMemory(|mem|, start, inStride, length, fs / 2) && 0 <= k < length
  {
    sum0 - WindowSum(mem, start, inStride, length, fs, 0) + WindowSum(mem, start, inStride, length, fs, k)
  }

  /** Sliding from output `k - 1` to `k` drops the sample at `left` and adds the one at `right`. */
  lemma SlidSumStep(mem: seq<real>, start: int, inStride: int, length: nat, fs: nat, sum0: real, k: int,
                    left: int, right: int)
    requires fs >= 1 && MarginInMemory(|mem|, start, inStride, length, fs / 2) && 1 <= k < length
    requires left == Addr(start, WindowFirst(k - 1, fs), inStride)
    requires right == Addr(start, WindowEnd(k - 1, fs), inStride)
    ensures 0 <= left < |mem| && 0 <= right < |mem|
    ensures SlidSum(mem, start, inStride, length, fs, sum0, k)
         == SlidSum(mem, start, inStride, length, fs, sum0, k - 1) - mem[left] + mem[right]
    ensures left + inStride == Addr(start, WindowFirst(k, fs), inStride)
    ensures right + inStride == Addr(start, WindowEnd(k, fs), inStride)
    ensures -(fs / 2) <= WindowFirst(k - 1, fs) && WindowEnd(k - 1, fs) < length + fs / 2
  {
    SlideStep(mem, start, inStride, length, fs, k);
  }

  /** What sliding the window from output `k - 1` to `k` adds to the running sum. */
  function SlideChange(mem: seq<real>, start: int, inStride: int, length: nat, fs: nat, k: int): real
    requires fs >= 1 && MarginInMemory(|mem|, start, inStride, length, fs / 2) && 1 <= k < length
  {
    SlideStep(mem, start, inStride, length, fs, k);
    mem[Addr(start, WindowEnd(k - 1, fs), inStride)] - mem[Addr(start, WindowFirst(k - 1, fs), inStride)]
  }

  /**
   * Running sums that start at `sum0` and change by `SlideChange` from each output to
   * the next are the sums `SlidSum` describes.
   */
  lemma {:induction false} RunningSums(mem: seq<real>, start: int, inStride: int, length: nat, fs: nat,
                                       sum0: real, sums: seq<real>, k: nat)
    requires fs >= 1 && MarginInMemory(|mem|, start, inStride, length, fs / 2)
    requires |sums| == length && k < length && sums[0] == sum0
    requires forall i {:trigger SlideChange(mem, start, inStride, length, fs, i)} :: 1 <= i < length ==>
               sums[i] == sums[i - 1] + SlideChange(mem, start, inStride, length, fs, i)
    ensures sums[k] == SlidSum(mem, start, inStride, length, fs, sum0, k)
  {
    if k > 0 {
      RunningSums(mem, start, inStride, length, fs, sum0, sums, k - 1);
      SlideStep(mem, start, inStride, length, fs, k);
      assert sums[k] == sums[k - 1] + SlideChange(mem, start, inStride, length, fs, k);
    }
  }

  /** Started from the first window's sum, the sliding part writes every window mean. */
  lemma SlidOutputIsMean(mem: seq<real>, start: int, inStride: int, length: nat, fs: nat, sum0: real, k: int)
    requires fs >= 1 && MarginInMemory(|mem|, start, inStride, length, fs / 2) && 0 <= k < length
    requires sum0 == WindowSum(mem, start, inStride, length, fs, 0)
    ensures SlidOutput(mem, start, inStride, length, fs, sum0, k) == Mean(mem, start, inStride, length, fs, k)
  {
    var w0, w := WindowSum(mem, start, inStride, length, fs, 0), WindowSum(mem, start, inStride, length, fs, k);
    assert sum0 - w0 + w == w;
  }

  /** On a line with step 0, sliding from a first sum of 0 writes 0 at every output. */
  lemma SlidOutputStrideZero(mem: seq<real>, start: int, length: nat, fs: nat, k: int)
    requires fs >= 1 && MarginInMemory(|mem|, start, 0, length, fs / 2) && 0 <= k < length
    ensures SlidOutput(mem, start, 0, length, fs, 0.0, k) == 0.0
  {
    StrideZeroSum(mem, start, length, fs, k);
    StrideZeroSum(mem, start, length, fs, 0);
    assert SlidSum(mem, start, 0, length, fs, 0.0, k) == 0.0;
  }

  /**
   * The sliding part of the filter: writes `sum * norm` at the first output, then for
   * every further output drops the leftmost sample, adds the one past the window, and
   * writes again. Whatever the first sum was off by, every output is off by the same.
   */
  method SlideWindow(src: array<real>, start: int, inStride: int, length: nat,
                     dst: array<real>, out: int, outStride: int, fs: nat, sum0: real)
    returns (ghost touched: seq<int>)
    requires src != dst && fs >= 1 && length >= 1
    requires MarginInMemory(src.Length, start, inStride, length, fs / 2)
    requires LineInMemory(dst.Length, out, outStride, length) && (length == 1 || outStride != 0)
    modifies dst
    ensures forall k :: 0 <= k < length ==>
      dst[Addr(out, k, outStride)] == SlidOutput(src[..], start, inStride, length, fs, sum0, k)
    ensures forall i :: 0 <= i < dst.Length && OffLine(i, out, outStride, length) ==> dst[i] == old(dst[i])
    ensures forall j :: j in touched ==> -(fs / 2) <= j < length + fs / 2
  {
    ghost var mem := src[..];
    var norm := 1.0 / fs as real;
    var sum := sum0;
    var left := Addr(start, WindowFirst(0, fs), inStride);
    var right := Addr(start, WindowEnd(0, fs), inStride);
    var o := out;
    touched := [];
    assert o == Addr(out, 0, outStride);
    ScaledIsNormalized(sum, fs, norm);
    dst[o] := sum * norm;
    ghost var sums := [sum];
    ghost var written := [dst[o]];
    for ii := 1 to length
      invariant left == Addr(start, WindowFirst(ii - 1, fs), inStride)
      invariant right == Addr(start, WindowEnd(ii - 1, fs), inStride)
      invariant o == Addr(out, ii - 1, outStride)
      invariant |sums| == ii && sums[0] == sum0 && sum == sums[ii - 1]
      invariant forall k {:trigger SlideChange(mem, start, inStride, length, fs, k)} :: 1 <= k < ii ==>
        sums[k] == sums[k - 1] + SlideChange(mem, start, inStride, length, fs, k)
      invariant |written| == ii
      invariant forall k {:trigger written[k]} :: 0 <= k < ii ==> dst[Addr(out, k, outStride)] == written[k]
      invariant forall k {:trigger written[k]} :: 0 <= k < ii ==> written[k] == Normalized(sums[k], fs)
      invariant forall i :: 0 <= i < dst.Length && OffLine(i, out, outStride, ii) ==> dst[i] == old(dst[i])
      invariant forall j :: j in touched ==> -(fs / 2) <= j < length + fs / 2
    {
      SlideStep(mem, start, inStride, length, fs, ii);
      OutputStep(out, outStride, ii);
      touched := touched + [WindowFirst(ii - 1, fs), WindowEnd(ii - 1, fs)];
      sum := sum - src[left] + src[right];
      assert sum == sums[ii - 1] + SlideChange(mem, start, inStride, length, fs, ii);
      left := left + inStride;
      right := right + inStride;
      o := o + outStride;
      ScaledIsNormalized(sum, fs, norm);
      dst[o] := sum * norm;
      sums := sums + [sum];
      written := written + [dst[o]];
    }
    forall k | 0 <= k < length
      ensures dst[Addr(out, k, outStride)] == SlidOutput(mem, start, inStride, length, fs, sum0, k)
    {
      RunningSums(mem, start, inStride, length, fs, sum0, sums, k);
      assert dst[Addr(out, k, outStride)] == written[k] == Normalized(sums[k], fs);
    }
  }

  /**
   * The line filter as written. With a non-zero input step every output is the mean of
   * its window; with a step of 0 (a singleton-expanded input line) every output is 0.
   */
  method FilterAsWritten(src: array<real>, start: int, inStride: int, length: nat,
                         dst: array<real>, out: int, outStride: int, fs: nat)
    returns (ghost touched: seq<int>)
    requires src != dst && fs >= 1 && length >= 1
    requires MarginInMemory(src.Length, start, inStride, length, fs / 2)
    requires LineInMemory(dst.Length, out, outStride, length) && (length == 1 || outStride != 0)
    modifies dst
    ensures inStride != 0 ==> forall k :: 0 <= k < length ==>
      dst[Addr(out, k, outStride)] == Mean(src[..], start, inStride, length, fs, k)
    ensures inStride == 0 ==> forall k :: 0 <= k < length ==> dst[Addr(out, k, outStride)] == 0.0
    ensures forall i :: 0 <= i < dst.Length && OffLine(i, out, outStride, length) ==> dst[i] == old(dst[i])
    ensures forall j :: j in touched ==> -(fs / 2) <= j < length + fs / 2
  {
    var sum, touched0 := InitialSumAsWritten(src, start, inStride, length, fs);
    var touched1 := SlideWindow(src, start, inStride, length, dst, out, outStride, fs, sum);
    touched := touched0 + touched1;
    forall k | 0 <= k < length
      ensures inStride != 0 ==> dst[Addr(out, k, outStride)] == Mean(src[..], start, inStride, length, fs, k)
      ensures inStride == 0 ==> dst[Addr(out, k, outStride)] == 0.0
    {
      if inStride == 0 {
        SlidOutputStrideZero(src[..], start, length, fs, k);
      } else {
        SlidOutputIsMean(src[..], start, inStride, length, fs, sum, k);
      }
    }
  }

  /**
   * The line filter: every one of the `length` outputs, at `out + k * outStride`, is the
   * mean of the `fs` input samples from `k - fs / 2` to `k + (fs + 1) / 2 - 1`; nothing
   * else in the output array changes, and every sample touched is in the line or its margin
   * of `fs / 2` samples.
   */
  method Filter(src: array<real>, start: int, inStride: int, length: nat,
                dst: array<real>, out: int, outStride: int, fs: nat)
    returns (ghost touched: seq<int>)
    requires src != dst && fs >= 1 && length >= 1
    requires MarginInMemory(src.Length, start, inStride, length, fs / 2)
    requires LineInMemory(dst.Length, out, outStride, length) && (length == 1 || outStride != 0)
    modifies dst
    ensures forall k :: 0 <= k < length ==> dst[Addr(out, k, outStride)] == Mean(src[..], start, inStride, length, fs, k)
    ensures forall i :: 0 <= i < dst.Length && OffLine(i, out, outStride, length) ==> dst[i] == old(dst[i])
    ensures forall j :: j in touched ==> -(fs / 2) <= j < length + fs / 2
  {
    var sum, touched0 := InitialSum(src, start, inStride, length, fs);
    var touched1 := SlideWindow(src, start, inStride, length, dst, out, outStride, fs, sum);
    touched := touched0 + touched1;
    forall k | 0 <= k < length
      ensures dst[Addr(out, k, outStride)] == Mean(src[..], start, inStride, length, fs, k)
    {
      SlidOutputIsMean(src[..], start, inStride, length, fs, sum, k);
    }
  }

  /** A window of one sample is the sample itself: a dimension of filter size 1 needs no pass. */
  lemma UnitWindowIsSample(mem: seq<real>, at: int, stride: int, length: nat, k: int)
    requires MarginInMemory(|mem|, at, stride, length, 0) && 0 <= k < length
    ensures 0 <= Addr(at, k, stride) < |mem|
    ensures Mean(mem, at, stride, length, 1, k) == mem[Addr(at, k, stride)]
  {
    InRun(|mem|, at, stride, 0, length, k);
    assert WindowFirst(k, 1) == k && WindowEnd(k, 1) == k + 1;
    var w := WindowSum(mem, at, stride, length, 1, k);
    SubRun(|mem|, at, stride, 0, length, k, k + 1);
    assert w == SumAlong(mem, at, stride, k, k + 1);
    assert SumAlong(mem, at, stride, k, k + 1) == SumAlong(mem, at, stride, k, k) + mem[Addr(at, k, stride)];
    NormalizedByOne(w);
  }

  /** Normalising by a window of one sample changes nothing. */
  lemma NormalizedByOne(x: real)
    ensures Normalized(x, 1) == x
  {
    assert 1.0 / 1 as real == 1.0;
  }

  // ---------------------------------------------------------------------------------
  // The per-dimension parameters of the rectangular filter
  // ---------------------------------------------------------------------------------

  /** Dimension `d` is filtered: its filter is wider than one sample and so is the image. */
  predicate Filtered(inSizes: seq<nat>, filterSize: seq<nat>, d: int)
    requires 0 <= d < |inSizes| == |filterSize|
  {
    filterSize[d] > 1 && inSizes[d] > 1
  }

  /**
   * The `process`, `sizes` and `border` arrays for an image of sizes `inSizes`: a filtered
   * dimension is processed with its filter size and a border of half of it; any other
   * dimension has size 1 and no border.
   */
  predicate RectangularSetup(inSizes: seq<nat>, filterSize: seq<nat>,
                             process: seq<bool>, sizes: seq<nat>, border: seq<nat>)
    requires |inSizes| == |filterSize|
  {
    |process| == |sizes| == |border| == |inSizes|
    && forall d :: 0 <= d < |inSizes| ==>
         process[d] == Filtered(inSizes, filterSize, d)
         && sizes[d] == (if process[d] then filterSize[d] else 1)
         && border[d] == sizes[d] / 2
  }

  /** The loop that sets up the per-dimension parameters of the rectangular filter. */
  method RectangularParameters(inSizes: seq<nat>, filterSize: seq<nat>)
    returns (process: seq<bool>, sizes: seq<nat>, border: seq<nat>)
    requires |filterSize| == |inSizes|
    ensures RectangularSetup(inSizes, filterSize, process, sizes, border)
  {
    var nDims := |inSizes|;
    process := seq(nDims, _ => false);
    sizes := seq(nDims, _ => 1);
    border := seq(nDims, _ => 0);
    for ii := 0 to nDims
      invariant |process| == |sizes| == |border| == nDims
      invariant forall d :: 0 <= d < ii ==>
        process[d] == Filtered(inSizes, filterSize, d)
        && sizes[d] == (if process[d] then filterSize[d] else 1)
        && border[d] == sizes[d] / 2
      invariant forall d :: ii <= d < nDims ==> !process[d] && sizes[d] == 1 && border[d] == 0
    {
      if filterSize[ii] > 1 && inSizes[ii] > 1 {
        sizes := sizes[ii := filterSize[ii]];
        process := process[ii := true];
        border := border[ii := sizes[ii] / 2];
      }
    }
  }

  /** Every processed dimension has a window of at least two samples and a margin that holds half of it. */
  lemma ProcessedWindowsFitBorder(inSizes: seq<nat>, filterSize: seq<nat>,
                                  process: seq<bool>, sizes: seq<nat>, border: seq<nat>,
                                  d: int, length: nat, k: int)
    requires |inSizes| == |filterSize| && RectangularSetup(inSizes, filterSize, process, sizes, border)
    requires 0 <= d < |inSizes| && process[d] && 0 <= k < length
    ensures sizes[d] >= 2 && sizes[d] == filterSize[d]
    ensures -(border[d] as int) == WindowFirst(0, sizes[d])
    ensures -(border[d] as int) <= WindowFirst(k, sizes[d]) && WindowEnd(k, sizes[d]) <= length + border[d]
  {
    BorderCoversWindow(sizes[d], length, k);
  }

  /** The image has dimensions, and none of them is filtered. */
  predicate NothingToFilter(inSizes: seq<nat>, filterSize: seq<nat>)
    requires |inSizes| == |filterSize|
  {
    |inSizes| > 0 && forall d :: 0 <= d < |inSizes| ==> !Filtered(inSizes, filterSize, d)
  }

  /**
   * What the separable driver makes of the rectangular filter's parameters: nothing to
   * do when no dimension is filtered, a boundary-condition array of the wrong length,
   * or a run.
   */
  function BoxVerdict(inSizes: seq<nat>, filterSize: seq<nat>, bc: seq<BoundaryCondition>): (v: Result<bool>)
    requires |inSizes| == |filterSize|
    ensures v.Failure? ==> v.error == ArrayParameterWrongLength
  {
    if NothingToFilter(inSizes, filterSize) then Success(false)
    else if LengthAccepted(|bc|, |inSizes|) then Success(true)
    else Failure(ArrayParameterWrongLength)
  }

  /**
   * The rectangular filter's parameters pass the separable driver's checks: its verdict
   * is `BoxVerdict`, whatever the output image's sizes. The border array always has one
   * entry per dimension, so only the boundary conditions can be of the wrong length.
   */
  lemma RectangularVerdict(inSizes: seq<nat>, cOutSizes: seq<nat>, filterSize: seq<nat>,
                           process: seq<bool>, sizes: seq<nat>, border: seq<nat>, bc: seq<BoundaryCondition>)
    requires |inSizes| == |filterSize| && RectangularSetup(inSizes, filterSize, process, sizes, border)
    ensures Verdict(inSizes, cOutSizes, process, border, bc, {AsScalarImage}) == BoxVerdict(inSizes, filterSize, bc)
  {
    var n := |inSizes|;
    if NothingToFilter(inSizes, filterSize) {
      assert true !in process by {
        forall d | 0 <= d < n ensures !process[d] { }
      }
    } else if n > 0 {
      var d :| 0 <= d < n && Filtered(inSizes, filterSize, d);
      assert process[d];
    }
  }

  // ---------------------------------------------------------------------------------
  // The filter entry point
  // ---------------------------------------------------------------------------------

  /** The kernel's shape: a rectangle or another shape, with or without weights. */
  datatype Kernel = Kernel(rectangular: bool, weighted: bool)

  /** The path the filter took. */
  datatype UniformOutcome =
    | BoxFiltered(process: seq<bool>, sizes: seq<nat>, border: seq<nat>, bufferType: DataType, outcome: Outcome)
    | PixelTableFiltered  // a kernel of another shape goes to the pixel-table filter

  /** The image and kernel pass the entry checks and the kernel is a rectangle. */
  predicate BoxPath(cIn: Image, kernel: Kernel) {
    cIn.forged && !kernel.weighted && kernel.rectangular
  }

  /** In a run, the driver processes exactly the filtered dimensions, each with a margin of half its window. */
  ghost predicate RunsFilteredDimensions(s: Setup, cIn: Image, sizes: seq<nat>, process: seq<bool>)
  {
    var n := |cIn.sizes|;
    |s.process| >= n && |sizes| == |process| == n && SetupOk(s)
    && forall d :: 0 <= d < n ==> s.process[d] == process[d] && s.border[d] == sizes[d] / 2
  }

  /**
   * The uniform filter. An unforged image and a weighted kernel are refused, in that
   * order; a rectangular kernel runs the separable driver with the parameters above and
   * the floating-point or complex type `flexType` the input type suggests; any other
   * kernel goes to the pixel-table filter.
   */
  method Uniform(cIn: Image, cOut: Image, kernel: Kernel, filterSize: seq<nat>, bc: seq<BoundaryCondition>,
                 flexType: DataType, reforged: Layout, intermediateOrigin: nat)
    returns (r: Result<UniformOutcome>)
    requires cIn.forged ==> cIn.WellFormed() && AllPositive(cIn.sizes) && cIn.tensor.Valid()
    requires |filterSize| == |cIn.sizes| && |reforged.strides| == |cIn.sizes|
    ensures !cIn.forged ==> r == Failure(ImageNotForged)
    ensures cIn.forged && kernel.weighted ==> r == Failure(KernelNotBinary)
    ensures cIn.forged && !kernel.weighted && !kernel.rectangular ==> r == Success(PixelTableFiltered)
    ensures BoxPath(cIn, kernel) && flexType !in Members(Flex) ==> r == Failure(DataTypeNotSupported)
    ensures BoxPath(cIn, kernel) && flexType in Members(Flex) ==>
      var v := BoxVerdict(cIn.sizes, filterSize, bc);
      (v.Failure? ==> r == Failure(v.error))
      && (v.Success? ==>
            r.Success? && r.value.BoxFiltered? && r.value.bufferType == flexType
            && RectangularSetup(cIn.sizes, filterSize, r.value.process, r.value.sizes, r.value.border)
            && (v.value <==> r.value.outcome.Ran?)
            && (r.value.outcome.NoOp? ==> r.value.outcome.image == cIn)
            && (r.value.outcome.Ran? ==>
                  r.value.outcome.setup.bufferType == flexType
                  && RunsFilteredDimensions(r.value.outcome.setup, cIn, r.value.sizes, r.value.process)))
  {
    if !cIn.forged {
      return Failure(ImageNotForged);
    }
    if kernel.weighted {
      return Failure(KernelNotBinary);
    }
    if !kernel.rectangular {
      return Success(PixelTableFiltered);
    }
    var process, sizes, border := RectangularParameters(cIn.sizes, filterSize);
    var dtype := Dispatch(Flex, flexType);
    if dtype.Failure? {
      return Failure(dtype.error);
    }
    var opts := {AsScalarImage};
    var ran := Separable.Separable(cIn, cOut, dtype.value, dtype.value, process, border, bc, opts, reforged, intermediateOrigin);
    RectangularVerdict(cIn.sizes, cOut.sizes, filterSize, process, sizes, border, bc);
    if ran.Failure? {
      return Failure(ran.error);
    }
    r := Success(BoxFiltered(process, sizes, border, dtype.value, ran.value));
    if ran.value.Ran? {
      var n := |cIn.sizes|;
      var plan := AcceptedPlan(cIn.sizes, cOut.sizes, process, border, bc, opts);
      assert plan.process == process && plan.border == border;
    }
  }
}

/** Preparing the observations `actionFit` hands to the solver: choosing
    which dataset is independent, synthesising the dependent errors, and
    restricting all three arrays to an axis range with one mask. */
module Observations {
  import opened Options
  import opened Diagnostics

  /** An inclusive numeric interval: a plotted axis range or a data range. */
  datatype Range = Range(lo: real, hi: real)

  /** A document dataset: its values, the optional symmetric, positive and
      negative error arrays, and the range `getRange()` reports. */
  datatype Dataset = Dataset(
    data: seq<real>,
    serr: Option<seq<real>>,
    perr: Option<seq<real>>,
    nerr: Option<seq<real>>,
    range: Range)

  /** The independent values and the dataset that supplies the dependent
      values and their errors. */
  datatype Roles = Roles(xvals: seq<real>, ydata: Dataset)

  /** Role assignment: with `variable == "x"` the independent values come from
      the `xData` dataset and the dependent ones from `yData`; with any other
      variable the two swap.  A dataset name the document does not hold makes
      `getData` raise, which is `None` here. */
  function AssignRoles(variable: string, xData: string, yData: string, doc: map<string, Dataset>): (r: Option<Roles>)
    ensures r.Some? <==> xData in doc && yData in doc
    ensures r.Some? && variable == "x" ==> r.value == Roles(doc[xData].data, doc[yData])
    ensures r.Some? && variable != "x" ==> r.value == Roles(doc[yData].data, doc[xData])
  {
    if xData !in doc || yData !in doc then None
    else if variable == "x" then Some(Roles(doc[xData].data, doc[yData]))
    else Some(Roles(doc[yData].data, doc[xData]))
  }

  /** Swapping the variable is the same as swapping the two dataset
      settings: the assignment treats both axes alike. */
  lemma RolesSymmetric(variable: string, xData: string, yData: string, doc: map<string, Dataset>)
    requires variable != "x"
    ensures AssignRoles(variable, xData, yData, doc) == AssignRoles("x", yData, xData, doc)
  {
  }

  /** Numarray's `sqrt` on non-negative reals: the non-negative root. */
  ghost predicate IsSqrt(sqrt: real -> real)
  {
    forall v :: 0.0 <= v ==> 0.0 <= sqrt(v) && sqrt(v) * sqrt(v) == v
  }

  /** `1e-8`, the smallest error the five-percent rule assigns. */
  const ErrorFloor: real := 0.00000001

  /** Numarray's broadcasting rule for two one-dimensional arrays: equal
      lengths, or one of them of length one. */
  predicate Broadcastable(m: nat, n: nat)
  {
    m == n || m == 1 || n == 1
  }

  /** The length of the broadcast result. */
  function BroadcastLength(m: nat, n: nat): nat
  {
    if m == 1 then n else m
  }

  /** Element `i` of an array as broadcasting sees it: a one-element array
      repeats its element. */
  function At(a: seq<real>, i: nat): real
    requires |a| == 1 || i < |a|
  {
    if |a| == 1 then a[0] else a[i]
  }

  /** The symmetrised errors: element by element, the square root of half the
      sum of the squared positive and negative errors, broadcast to a common
      length. */
  function Symmetrised(perr: seq<real>, nerr: seq<real>, sqrt: real -> real): (r: seq<real>)
    requires Broadcastable(|perr|, |nerr|)
    requires IsSqrt(sqrt)
    ensures |r| == BroadcastLength(|perr|, |nerr|)
    ensures |perr| == |nerr| ==> |r| == |perr|
    ensures forall i :: 0 <= i < |r| ==>
              0.0 <= r[i] && r[i] * r[i] == 0.5 * (At(perr, i) * At(perr, i) + At(nerr, i) * At(nerr, i))
  {
    var n := BroadcastLength(|perr|, |nerr|);
    seq(n, i requires 0 <= i < n => sqrt(0.5 * (At(perr, i) * At(perr, i) + At(nerr, i) * At(nerr, i))))
  }

  /** Five percent of each value, raised to the floor: `max(0.05*y, 1e-8)`,
      so every error is at least the floor, negative values included. */
  function FivePercent(yvals: seq<real>): (r: seq<real>)
    ensures |r| == |yvals|
    ensures forall i :: 0 <= i < |r| ==>
              && ErrorFloor <= r[i]
              && 0.05 * yvals[i] <= r[i]
              && (r[i] == ErrorFloor || r[i] == 0.05 * yvals[i])
  {
    seq(|yvals|, i requires 0 <= i < |yvals| =>
      if 0.05 * yvals[i] < ErrorFloor then ErrorFloor else 0.05 * yvals[i])
  }

  /** The five-percent rule as numarray runs it: the values scaled into a
      fresh array, then every entry below the floor raised to it in place. */
  method FivePercentErrors(yvals: seq<real>) returns (yserr: seq<real>)
    ensures yserr == FivePercent(yvals)
  {
    var a := new real[|yvals|];
    for i := 0 to a.Length
      invariant forall k :: 0 <= k < i ==> a[k] == 0.05 * yvals[k]
    {
      a[i] := 0.05 * yvals[i];
    }
    for i := 0 to a.Length
      invariant forall k :: 0 <= k < i ==> a[k] == FivePercent(yvals)[k]
      invariant forall k :: i <= k < a.Length ==> a[k] == 0.05 * yvals[k]
    {
      if a[i] < ErrorFloor {
        a[i] := ErrorFloor;
      }
    }
    yserr := a[..];
  }

  /** The dependent errors and the warning that goes with each way of
      obtaining them; or, when the positive and negative errors do not
      broadcast, the warning printed before numarray raises. */
  datatype Errors =
    | Errors(yserr: seq<real>, diags: seq<Diagnostic>)
    | Unbroadcastable(diags: seq<Diagnostic>)

  /** The given symmetric errors when present; otherwise the symmetrised
      positive and negative errors when both are present; otherwise five
      percent of the values.  Only one of the asymmetric arrays falls
      through to the five-percent rule.  No array is checked against the
      length of the values here: that is left to the checks before the fit. */
  function DependentErrors(ydata: Dataset, sqrt: real -> real): (r: Errors)
    requires IsSqrt(sqrt)
    ensures r.Unbroadcastable? <==>
              ydata.serr.None? && ydata.perr.Some? && ydata.nerr.Some?
              && !Broadcastable(|ydata.perr.value|, |ydata.nerr.value|)
    ensures r.Errors? ==>
              |r.yserr| == (if ydata.serr.Some? then |ydata.serr.value|
                            else if ydata.perr.Some? && ydata.nerr.Some? then BroadcastLength(|ydata.perr.value|, |ydata.nerr.value|)
                            else |ydata.data|)
  {
    if ydata.serr.Some? then Errors(ydata.serr.value, [])
    else if ydata.perr.Some? && ydata.nerr.Some? then
      if Broadcastable(|ydata.perr.value|, |ydata.nerr.value|) then
        Errors(Symmetrised(ydata.perr.value, ydata.nerr.value, sqrt), [Tagged(SymmetrisingErrors)])
      else Unbroadcastable([Tagged(SymmetrisingErrors)])
    else
      Errors(FivePercent(ydata.data), [Tagged(AssumingFivePercentErrors)])
  }

  /** The three error branches in full: which array is used, what holds of
      each element, and which warning is reported. */
  lemma ErrorSynthesis(ydata: Dataset, sqrt: real -> real)
    requires IsSqrt(sqrt)
    ensures var r := DependentErrors(ydata, sqrt);
      && (ydata.serr.Some? ==> r == Errors(ydata.serr.value, []))
      && (ydata.serr.None? && ydata.perr.Some? && ydata.nerr.Some? ==>
            var p, n := ydata.perr.value, ydata.nerr.value;
            && r.diags == [Diagnostic(Warning, SymmetrisingErrors)]
            && (Broadcastable(|p|, |n|) ==>
                  && r.Errors?
                  && (forall i :: 0 <= i < |r.yserr| ==>
                        0.0 <= r.yserr[i] &&
                        r.yserr[i] * r.yserr[i] == 0.5 * (At(p, i) * At(p, i) + At(n, i) * At(n, i)))
                  && (|p| == |n| ==> forall i :: 0 <= i < |r.yserr| ==>
                        r.yserr[i] * r.yserr[i] == 0.5 * (p[i] * p[i] + n[i] * n[i]))))
      && (ydata.serr.None? && (ydata.perr.None? || ydata.nerr.None?) ==>
            && r.Errors?
            && r.diags == [Diagnostic(Warning, AssumingFivePercentErrors)]
            && |r.yserr| == |ydata.data|
            && forall i :: 0 <= i < |r.yserr| ==>
                 ErrorFloor <= r.yserr[i] &&
                 r.yserr[i] == (if 0.05 * ydata.data[i] < ErrorFloor then ErrorFloor else 0.05 * ydata.data[i]))
  {
  }

  /** The five-percent rule on `[10, 20]` gives `[0.5, 1.0]`. */
  lemma FivePercentExample()
    ensures FivePercent([10.0, 20.0]) == [0.5, 1.0]
  {
    var r := FivePercent([10.0, 20.0]);
    assert r[0] == 0.5 && r[1] == 1.0;
  }

  /** Symmetrising equal positive and negative errors `[3, 4]` gives them back. */
  lemma SymmetrisedExample(sqrt: real -> real)
    requires IsSqrt(sqrt)
    ensures Symmetrised([3.0, 4.0], [3.0, 4.0], sqrt) == [3.0, 4.0]
  {
    var r := Symmetrised([3.0, 4.0], [3.0, 4.0], sqrt);
    assert r[0] * r[0] == 9.0 && 0.0 <= r[0];
    assert r[1] * r[1] == 16.0 && 0.0 <= r[1];
    NonNegativeRoot(r[0], 3.0);
    NonNegativeRoot(r[1], 4.0);
  }

  lemma NonNegativeRoot(r: real, s: real)
    requires 0.0 <= r && 0.0 <= s && r * r == s * s
    ensures r == s
  {
    if r < s {
      ProductPositive(s - r, s + r);
    } else if s < r {
      ProductPositive(r - s, r + s);
    }
  }

  lemma ProductPositive(a: real, b: real)
    requires 0.0 < a && 0.0 < b
    ensures 0.0 < a * b
  {
  }

  /** `lo <= v <= hi`, the test each point's value must pass. */
  predicate InRange(v: real, r: Range)
  {
    r.lo <= v && v <= r.hi
  }

  /** The range mask: one flag per point, true when its tested value lies in
      the closed range. */
  function Mask(tested: seq<real>, r: Range): (m: seq<bool>)
    ensures |m| == |tested|
    ensures forall i :: 0 <= i < |m| ==> (m[i] <==> InRange(tested[i], r))
  {
    seq(|tested|, i requires 0 <= i < |tested| => InRange(tested[i], r))
  }

  /** `a[mask]`: the elements whose mask entry is true, in their order. */
  function Compress(a: seq<real>, mask: seq<bool>): seq<real>
    requires |a| == |mask|
  {
    if |a| == 0 then []
    else Compress(a[..|a| - 1], mask[..|mask| - 1]) + (if mask[|mask| - 1] then [a[|a| - 1]] else [])
  }

  /** The positions whose mask entry is true, ascending. */
  function KeptIndices(mask: seq<bool>): seq<nat>
  {
    if |mask| == 0 then []
    else KeptIndices(mask[..|mask| - 1]) + (if mask[|mask| - 1] then [|mask| - 1] else [])
  }

  /** The kept positions are exactly the true mask entries, each once, in
      ascending order. */
  lemma {:induction false} KeptIndicesSpec(mask: seq<bool>)
    ensures forall k :: 0 <= k < |KeptIndices(mask)| ==> KeptIndices(mask)[k] < |mask|
    ensures forall k, l :: 0 <= k < l < |KeptIndices(mask)| ==> KeptIndices(mask)[k] < KeptIndices(mask)[l]
    ensures forall i :: 0 <= i < |mask| ==> (mask[i] <==> i in KeptIndices(mask))
  {
    if |mask| > 0 {
      var init := mask[..|mask| - 1];
      KeptIndicesSpec(init);
      forall i | 0 <= i < |init| ensures mask[i] == init[i] { }
    }
  }

  /** Compressing by a mask reads the array at the kept positions: the same
      positions for every array compressed by that mask. */
  lemma {:induction false} CompressSpec(a: seq<real>, mask: seq<bool>)
    requires |a| == |mask|
    ensures |Compress(a, mask)| == |KeptIndices(mask)|
    ensures forall k :: 0 <= k < |Compress(a, mask)| ==>
              KeptIndices(mask)[k] < |a| && Compress(a, mask)[k] == a[KeptIndices(mask)[k]]
  {
    KeptIndicesSpec(mask);
    if |a| > 0 {
      var a', m' := a[..|a| - 1], mask[..|mask| - 1];
      CompressSpec(a', m');
      KeptIndicesSpec(m');
      var c, ks := Compress(a, mask), KeptIndices(mask);
      assert c == Compress(a', m') + (if mask[|mask| - 1] then [a[|a| - 1]] else []);
      assert ks == KeptIndices(m') + (if mask[|mask| - 1] then [|mask| - 1] else []);
      forall k | 0 <= k < |c| ensures ks[k] < |a| && c[k] == a[ks[k]] {
        if k < |Compress(a', m')| {
          assert c[k] == Compress(a', m')[k] && ks[k] == KeptIndices(m')[k];
        }
      }
    }
  }

  /** The range restriction on `x = [1, 2, 3, 4, 5]` with bounds `(2, 4)`
      keeps the points at positions 1, 2 and 3. */
  lemma RestrictionExample()
    ensures KeptIndices(Mask([1.0, 2.0, 3.0, 4.0, 5.0], Range(2.0, 4.0))) == [1, 2, 3]
    ensures Compress([1.0, 2.0, 3.0, 4.0, 5.0], Mask([1.0, 2.0, 3.0, 4.0, 5.0], Range(2.0, 4.0))) == [2.0, 3.0, 4.0]
  {
    var m := Mask([1.0, 2.0, 3.0, 4.0, 5.0], Range(2.0, 4.0));
    assert m == [false, true, true, true, false];
    assert KeptIndices(m[..0]) == [];
    assert KeptIndices(m[..1]) == [] by { assert m[..1][..0] == m[..0]; }
    assert KeptIndices(m[..2]) == [1] by { assert m[..2][..1] == m[..1]; }
    assert KeptIndices(m[..3]) == [1, 2] by { assert m[..3][..2] == m[..2]; }
    assert KeptIndices(m[..4]) == [1, 2, 3] by { assert m[..4][..3] == m[..3]; }
    assert KeptIndices(m) == [1, 2, 3] by { assert m[..4] == m[..|m| - 1]; }
    var a := [1.0, 2.0, 3.0, 4.0, 5.0];
    assert Compress(a[..0], m[..0]) == [];
    assert Compress(a[..1], m[..1]) == [] by { assert a[..1][..0] == a[..0] && m[..1][..0] == m[..0]; }
    assert Compress(a[..2], m[..2]) == [2.0] by { assert a[..2][..1] == a[..1] && m[..2][..1] == m[..1]; }
    assert Compress(a[..3], m[..3]) == [2.0, 3.0] by { assert a[..3][..2] == a[..2] && m[..3][..2] == m[..2]; }
    assert Compress(a[..4], m[..4]) == [2.0, 3.0, 4.0] by { assert a[..4][..3] == a[..3] && m[..4][..3] == m[..3]; }
    assert a[..4] == a[..|a| - 1] && m[..4] == m[..|m| - 1];
  }
}

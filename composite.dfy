/**
  The repair composite and its loss (repair.py:58-59, 74-89). The generator's
  output and the target are rescaled from [-1, 1] to [0, 1]; `combine` takes
  the generated pixel where the mask is 1 and the target pixel where it is 0;
  the loss sums |combine - generated| over every entry.

  Images are flat sequences of one image's entries, in the same order as the
  mask (Mask.FlatMask); all operations are element-wise, so only equal
  lengths matter.
 */
module Composite {
  import opened Pixels

  /** Every entry is exactly 0 or 1, as Mask.FlatMask guarantees. */
  predicate Binary(mask: seq<real>)
  {
    forall i :: 0 <= i < |mask| ==> mask[i] == 0.0 || mask[i] == 1.0
  }

  /** What `get_images` returns: the repaired image, the generated image and the blacked-out target. */
  datatype Images = Images(combine: Image, generated: Image, initial: Image)

  /**
    `get_images` (repair.py:74-89), given the generator's output. Where the
    mask is 1 the composite shows the generated pixel and the initial image
    is black; where it is 0 both show the target pixel.
   */
  function GetImages(gOut: Image, target: Image, mask: seq<real>): (r: Images)
    requires |gOut| == |target| == |mask|
    ensures |r.combine| == |r.generated| == |r.initial| == |mask|
    ensures forall i :: 0 <= i < |mask| ==> r.generated[i] == ToUnit(gOut[i])
    ensures forall i :: 0 <= i < |mask| && mask[i] == 1.0 ==>
              r.combine[i] == r.generated[i] && r.initial[i] == 0.0
    ensures forall i :: 0 <= i < |mask| && mask[i] == 0.0 ==>
              r.combine[i] == ToUnit(target[i]) && r.initial[i] == ToUnit(target[i])
  {
    var generated := seq(|gOut|, i requires 0 <= i < |gOut| => ToUnit(gOut[i]));
    var ready := seq(|target|, i requires 0 <= i < |target| => ToUnit(target[i]));
    var partRepair := seq(|mask|, i requires 0 <= i < |mask| => generated[i] * mask[i]);
    var initial := seq(|mask|, i requires 0 <= i < |mask| => ready[i] * (1.0 - mask[i]));
    var combine := seq(|mask|, i requires 0 <= i < |mask| => partRepair[i] + initial[i]);
    Images(combine, generated, initial)
  }

  /** `reduce_sum(abs(abs(a - b)))` over two tensors of one shape. */
  function AbsDiffSum(a: seq<real>, b: seq<real>): (r: real)
    requires |a| == |b|
    ensures r >= 0.0
    ensures (forall i :: 0 <= i < |a| ==> a[i] == b[i]) ==> r == 0.0
  {
    if a == [] then 0.0 else Abs(Abs(a[0] - b[0])) + AbsDiffSum(a[1..], b[1..])
  }

  /** `get_repair_loss` (repair.py:58-59). It is never negative, whatever the mask. */
  function RepairLoss(gOut: Image, target: Image, mask: seq<real>): (r: real)
    requires |gOut| == |target| == |mask|
    ensures r >= 0.0
  {
    var images := GetImages(gOut, target, mask);
    AbsDiffSum(images.combine, images.generated)
  }

  /**
    Reference: the L1 distance between the raw generator output and the raw
    target, counted over the kept entries (mask 0) only.
   */
  function KeptDistance(gOut: Image, target: Image, mask: seq<real>): real
    requires |gOut| == |target| == |mask|
  {
    if mask == [] then 0.0
    else (if mask[0] == 0.0 then Abs(gOut[0] - target[0]) else 0.0) + KeptDistance(gOut[1..], target[1..], mask[1..])
  }

  lemma {:induction false} CompositeDistance(c: seq<real>, g: seq<real>, gOut: Image, target: Image, mask: seq<real>)
    requires |c| == |g| == |gOut| == |target| == |mask| && Binary(mask)
    requires forall i :: 0 <= i < |mask| ==> g[i] == ToUnit(gOut[i])
    requires forall i :: 0 <= i < |mask| && mask[i] == 1.0 ==> c[i] == g[i]
    requires forall i :: 0 <= i < |mask| && mask[i] == 0.0 ==> c[i] == ToUnit(target[i])
    ensures AbsDiffSum(c, g) == KeptDistance(gOut, target, mask) * 0.5
  {
    if mask != [] {
      UnitHalvesDistance(gOut[0], target[0]);
      CompositeDistance(c[1..], g[1..], gOut[1..], target[1..], mask[1..]);
    }
  }

  /**
    The repair loss only measures the kept region: it is half the L1 distance
    between generator output and target over the mask-0 entries, and the
    repaired entries contribute nothing.
   */
  lemma RepairLossIsKeptDistance(gOut: Image, target: Image, mask: seq<real>)
    requires |gOut| == |target| == |mask| && Binary(mask)
    ensures RepairLoss(gOut, target, mask) == KeptDistance(gOut, target, mask) * 0.5
  {
    var images := GetImages(gOut, target, mask);
    CompositeDistance(images.combine, images.generated, gOut, target, mask);
  }

  /** When the generator reproduces the target exactly the loss is 0, for any mask values. */
  lemma RepairLossZeroOnExactMatch(img: Image, mask: seq<real>)
    requires |img| == |mask|
    ensures RepairLoss(img, img, mask) == 0.0
  {
    var images := GetImages(img, img, mask);
    forall i | 0 <= i < |mask|
      ensures images.combine[i] == images.generated[i]
    {
      var g := ToUnit(img[i]);
      assert images.combine[i] == g * mask[i] + g * (1.0 - mask[i]);
    }
  }

  lemma {:induction false} KeptDistanceIgnoresMasked(g1: Image, g2: Image, target: Image, mask: seq<real>)
    requires |g1| == |g2| == |target| == |mask|
    requires forall i :: 0 <= i < |mask| && mask[i] == 0.0 ==> g1[i] == g2[i]
    ensures KeptDistance(g1, target, mask) == KeptDistance(g2, target, mask)
  {
    if mask != [] {
      KeptDistanceIgnoresMasked(g1[1..], g2[1..], target[1..], mask[1..]);
    }
  }

  /** What the generator puts in the repaired region never changes the loss. */
  lemma RepairLossIgnoresRepairedRegion(g1: Image, g2: Image, target: Image, mask: seq<real>)
    requires |g1| == |g2| == |target| == |mask| && Binary(mask)
    requires forall i :: 0 <= i < |mask| && mask[i] == 0.0 ==> g1[i] == g2[i]
    ensures RepairLoss(g1, target, mask) == RepairLoss(g2, target, mask)
  {
    RepairLossIsKeptDistance(g1, target, mask);
    RepairLossIsKeptDistance(g2, target, mask);
    KeptDistanceIgnoresMasked(g1, g2, target, mask);
  }

  /**
    A 2 x 2 x 1 image with mask [[0, 1], [1, 0]], target [[1, 2], [3, 4]] and
    generator output [[5, 6], [7, 8]]: the kept entries differ by 4 and 4,
    and after rescaling to [0, 1] the loss is (4 + 4) / 2.
   */
  lemma TwoByTwoExample()
    ensures RepairLoss([5.0, 6.0, 7.0, 8.0], [1.0, 2.0, 3.0, 4.0], [0.0, 1.0, 1.0, 0.0]) == 4.0
  {
    var g, t, m := [5.0, 6.0, 7.0, 8.0], [1.0, 2.0, 3.0, 4.0], [0.0, 1.0, 1.0, 0.0];
    RepairLossIsKeptDistance(g, t, m);
    assert KeptDistance(g[3..], t[3..], m[3..]) == 4.0;
    assert KeptDistance(g[2..], t[2..], m[2..]) == 4.0;
    assert KeptDistance(g[1..], t[1..], m[1..]) == 4.0;
  }
}

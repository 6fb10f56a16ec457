/**
  The loss assembly of `get_loss` (cly_dcgan.py:143-212). The generator and
  the discriminator are parameters (a batch in, a batch out: the
  discriminator maps a batch of images to one logit per image), and so is
  `sigmoid_cross_entropy_with_logits`, taken element-wise as a function of a
  logit and a label. What is modelled is which logits meet which labels and
  how the three terms are averaged and added.
 */
module AdversarialLoss {
  import opened Pixels

  /** A batch of noise vectors, the generator's input. */
  type Noise = seq<seq<real>>

  /** `sigmoid_cross_entropy_with_logits` on one logit and its label. */
  type CrossEntropy = (real, real) -> real

  /** `tf.reduce_mean` over a non-empty tensor, flattened. */
  function Mean(s: seq<real>): real
    requires |s| > 0
  {
    Sum(s) / |s| as real
  }

  /** `tf.ones_like(t)` or `tf.zeros_like(t)` for a tensor of n entries. */
  function Filled(n: nat, v: real): (r: seq<real>)
    ensures |r| == n && forall i :: 0 <= i < n ==> r[i] == v
  {
    seq(n, _ => v)
  }

  /** A tensor times a scalar. */
  function Scaled(s: seq<real>, v: real): (r: seq<real>)
    ensures |r| == |s| && forall i :: 0 <= i < |s| ==> r[i] == s[i] * v
  {
    seq(|s|, i requires 0 <= i < |s| => s[i] * v)
  }

  /** The element-wise cross-entropy of logits against labels of the same shape. */
  function CrossEntropies(xent: CrossEntropy, logits: seq<real>, labels: seq<real>): (r: seq<real>)
    requires |logits| == |labels|
    ensures |r| == |logits| && forall i :: 0 <= i < |r| ==> r[i] == xent(logits[i], labels[i])
  {
    seq(|logits|, i requires 0 <= i < |logits| => xent(logits[i], labels[i]))
  }

  /** One term of the loss: the logits scored and the labels they are scored against. */
  datatype Term = Term(logits: seq<real>, labels: seq<real>)

  /** The three terms `get_loss` builds. */
  datatype Terms = Terms(g: Term, dReal: Term, dFake: Term)

  /** The scalars `get_loss` computes: the generator loss, the discriminator loss and its two halves. */
  datatype Losses = Losses(g: real, d: real, dReal: real, dFake: real)

  /**
    The terms of `get_loss` (lines 162-206). The generator term and the fake
    term score the same logits, the discriminator's verdict on the generator's
    output for `noise`; the real term scores its verdict on `realImgs`. The
    generator and real labels are all 1 - smooth, the fake labels all 0.
   */
  function LossTerms(gen: Noise -> seq<Image>, disc: seq<Image> -> seq<real>, noise: Noise, realImgs: seq<Image>,
                     smooth: real): (t: Terms)
    ensures t.g.logits == t.dFake.logits == disc(gen(noise)) && t.dReal.logits == disc(realImgs)
    ensures |t.g.labels| == |t.g.logits| && |t.dReal.labels| == |t.dReal.logits| && |t.dFake.labels| == |t.dFake.logits|
    ensures forall i :: 0 <= i < |t.g.labels| ==> t.g.labels[i] == 1.0 - smooth
    ensures forall i :: 0 <= i < |t.dReal.labels| ==> t.dReal.labels[i] == 1.0 - smooth
    ensures forall i :: 0 <= i < |t.dFake.labels| ==> t.dFake.labels[i] == 0.0
  {
    var dLogitsFake := disc(gen(noise));
    var dLogitsReal := disc(realImgs);
    Terms(Term(dLogitsFake, Scaled(Filled(|dLogitsFake|, 1.0), 1.0 - smooth)),
          Term(dLogitsReal, Scaled(Filled(|dLogitsReal|, 1.0), 1.0 - smooth)),
          Term(dLogitsFake, Filled(|dLogitsFake|, 0.0)))
  }

  /** `reduce_mean(sigmoid_cross_entropy_with_logits(logits, labels))` of one term. */
  function TermLoss(xent: CrossEntropy, t: Term): real
    requires |t.logits| == |t.labels| > 0
  {
    Mean(CrossEntropies(xent, t.logits, t.labels))
  }

  /**
    `get_loss` (cly_dcgan.py:143-212), for batches on which the discriminator
    returns at least one logit. The discriminator loss is the sum of its real
    and fake halves.
   */
  function GetLoss(xent: CrossEntropy, gen: Noise -> seq<Image>, disc: seq<Image> -> seq<real>,
                   noise: Noise, realImgs: seq<Image>, smooth: real): (r: Losses)
    requires |disc(gen(noise))| > 0 && |disc(realImgs)| > 0
    ensures r.d == r.dReal + r.dFake
  {
    var t := LossTerms(gen, disc, noise, realImgs, smooth);
    var dLossReal := TermLoss(xent, t.dReal);
    var dLossFake := TermLoss(xent, t.dFake);
    Losses(TermLoss(xent, t.g), dLossReal + dLossFake, dLossReal, dLossFake)
  }

  // ---------------------------------------------------------------------
  // Properties

  /** A term whose labels all lie in [0, 1] has a non-negative loss when the cross-entropy is non-negative there. */
  lemma TermLossNonNegative(xent: CrossEntropy, t: Term)
    requires |t.logits| == |t.labels| > 0
    requires forall i :: 0 <= i < |t.labels| ==> 0.0 <= t.labels[i] <= 1.0
    requires forall l: real, y: real :: 0.0 <= y <= 1.0 ==> xent(l, y) >= 0.0
    ensures TermLoss(xent, t) >= 0.0
  {
    var s := CrossEntropies(xent, t.logits, t.labels);
    forall i | 0 <= i < |s|
      ensures s[i] >= 0.0
    {
      var l, y := t.logits[i], t.labels[i];
      assert xent(l, y) >= 0.0;
    }
    SumNonNegative(s);
  }

  /**
    With labels in [0, 1] (0 <= smooth <= 1) and a cross-entropy that is
    never negative there, every loss is non-negative and the discriminator
    loss bounds each of its halves.
   */
  lemma LossesNonNegative(xent: CrossEntropy, gen: Noise -> seq<Image>, disc: seq<Image> -> seq<real>,
                          noise: Noise, realImgs: seq<Image>, smooth: real)
    requires |disc(gen(noise))| > 0 && |disc(realImgs)| > 0
    requires 0.0 <= smooth <= 1.0
    requires forall l: real, y: real :: 0.0 <= y <= 1.0 ==> xent(l, y) >= 0.0
    ensures var r := GetLoss(xent, gen, disc, noise, realImgs, smooth);
            r.g >= 0.0 && r.dReal >= 0.0 && r.dFake >= 0.0 && r.d >= r.dReal && r.d >= r.dFake
  {
    var t := LossTerms(gen, disc, noise, realImgs, smooth);
    TermLossNonNegative(xent, t.g);
    TermLossNonNegative(xent, t.dReal);
    TermLossNonNegative(xent, t.dFake);
  }

  /**
    The generator is scored exactly as the discriminator scores a real batch:
    its loss is the real-image loss with the generated batch in place of the
    real one.
   */
  lemma GeneratorLossIsRealLossOfFakes(xent: CrossEntropy, gen: Noise -> seq<Image>, disc: seq<Image> -> seq<real>,
                                       noise: Noise, realImgs: seq<Image>, smooth: real)
    requires |disc(gen(noise))| > 0 && |disc(realImgs)| > 0
    ensures GetLoss(xent, gen, disc, noise, realImgs, smooth).g == GetLoss(xent, gen, disc, noise, gen(noise), smooth).dReal
  {
  }

  /** The generator loss and the fake half never look at the real batch. */
  lemma FakeLossesIgnoreRealBatch(xent: CrossEntropy, gen: Noise -> seq<Image>, disc: seq<Image> -> seq<real>,
                                  noise: Noise, real1: seq<Image>, real2: seq<Image>, smooth: real)
    requires |disc(gen(noise))| > 0 && |disc(real1)| > 0 && |disc(real2)| > 0
    ensures GetLoss(xent, gen, disc, noise, real1, smooth).g == GetLoss(xent, gen, disc, noise, real2, smooth).g
    ensures GetLoss(xent, gen, disc, noise, real1, smooth).dFake == GetLoss(xent, gen, disc, noise, real2, smooth).dFake
  {
  }

  // ---------------------------------------------------------------------
  // Reference: the losses of the DCGAN objective

  /** f applied to every entry. */
  function Apply(f: real -> real, s: seq<real>): (r: seq<real>)
    ensures |r| == |s| && forall i :: 0 <= i < |s| ==> r[i] == f(s[i])
  {
    seq(|s|, i requires 0 <= i < |s| => f(s[i]))
  }

  /** The entry-wise sum of two tensors of one shape. */
  function Plus(u: seq<real>, v: seq<real>): (r: seq<real>)
    requires |u| == |v|
    ensures |r| == |u| && forall i :: 0 <= i < |u| ==> r[i] == u[i] + v[i]
  {
    seq(|u|, i requires 0 <= i < |u| => u[i] + v[i])
  }

  lemma {:induction false} SumScaled(u: seq<real>, a: real)
    ensures Sum(Scaled(u, a)) == Sum(u) * a
  {
    if u != [] {
      var w := Scaled(u, a);
      forall i | 0 <= i < |u| - 1
        ensures w[1..][i] == Scaled(u[1..], a)[i]
      {
        assert w[1..][i] == w[i + 1];
      }
      assert w[1..] == Scaled(u[1..], a);
      SumScaled(u[1..], a);
      var rest := Sum(u[1..]);
      assert Sum(w) == u[0] * a + rest * a;
      assert (u[0] + rest) * a == u[0] * a + rest * a;
    }
  }

  lemma {:induction false} SumPlus(u: seq<real>, v: seq<real>)
    requires |u| == |v|
    ensures Sum(Plus(u, v)) == Sum(u) + Sum(v)
  {
    if u != [] {
      assert Plus(u, v)[1..] == Plus(u[1..], v[1..]);
      SumPlus(u[1..], v[1..]);
    }
  }

  /**
    The cross-entropy has the sigmoid cross-entropy's shape: the label y
    weights one log term, pos(l), and 1 - y weights the other, neg(l).
   */
  ghost predicate MixesLogTerms(xent: CrossEntropy, pos: real -> real, neg: real -> real)
  {
    forall l: real, y: real :: xent(l, y) == y * pos(l) + (1.0 - y) * neg(l)
  }

  /** The mean is linear. */
  lemma MeanBlend(a: real, u: seq<real>, b: real, v: seq<real>)
    requires |u| == |v| > 0
    ensures Mean(Plus(Scaled(u, a), Scaled(v, b))) == a * Mean(u) + b * Mean(v)
  {
    MeanPlus(Scaled(u, a), Scaled(v, b));
    MeanScaled(u, a);
    MeanScaled(v, b);
  }

  /** Scaling a tensor scales its mean. */
  lemma MeanScaled(u: seq<real>, a: real)
    requires |u| > 0
    ensures Mean(Scaled(u, a)) == a * Mean(u)
  {
    SumScaled(u, a);
    var n := |u| as real;
    var s := Sum(u);
    assert Mean(Scaled(u, a)) == (s * a) / n;
    assert (s * a) / n == a * (s / n);
  }

  /** The mean of an entry-wise sum is the sum of the means. */
  lemma MeanPlus(u: seq<real>, v: seq<real>)
    requires |u| == |v| > 0
    ensures Mean(Plus(u, v)) == Mean(u) + Mean(v)
  {
    SumPlus(u, v);
    var n := |u| as real;
    var x, y := Sum(u), Sum(v);
    assert (x + y) / n == x / n + y / n;
  }

  /** Against a cross-entropy of that form, labels all equal to y blend the two log terms entry by entry. */
  lemma CrossEntropiesOfLabel(xent: CrossEntropy, pos: real -> real, neg: real -> real, t: Term, y: real)
    requires |t.logits| == |t.labels|
    requires forall i :: 0 <= i < |t.labels| ==> t.labels[i] == y
    requires MixesLogTerms(xent, pos, neg)
    ensures CrossEntropies(xent, t.logits, t.labels) == Plus(Scaled(Apply(pos, t.logits), y), Scaled(Apply(neg, t.logits), 1.0 - y))
  {
    var c := CrossEntropies(xent, t.logits, t.labels);
    var blend := Plus(Scaled(Apply(pos, t.logits), y), Scaled(Apply(neg, t.logits), 1.0 - y));
    forall i | 0 <= i < |c|
      ensures c[i] == blend[i]
    {
      var l := t.logits[i];
      assert c[i] == xent(l, y) == y * pos(l) + (1.0 - y) * neg(l);
    }
  }

  /** A term whose labels are all y, against a cross-entropy of that form, blends the two log terms. */
  lemma TermLossOfLabel(xent: CrossEntropy, pos: real -> real, neg: real -> real, t: Term, y: real)
    requires |t.logits| == |t.labels| > 0
    requires forall i :: 0 <= i < |t.labels| ==> t.labels[i] == y
    requires MixesLogTerms(xent, pos, neg)
    ensures TermLoss(xent, t) == y * Mean(Apply(pos, t.logits)) + (1.0 - y) * Mean(Apply(neg, t.logits))
  {
    CrossEntropiesOfLabel(xent, pos, neg, t, y);
    MeanBlend(y, Apply(pos, t.logits), 1.0 - y, Apply(neg, t.logits));
  }

  /**
    Sigmoid cross-entropy is y * (-log D) + (1 - y) * (-log (1 - D)) with
    D = sigmoid(logit): for any cross-entropy of that form (pos(l) standing
    for -log D, neg(l) for -log (1 - D)), `get_loss` computes the
    non-saturating DCGAN objective with one-sided label smoothing: the
    generator minimises mean(-log D(G(z))), the discriminator
    mean(-log D(x)) + mean(-log (1 - D(G(z)))), each real-labelled term
    mixed with `smooth` of its opposite.
   */
  lemma LossesAreDcganObjective(xent: CrossEntropy, pos: real -> real, neg: real -> real,
                                gen: Noise -> seq<Image>, disc: seq<Image> -> seq<real>,
                                noise: Noise, realImgs: seq<Image>, smooth: real)
    requires |disc(gen(noise))| > 0 && |disc(realImgs)| > 0
    requires MixesLogTerms(xent, pos, neg)
    ensures GetLoss(xent, gen, disc, noise, realImgs, smooth).g ==
              (1.0 - smooth) * Mean(Apply(pos, disc(gen(noise)))) + smooth * Mean(Apply(neg, disc(gen(noise))))
    ensures GetLoss(xent, gen, disc, noise, realImgs, smooth).dReal ==
              (1.0 - smooth) * Mean(Apply(pos, disc(realImgs))) + smooth * Mean(Apply(neg, disc(realImgs)))
    ensures GetLoss(xent, gen, disc, noise, realImgs, smooth).dFake == Mean(Apply(neg, disc(gen(noise))))
    ensures GetLoss(xent, gen, disc, noise, realImgs, smooth).d ==
              (1.0 - smooth) * Mean(Apply(pos, disc(realImgs))) + smooth * Mean(Apply(neg, disc(realImgs)))
              + Mean(Apply(neg, disc(gen(noise))))
  {
    GeneratorObjective(xent, pos, neg, gen, disc, noise, realImgs, smooth);
    RealObjective(xent, pos, neg, gen, disc, noise, realImgs, smooth);
    FakeObjective(xent, pos, neg, gen, disc, noise, realImgs, smooth);
  }

  lemma GeneratorObjective(xent: CrossEntropy, pos: real -> real, neg: real -> real,
                          gen: Noise -> seq<Image>, disc: seq<Image> -> seq<real>,
                          noise: Noise, realImgs: seq<Image>, smooth: real)
    requires |disc(gen(noise))| > 0 && |disc(realImgs)| > 0
    requires MixesLogTerms(xent, pos, neg)
    ensures GetLoss(xent, gen, disc, noise, realImgs, smooth).g ==
              (1.0 - smooth) * Mean(Apply(pos, disc(gen(noise)))) + smooth * Mean(Apply(neg, disc(gen(noise))))
  {
    var t := LossTerms(gen, disc, noise, realImgs, smooth);
    TermLossOfLabel(xent, pos, neg, t.g, 1.0 - smooth);
    Relabel(smooth, Mean(Apply(pos, t.g.logits)), Mean(Apply(neg, t.g.logits)));
  }

  lemma RealObjective(xent: CrossEntropy, pos: real -> real, neg: real -> real,
                          gen: Noise -> seq<Image>, disc: seq<Image> -> seq<real>,
                          noise: Noise, realImgs: seq<Image>, smooth: real)
    requires |disc(gen(noise))| > 0 && |disc(realImgs)| > 0
    requires MixesLogTerms(xent, pos, neg)
    ensures GetLoss(xent, gen, disc, noise, realImgs, smooth).dReal ==
              (1.0 - smooth) * Mean(Apply(pos, disc(realImgs))) + smooth * Mean(Apply(neg, disc(realImgs)))
  {
    var t := LossTerms(gen, disc, noise, realImgs, smooth);
    TermLossOfLabel(xent, pos, neg, t.dReal, 1.0 - smooth);
    Relabel(smooth, Mean(Apply(pos, t.dReal.logits)), Mean(Apply(neg, t.dReal.logits)));
  }

  lemma FakeObjective(xent: CrossEntropy, pos: real -> real, neg: real -> real,
                          gen: Noise -> seq<Image>, disc: seq<Image> -> seq<real>,
                          noise: Noise, realImgs: seq<Image>, smooth: real)
    requires |disc(gen(noise))| > 0 && |disc(realImgs)| > 0
    requires MixesLogTerms(xent, pos, neg)
    ensures GetLoss(xent, gen, disc, noise, realImgs, smooth).dFake == Mean(Apply(neg, disc(gen(noise))))
  {
    var t := LossTerms(gen, disc, noise, realImgs, smooth);
    TermLossOfLabel(xent, pos, neg, t.dFake, 0.0);
    Relabel(smooth, Mean(Apply(pos, t.dFake.logits)), Mean(Apply(neg, t.dFake.logits)));
  }

  /** The two label values, 1 - smooth and 0, as weights of the two log terms. */
  lemma Relabel(smooth: real, a: real, b: real)
    ensures (1.0 - smooth) * a + (1.0 - (1.0 - smooth)) * b == (1.0 - smooth) * a + smooth * b
    ensures 0.0 * a + (1.0 - 0.0) * b == b
  {
  }
}

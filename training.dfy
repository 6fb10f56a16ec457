/**
  The schedule of `train()` (cly_dcgan.py:251-307). Each epoch loads the
  images, cuts them into `images.shape[0] // batch_size` consecutive batches,
  rescales each batch from [0, 1] to [-1, 1], and runs one discriminator step
  and then one generator step on that batch and one fresh noise draw. After the
  batches it evaluates both losses on the last batch fed, exports generator
  samples, and saves a checkpoint when `epoch % break_time == 0`.

  The optimizer steps, the network evaluations and the image export are
  recorded as events of a trace; their numerics are not modelled. The images
  returned by `get_imgs` in epoch e are the parameter `loaded[e]`. The noise
  draw is identified by the epoch and batch it was made in.
 */
module Training {
  import opened Pixels
  import opened IntArith

  datatype Net = Discriminator | Generator

  /** The `np.random.uniform(-1, 1, ...)` draw made for batch `batch` of epoch `epoch` (cly_dcgan.py:291). */
  datatype NoiseDraw = NoiseDraw(epoch: int, batch: int)

  /** What a `sess.run` is fed: the rescaled images of slice [lo, hi) of the epoch's images, and a noise draw. */
  datatype Feed = Feed(lo: int, hi: int, images: seq<Image>, noise: NoiseDraw)

  datatype TrainEvent =
    | Step(net: Net, epoch: int, batch: int, feed: Feed)   // one optimizer step of `net`
    | EvalLosses(epoch: int, feed: Feed)                   // g_loss.eval and d_loss.eval (lines 297-298)
    | Sample(epoch: int)                                   // show_generator_output and plot_images (lines 302-303)
    | Checkpoint(epoch: int)                               // saver.save (line 307)

  /**
    The exceptions the schedule itself can raise: `n // 0` (line 278), the
    unbound `batch_images` when no batch has run yet (line 297), and
    `epoch % 0` (line 306).
   */
  datatype TrainError = ZeroBatchSize | NoBatchYet | ZeroBreakTime

  datatype Outcome = Completed | Failed(error: TrainError)

  datatype Run = Run(trace: seq<TrainEvent>, outcome: Outcome)

  /** The last batch fed so far, if any: `batch_images` and `batch_noise` outlive their loop. */
  datatype LastFeed = NoFeed | Fed(feed: Feed)

  function EpochOf(ev: TrainEvent): int
  {
    match ev
    case Step(_, e, _, _) => e
    case EvalLosses(e, _) => e
    case Sample(e) => e
    case Checkpoint(e) => e
  }

  /** `batch_images * 2 - 1` on one batch (line 290). */
  function SignedBatch(images: seq<Image>): (r: seq<Image>)
    ensures |r| == |images|
    ensures forall k :: 0 <= k < |images| ==> |r[k]| == |images[k]|
    ensures forall k, j :: 0 <= k < |images| && 0 <= j < |images[k]| ==> ToUnit(r[k][j]) == images[k][j]
  {
    seq(|images|, k requires 0 <= k < |images| =>
      seq(|images[k]|, j requires 0 <= j < |images[k]| => ToSigned(images[k][j])))
  }

  /** `range(images.shape[0] // batch_size)`: a negative batch size gives no batches. */
  function NumBatches(n: nat, batchSize: int): (k: nat)
    requires batchSize != 0
    ensures k * batchSize <= n
    ensures batchSize > 0 ==> n - k * batchSize < batchSize
    ensures batchSize < 0 ==> k == 0
  {
    if batchSize > 0 then n / batchSize else 0
  }

  /** Batch i covers [i*bs, (i+1)*bs), and that slice lies inside the first NumBatches*bs images. */
  lemma SliceWithin(n: nat, batchSize: int, i: int)
    requires batchSize != 0 && 0 <= i < NumBatches(n, batchSize)
    ensures 0 <= i * batchSize < (i + 1) * batchSize <= NumBatches(n, batchSize) * batchSize <= n
  {
    MulMonotone(0, i, batchSize);
    MulMonotone(i + 1, NumBatches(n, batchSize), batchSize);
  }

  /** The feed of batch i of an epoch (lines 280-291). */
  function BatchFeed(epoch: int, images: seq<Image>, batchSize: int, i: int): (f: Feed)
    requires batchSize != 0 && 0 <= i < NumBatches(|images|, batchSize)
    ensures f.lo == i * batchSize && f.hi == (i + 1) * batchSize && f.noise == NoiseDraw(epoch, i)
    ensures 0 <= f.lo < f.hi <= |images| && f.hi - f.lo == batchSize
    ensures f.images == SignedBatch(images[f.lo..f.hi])
  {
    SliceWithin(|images|, batchSize, i);
    Feed(i * batchSize, (i + 1) * batchSize, SignedBatch(images[i * batchSize..(i + 1) * batchSize]), NoiseDraw(epoch, i))
  }

  /** The events of the first k batches of an epoch. */
  function EpochBatches(epoch: int, images: seq<Image>, batchSize: int, k: int): seq<TrainEvent>
    requires batchSize != 0 && 0 <= k <= NumBatches(|images|, batchSize)
  {
    if k == 0 then []
    else
      var f := BatchFeed(epoch, images, batchSize, k - 1);
      EpochBatches(epoch, images, batchSize, k - 1) + [Step(Discriminator, epoch, k - 1, f), Step(Generator, epoch, k - 1, f)]
  }

  /** The last batch fed after the k batches of an epoch. */
  function LastAfter(epoch: int, images: seq<Image>, batchSize: int, k: int, last: LastFeed): LastFeed
    requires batchSize != 0 && 0 <= k <= NumBatches(|images|, batchSize)
  {
    if k > 0 then Fed(BatchFeed(epoch, images, batchSize, k - 1)) else last
  }

  /** What one epoch contributes: its events, whether it raised, and the last batch fed. */
  datatype EpochRun = EpochRun(run: Run, last: LastFeed)

  /**
    One epoch with a non-zero batch size (lines 276-307). A batch has been
    fed after it exactly when it had a full batch or an earlier epoch did; it
    raises at line 297 exactly when no batch has been fed, and otherwise at
    line 306 exactly when break_time is 0.
   */
  function Epoch(e: int, images: seq<Image>, batchSize: int, breakTime: int, last: LastFeed): (r: EpochRun)
    requires batchSize != 0
    ensures r.last.Fed? <==> NumBatches(|images|, batchSize) > 0 || last.Fed?
    ensures r.run.outcome == Failed(NoBatchYet) <==> NumBatches(|images|, batchSize) == 0 && last.NoFeed?
    ensures r.run.outcome == Failed(ZeroBreakTime) <==> (NumBatches(|images|, batchSize) > 0 || last.Fed?) && breakTime == 0
    ensures r.run.outcome == Completed <==> (NumBatches(|images|, batchSize) > 0 || last.Fed?) && breakTime != 0
  {
    var k := NumBatches(|images|, batchSize);
    var batches := EpochBatches(e, images, batchSize, k);
    var last' := LastAfter(e, images, batchSize, k, last);
    if last'.NoFeed? then EpochRun(Run(batches, Failed(NoBatchYet)), last')
    else
      if breakTime == 0 then EpochRun(Run(batches + [EvalLosses(e, last'.feed), Sample(e)], Failed(ZeroBreakTime)), last')
      else EpochRun(Run(batches + Diagnostics(e, last'.feed, breakTime), Completed), last')
  }

  /** The events of epochs e, e + 1, ..., epochs - 1, given the last batch fed before epoch e. */
  function Schedule(e: nat, epochs: int, batchSize: int, breakTime: int, loaded: seq<seq<Image>>, last: LastFeed): (r: Run)
    requires epochs <= |loaded|
    ensures r.outcome == Failed(ZeroBatchSize) <==> e < epochs && batchSize == 0
    ensures r.outcome == Failed(ZeroBatchSize) ==> r.trace == []
    decreases epochs - e
  {
    if e >= epochs then Run([], Completed)
    else if batchSize == 0 then Run([], Failed(ZeroBatchSize))
    else
      var first := Epoch(e, loaded[e], batchSize, breakTime, last);
      if first.run.outcome.Failed? then first.run
      else
        var rest := Schedule(e + 1, epochs, batchSize, breakTime, loaded, first.last);
        Run(first.run.trace + rest.trace, rest.outcome)
  }

  /** The whole of `train()` from `begin_time` (0 in the code; the resume path sets it). */
  function TrainRun(begin: nat, epochs: int, batchSize: int, breakTime: int, loaded: seq<seq<Image>>): Run
    requires epochs <= |loaded|
  {
    Schedule(begin, epochs, batchSize, breakTime, loaded, NoFeed)
  }

  /** The batch loop of one epoch (cly_dcgan.py:278-295). */
  method RunBatches(epoch: int, images: seq<Image>, batchSize: int, last: LastFeed)
    returns (events: seq<TrainEvent>, last': LastFeed)
    requires batchSize != 0
    ensures events == EpochBatches(epoch, images, batchSize, NumBatches(|images|, batchSize))
    ensures last' == LastAfter(epoch, images, batchSize, NumBatches(|images|, batchSize), last)
  {
    var n := NumBatches(|images|, batchSize);
    events, last' := [], last;
    var batchI := 0;
    while batchI < n
      invariant 0 <= batchI <= n
      invariant events == EpochBatches(epoch, images, batchSize, batchI)
      invariant last' == LastAfter(epoch, images, batchSize, batchI, last)
    {
      SliceWithin(|images|, batchSize, batchI);
      var batchImages := SignedBatch(images[batchI * batchSize..(batchI + 1) * batchSize]);
      var feed := Feed(batchI * batchSize, (batchI + 1) * batchSize, batchImages, NoiseDraw(epoch, batchI));
      events := events + [Step(Discriminator, epoch, batchI, feed)];
      events := events + [Step(Generator, epoch, batchI, feed)];
      last' := Fed(feed);
      batchI := batchI + 1;
    }
  }

  /** One pass of the epoch loop body (cly_dcgan.py:276-307). */
  method RunEpoch(epoch: int, images: seq<Image>, batchSize: int, breakTime: int, last: LastFeed)
    returns (events: seq<TrainEvent>, outcome: Outcome, last': LastFeed)
    requires batchSize != 0
    ensures EpochRun(Run(events, outcome), last') == Epoch(epoch, images, batchSize, breakTime, last)
  {
    events, last' := RunBatches(epoch, images, batchSize, last);
    if last'.NoFeed? {
      return events, Failed(NoBatchYet), last';
    }
    events := events + [EvalLosses(epoch, last'.feed), Sample(epoch)];
    if breakTime == 0 {
      return events, Failed(ZeroBreakTime), last';
    }
    if epoch % breakTime == 0 {
      events := events + [Checkpoint(epoch)];
    }
    outcome := Completed;
  }

  /**
    The loops of `train()` (cly_dcgan.py:275-307). Dafny's `%` is Euclidean
    and Python's floors, but both are zero exactly for multiples, so the
    checkpoint test agrees for every non-zero break time.
   */
  method Train(begin: nat, epochs: int, batchSize: int, breakTime: int, loaded: seq<seq<Image>>)
    returns (trace: seq<TrainEvent>, outcome: Outcome)
    requires epochs <= |loaded|
    ensures Run(trace, outcome) == TrainRun(begin, epochs, batchSize, breakTime, loaded)
  {
    trace := [];
    var last := NoFeed;
    var epoch := begin;
    while epoch < epochs
      invariant begin <= epoch
      invariant var rest := Schedule(epoch, epochs, batchSize, breakTime, loaded, last);
                TrainRun(begin, epochs, batchSize, breakTime, loaded) == Run(trace + rest.trace, rest.outcome)
      decreases epochs - epoch
    {
      if batchSize == 0 {
        return trace, Failed(ZeroBatchSize);
      }
      var events, epochOutcome, last' := RunEpoch(epoch, loaded[epoch], batchSize, breakTime, last);
      if epochOutcome.Failed? {
        return trace + events, epochOutcome;
      }
      assert trace + (events + Schedule(epoch + 1, epochs, batchSize, breakTime, loaded, last').trace)
          == (trace + events) + Schedule(epoch + 1, epochs, batchSize, breakTime, loaded, last').trace;
      trace, last := trace + events, last';
      epoch := epoch + 1;
    }
    outcome := Completed;
  }

  // ---------------------------------------------------------------------
  // Batches of one epoch

  /**
    Batch i of an epoch is a discriminator step immediately followed by a
    generator step, both fed the same rescaled slice [i*bs, (i+1)*bs) and the
    same noise draw; there are exactly k such pairs.
   */
  lemma {:induction false} EpochBatchesAt(epoch: int, images: seq<Image>, batchSize: int, k: int, i: int)
    requires batchSize != 0 && 0 <= k <= NumBatches(|images|, batchSize)
    requires 0 <= i < k
    ensures |EpochBatches(epoch, images, batchSize, k)| == 2 * k
    ensures var f := BatchFeed(epoch, images, batchSize, i);
            && EpochBatches(epoch, images, batchSize, k)[2 * i] == Step(Discriminator, epoch, i, f)
            && EpochBatches(epoch, images, batchSize, k)[2 * i + 1] == Step(Generator, epoch, i, f)
            && f.lo == i * batchSize && f.hi == (i + 1) * batchSize
            && f.images == SignedBatch(images[i * batchSize..(i + 1) * batchSize])
            && f.noise == NoiseDraw(epoch, i)
  {
    if i < k - 1 {
      EpochBatchesAt(epoch, images, batchSize, k - 1, i);
    } else if k > 1 {
      EpochBatchesAt(epoch, images, batchSize, k - 1, 0);
    }
  }

  /** Distinct batches of an epoch take disjoint slices, in increasing order. */
  lemma BatchesDisjoint(epoch: int, images: seq<Image>, batchSize: int, i: int, j: int)
    requires batchSize != 0 && 0 <= i < j < NumBatches(|images|, batchSize)
    ensures BatchFeed(epoch, images, batchSize, i).hi <= BatchFeed(epoch, images, batchSize, j).lo
  {
    MulMonotone(i + 1, j, batchSize);
  }

  /**
    Image x of an epoch is fed exactly when it lies before NumBatches*bs: then
    batch x / bs holds it. The fewer than bs trailing images are never used.
   */
  lemma ImageUsedIff(epoch: int, images: seq<Image>, batchSize: int, x: int)
    requires batchSize != 0 && 0 <= x < |images|
    ensures (exists i :: 0 <= i < NumBatches(|images|, batchSize) &&
               BatchFeed(epoch, images, batchSize, i).lo <= x < BatchFeed(epoch, images, batchSize, i).hi)
            <==> x < NumBatches(|images|, batchSize) * batchSize
    ensures x < NumBatches(|images|, batchSize) * batchSize ==>
              var i := x / batchSize;
              0 <= i < NumBatches(|images|, batchSize) &&
              BatchFeed(epoch, images, batchSize, i).lo <= x < BatchFeed(epoch, images, batchSize, i).hi
  {
    var k := NumBatches(|images|, batchSize);
    if x < k * batchSize {
      BatchOfImage(epoch, images, batchSize, x);
    }
    if exists i :: 0 <= i < k && BatchFeed(epoch, images, batchSize, i).lo <= x < BatchFeed(epoch, images, batchSize, i).hi {
      var i :| 0 <= i < k && BatchFeed(epoch, images, batchSize, i).lo <= x < BatchFeed(epoch, images, batchSize, i).hi;
      MulMonotone(i + 1, k, batchSize);
    }
  }

  lemma BatchOfImage(epoch: int, images: seq<Image>, batchSize: int, x: int)
    requires batchSize != 0 && 0 <= x < NumBatches(|images|, batchSize) * batchSize
    ensures var i := x / batchSize;
            0 <= i < NumBatches(|images|, batchSize) &&
            BatchFeed(epoch, images, batchSize, i).lo <= x < BatchFeed(epoch, images, batchSize, i).hi
  {
    var k := NumBatches(|images|, batchSize);
    var i := x / batchSize;
    assert batchSize > 0;
    if i >= k {
      MulMonotone(k, i, batchSize);
    }
    var f := BatchFeed(epoch, images, batchSize, i);
    assert f.lo <= x < f.hi;
  }

  // ---------------------------------------------------------------------
  // Counting optimizer steps

  /** The number of `net` steps of epoch e in a trace. */
  function StepCount(t: seq<TrainEvent>, net: Net, e: int): nat
  {
    if t == [] then 0
    else StepCount(t[..|t| - 1], net, e) + (if t[|t| - 1].Step? && t[|t| - 1].net == net && t[|t| - 1].epoch == e then 1 else 0)
  }

  lemma {:induction false} StepCountAppend(a: seq<TrainEvent>, b: seq<TrainEvent>, net: Net, e: int)
    ensures StepCount(a + b, net, e) == StepCount(a, net, e) + StepCount(b, net, e)
    decreases |b|
  {
    if b == [] {
      assert a + b == a;
    } else {
      assert (a + b)[..|a + b| - 1] == a + b[..|b| - 1];
      assert (a + b)[|a + b| - 1] == b[|b| - 1];
      StepCountAppend(a, b[..|b| - 1], net, e);
    }
  }

  lemma StepCountSingle(ev: TrainEvent, net: Net, e: int)
    ensures StepCount([ev], net, e) == if ev.Step? && ev.net == net && ev.epoch == e then 1 else 0
  {
    assert [ev][..0] == [];
  }

  /** One discriminator-then-generator pair holds one step of each network. */
  lemma PairCount(epoch: int, i: int, f: Feed, net: Net, e: int)
    ensures StepCount([Step(Discriminator, epoch, i, f), Step(Generator, epoch, i, f)], net, e) == if e == epoch then 1 else 0
  {
    assert [Step(Discriminator, epoch, i, f), Step(Generator, epoch, i, f)]
        == [Step(Discriminator, epoch, i, f)] + [Step(Generator, epoch, i, f)];
    StepCountAppend([Step(Discriminator, epoch, i, f)], [Step(Generator, epoch, i, f)], net, e);
    StepCountSingle(Step(Discriminator, epoch, i, f), net, e);
    StepCountSingle(Step(Generator, epoch, i, f), net, e);
  }

  lemma {:induction false} EpochBatchesLength(epoch: int, images: seq<Image>, batchSize: int, k: int)
    requires batchSize != 0 && 0 <= k <= NumBatches(|images|, batchSize)
    ensures |EpochBatches(epoch, images, batchSize, k)| == 2 * k
  {
    if k > 0 {
      EpochBatchesLength(epoch, images, batchSize, k - 1);
    }
  }

  lemma {:induction false} EpochBatchesCount(epoch: int, images: seq<Image>, batchSize: int, k: int, net: Net, e: int)
    requires batchSize != 0 && 0 <= k <= NumBatches(|images|, batchSize)
    ensures StepCount(EpochBatches(epoch, images, batchSize, k), net, e) == if e == epoch then k else 0
  {
    if k > 0 {
      var f := BatchFeed(epoch, images, batchSize, k - 1);
      var pair := [Step(Discriminator, epoch, k - 1, f), Step(Generator, epoch, k - 1, f)];
      assert EpochBatches(epoch, images, batchSize, k) == EpochBatches(epoch, images, batchSize, k - 1) + pair;
      EpochBatchesCount(epoch, images, batchSize, k - 1, net, e);
      StepCountAppend(EpochBatches(epoch, images, batchSize, k - 1), pair, net, e);
      PairCount(epoch, k - 1, f, net, e);
    }
  }

  // ---------------------------------------------------------------------
  // One epoch

  predicate AllInEpoch(t: seq<TrainEvent>, e: int)
  {
    forall i :: 0 <= i < |t| ==> EpochOf(t[i]) == e
  }

  /** The batch events of an epoch are steps of that epoch only. */
  lemma EpochBatchesSteps(e: int, images: seq<Image>, batchSize: int, k: int)
    requires batchSize != 0 && 0 <= k <= NumBatches(|images|, batchSize)
    ensures AllInEpoch(EpochBatches(e, images, batchSize, k), e)
    ensures forall i :: 0 <= i < |EpochBatches(e, images, batchSize, k)| ==> EpochBatches(e, images, batchSize, k)[i].Step?
  {
    var batches := EpochBatches(e, images, batchSize, k);
    EpochBatchesLength(e, images, batchSize, k);
    forall i | 0 <= i < |batches|
      ensures EpochOf(batches[i]) == e && batches[i].Step?
    {
      EpochBatchesAt(e, images, batchSize, k, i / 2);
      assert i == 2 * (i / 2) || i == 2 * (i / 2) + 1;
    }
  }

  /** The events after the batches of a completed epoch: losses, samples and the checkpoint if due. */
  function Diagnostics(e: int, f: Feed, breakTime: int): seq<TrainEvent>
    requires breakTime != 0
  {
    [EvalLosses(e, f), Sample(e)] + (if e % breakTime == 0 then [Checkpoint(e)] else [])
  }

  lemma DiagnosticsFacts(e: int, f: Feed, breakTime: int, net: Net, x: int)
    requires breakTime != 0
    ensures AllInEpoch(Diagnostics(e, f, breakTime), e)
    ensures StepCount(Diagnostics(e, f, breakTime), net, x) == 0
    ensures Checkpoint(x) in Diagnostics(e, f, breakTime) <==> x == e && e % breakTime == 0
  {
    var d := Diagnostics(e, f, breakTime);
    StepCountSingle(EvalLosses(e, f), net, x);
    StepCountSingle(Sample(e), net, x);
    StepCountAppend([EvalLosses(e, f)], [Sample(e)], net, x);
    assert [EvalLosses(e, f), Sample(e)] == [EvalLosses(e, f)] + [Sample(e)];
    if e % breakTime == 0 {
      StepCountSingle(Checkpoint(e), net, x);
      StepCountAppend([EvalLosses(e, f), Sample(e)], [Checkpoint(e)], net, x);
    } else {
      assert d == [EvalLosses(e, f), Sample(e)];
    }
  }

  /**
    A completed epoch e holds only events of epoch e, exactly
    NumBatches(|images|, bs) steps of each network, and a checkpoint exactly
    when e % break_time == 0.
   */
  lemma EpochFacts(e: int, images: seq<Image>, batchSize: int, breakTime: int, last: LastFeed, net: Net, x: int)
    requires batchSize != 0
    ensures AllInEpoch(Epoch(e, images, batchSize, breakTime, last).run.trace, e)
    ensures var r := Epoch(e, images, batchSize, breakTime, last).run;
            r.outcome == Completed ==>
              && (Checkpoint(x) in r.trace <==> x == e && e % breakTime == 0)
              && StepCount(r.trace, net, x) == if x == e then NumBatches(|images|, batchSize) else 0
  {
    var k := NumBatches(|images|, batchSize);
    var batches := EpochBatches(e, images, batchSize, k);
    var last' := LastAfter(e, images, batchSize, k, last);
    EpochBatchesSteps(e, images, batchSize, k);
    var r := Epoch(e, images, batchSize, breakTime, last).run;
    if last'.Fed? {
      var diag := [EvalLosses(e, last'.feed), Sample(e)];
      AllInEpochAppend(batches, diag, e);
      if breakTime != 0 {
        var d := Diagnostics(e, last'.feed, breakTime);
        assert r.trace == batches + d;
        DiagnosticsFacts(e, last'.feed, breakTime, net, x);
        AllInEpochAppend(batches, d, e);
        EpochBatchesCount(e, images, batchSize, k, net, x);
        StepCountAppend(batches, d, net, x);
        if Checkpoint(x) in r.trace {
          var i :| 0 <= i < |r.trace| && r.trace[i] == Checkpoint(x);
          if i >= |batches| {
            assert r.trace[i] == d[i - |batches|];
          }
        }
      }
    }
  }

  lemma AllInEpochAppend(a: seq<TrainEvent>, b: seq<TrainEvent>, e: int)
    requires AllInEpoch(a, e) && AllInEpoch(b, e)
    ensures AllInEpoch(a + b, e)
  {
    forall i | 0 <= i < |a + b|
      ensures EpochOf((a + b)[i]) == e
    {
      if i < |a| {
        assert (a + b)[i] == a[i];
      } else {
        assert (a + b)[i] == b[i - |a|];
      }
    }
  }

  // ---------------------------------------------------------------------
  // The whole schedule

  predicate Within(t: seq<TrainEvent>, lo: int, hi: int)
  {
    forall i :: 0 <= i < |t| ==> lo <= EpochOf(t[i]) < hi
  }

  predicate InEpochOrder(t: seq<TrainEvent>)
  {
    forall i, j :: 0 <= i < j < |t| ==> EpochOf(t[i]) <= EpochOf(t[j])
  }

  lemma OrderedAppend(a: seq<TrainEvent>, b: seq<TrainEvent>, e: int, epochs: int)
    requires e < epochs && AllInEpoch(a, e) && Within(b, e + 1, epochs) && InEpochOrder(b)
    ensures Within(a + b, e, epochs) && InEpochOrder(a + b)
  {
    forall i, j | 0 <= i < j < |a + b|
      ensures EpochOf((a + b)[i]) <= EpochOf((a + b)[j])
    {
      if j < |a| {
        assert (a + b)[i] == a[i] && (a + b)[j] == a[j];
      } else if i < |a| {
        assert (a + b)[i] == a[i] && (a + b)[j] == b[j - |a|];
      } else {
        assert (a + b)[i] == b[i - |a|] && (a + b)[j] == b[j - |a|];
      }
    }
    forall i | 0 <= i < |a + b|
      ensures e <= EpochOf((a + b)[i]) < epochs
    {
      if i < |a| {
        assert (a + b)[i] == a[i];
      } else {
        assert (a + b)[i] == b[i - |a|];
      }
    }
  }

  /** Events appear in epoch order, and only epochs from e to epochs - 1 appear, whatever the outcome. */
  lemma {:induction false} ScheduleInOrder(e: nat, epochs: int, batchSize: int, breakTime: int, loaded: seq<seq<Image>>, last: LastFeed)
    requires epochs <= |loaded|
    ensures var t := Schedule(e, epochs, batchSize, breakTime, loaded, last).trace;
            Within(t, e, epochs) && InEpochOrder(t)
    decreases epochs - e
  {
    if e < epochs && batchSize != 0 {
      var first := Epoch(e, loaded[e], batchSize, breakTime, last);
      EpochFacts(e, loaded[e], batchSize, breakTime, last, Discriminator, e);
      if first.run.outcome.Completed? {
        ScheduleInOrder(e + 1, epochs, batchSize, breakTime, loaded, first.last);
        OrderedAppend(first.run.trace, Schedule(e + 1, epochs, batchSize, breakTime, loaded, first.last).trace, e, epochs);
      }
    }
  }

  /**
    In a completed run a checkpoint is saved at epoch x exactly when x is one
    of the epochs run and x % break_time == 0, and every epoch x runs exactly
    NumBatches(|loaded[x]|, bs) steps of each network.
   */
  lemma {:induction false} ScheduleCompleted(e: nat, epochs: int, batchSize: int, breakTime: int, loaded: seq<seq<Image>>,
                                        last: LastFeed, net: Net, x: int)
    requires epochs <= |loaded|
    requires Schedule(e, epochs, batchSize, breakTime, loaded, last).outcome == Completed
    ensures var t := Schedule(e, epochs, batchSize, breakTime, loaded, last).trace;
            && (Checkpoint(x) in t <==> e <= x < epochs && x % breakTime == 0)
            && StepCount(t, net, x) == if e <= x < epochs then NumBatches(|loaded[x]|, batchSize) else 0
    decreases epochs - e
  {
    if e < epochs {
      var first := Epoch(e, loaded[e], batchSize, breakTime, last);
      var rest := Schedule(e + 1, epochs, batchSize, breakTime, loaded, first.last);
      EpochFacts(e, loaded[e], batchSize, breakTime, last, net, x);
      ScheduleCompleted(e + 1, epochs, batchSize, breakTime, loaded, first.last, net, x);
      StepCountAppend(first.run.trace, rest.trace, net, x);
    }
  }

  /** After a batch has been fed once, a run with non-zero batch size and break time always completes. */
  lemma {:induction false} ScheduleCompletesAfterFeed(e: nat, epochs: int, batchSize: int, breakTime: int,
                                                 loaded: seq<seq<Image>>, f: Feed)
    requires epochs <= |loaded| && batchSize != 0 && breakTime != 0
    ensures Schedule(e, epochs, batchSize, breakTime, loaded, Fed(f)).outcome == Completed
    decreases epochs - e
  {
    if e < epochs {
      var first := Epoch(e, loaded[e], batchSize, breakTime, Fed(f));
      ScheduleCompletesAfterFeed(e + 1, epochs, batchSize, breakTime, loaded, first.last.feed);
    }
  }

  /**
    How `train()` ends: a zero batch size raises before anything runs; a
    first epoch without a full batch raises at the loss evaluation; a zero
    break time raises after the first epoch's samples; otherwise every epoch
    runs.
   */
  lemma TrainOutcome(begin: nat, epochs: int, batchSize: int, breakTime: int, loaded: seq<seq<Image>>)
    requires epochs <= |loaded| && begin < epochs
    ensures var r := TrainRun(begin, epochs, batchSize, breakTime, loaded);
            && (batchSize == 0 ==> r == Run([], Failed(ZeroBatchSize)))
            && (batchSize != 0 && NumBatches(|loaded[begin]|, batchSize) == 0 ==> r == Run([], Failed(NoBatchYet)))
            && (batchSize != 0 && NumBatches(|loaded[begin]|, batchSize) > 0 ==>
                  r.outcome == if breakTime == 0 then Failed(ZeroBreakTime) else Completed)
  {
    if batchSize != 0 && NumBatches(|loaded[begin]|, batchSize) > 0 && breakTime != 0 {
      var first := Epoch(begin, loaded[begin], batchSize, breakTime, NoFeed);
      ScheduleCompletesAfterFeed(begin + 1, epochs, batchSize, breakTime, loaded, first.last.feed);
    }
  }

  /**
    One epoch over four images with batch size 2: exactly two
    discriminator-then-generator pairs, then the loss evaluation on the second
    batch, the samples, and a checkpoint (0 % break_time == 0).
   */
  lemma FourImagesOneEpoch(images: seq<Image>, breakTime: int)
    requires |images| == 4 && breakTime != 0
    ensures var f0 := Feed(0, 2, SignedBatch(images[0..2]), NoiseDraw(0, 0));
            var f1 := Feed(2, 4, SignedBatch(images[2..4]), NoiseDraw(0, 1));
            TrainRun(0, 1, 2, breakTime, [images]) ==
              Run([Step(Discriminator, 0, 0, f0), Step(Generator, 0, 0, f0),
                   Step(Discriminator, 0, 1, f1), Step(Generator, 0, 1, f1),
                   EvalLosses(0, f1), Sample(0), Checkpoint(0)], Completed)
  {
    assert NumBatches(4, 2) == 2;
    assert EpochBatches(0, images, 2, 1) == [Step(Discriminator, 0, 0, BatchFeed(0, images, 2, 0)),
                                             Step(Generator, 0, 0, BatchFeed(0, images, 2, 0))];
  }
}

/** The body of main (main.py:169-224) without its file I/O: every entry is
    submitted as one task numbered from 1, and the results are appended to
    `updated_metadata` in the order the tasks complete, dropping tasks that
    raised and results that are None. */
module Batch {
  import opened Json
  import opened Garment
  import opened Entry

  /** The folders main passes to every task (main.py:172-173). */
  const MASK_FOLDER := "./test_mask/"
  const SEGMENT_FOLDER := "./test_segment/"

  /** A finished task: `future.result()` raised (the worker died, the
      arguments or the result failed to pickle), or it returned a value. */
  datatype Future = Failed | Done(result: Value)

  /** A future whose value main appends: it did not raise and is not None. */
  predicate Kept(f: Future)
  {
    f.Done? && f.result != Null
  }

  predicate InRange(order: seq<nat>, n: nat)
  {
    forall i :: 0 <= i < |order| ==> order[i] < n
  }

  /** The submission order 0, 1, ..., n-1. */
  function Submission(n: nat): seq<nat>
  {
    seq(n, i => i)
  }

  /** `as_completed` yields every future exactly once, in some order. */
  predicate IsCompletionOrder(order: seq<nat>, n: nat)
  {
    multiset(order) == multiset(Submission(n))
  }

  /** The value main appends for future `i`, if any. */
  function Appended(futures: seq<Future>, i: nat): seq<Value>
  {
    if i < |futures| && Kept(futures[i]) then [futures[i].result] else []
  }

  /** What the loop appends, visiting the futures in `order`. */
  function Collected(futures: seq<Future>, order: seq<nat>): seq<Value>
  {
    if order == [] then []
    else Collected(futures, order[..|order| - 1]) + Appended(futures, order[|order| - 1])
  }

  /** Reference: the kept values in submission order. */
  function KeptValues(futures: seq<Future>): seq<Value>
  {
    if futures == [] then []
    else
      var f := futures[|futures| - 1];
      KeptValues(futures[..|futures| - 1]) + (if Kept(f) then [f.result] else [])
  }

  lemma CompletionOrderInRange(order: seq<nat>, n: nat)
    requires IsCompletionOrder(order, n)
    ensures InRange(order, n)
  {
    forall i | 0 <= i < |order|
      ensures order[i] < n
    {
      assert order[i] in multiset(order);
      assert order[i] in multiset(Submission(n));
      assert order[i] in Submission(n);
    }
  }

  lemma {:induction false} CollectedAppend(futures: seq<Future>, a: seq<nat>, b: seq<nat>)
    ensures Collected(futures, a + b) == Collected(futures, a) + Collected(futures, b)
  {
    if b != [] {
      var b' := b[..|b| - 1];
      assert (a + b)[..|a + b| - 1] == a + b';
      CollectedAppend(futures, a, b');
    } else {
      assert a + b == a;
    }
  }

  lemma SplitAt(o: seq<nat>, k: nat)
    requires k < |o|
    ensures o == o[..k] + [o[k]] + o[k + 1..]
    ensures multiset(o[..k] + o[k + 1..]) == multiset(o) - multiset{o[k]}
  {
    assert o == o[..k] + [o[k]] + o[k + 1..];
  }

  /** Visiting the same futures in another order appends the same values,
      possibly in another order. */
  lemma {:induction false} CollectedPermutes(futures: seq<Future>, o1: seq<nat>, o2: seq<nat>)
    requires multiset(o1) == multiset(o2)
    ensures multiset(Collected(futures, o1)) == multiset(Collected(futures, o2))
    decreases |o1|
  {
    if o1 == [] {
      assert |o2| == |multiset(o2)| == 0;
    } else {
      var x := o1[|o1| - 1];
      SplitAt(o1, |o1| - 1);
      var rest1 := o1[..|o1| - 1];
      assert o1[..|o1| - 1] + o1[|o1|..] == rest1;
      assert x in multiset(o2);
      var k :| 0 <= k < |o2| && o2[k] == x;
      SplitAt(o2, k);
      var before, after := o2[..k], o2[k + 1..];
      var rest2 := before + after;
      CollectedPermutes(futures, rest1, rest2);
      CollectedAppend(futures, before, [x]);
      CollectedAppend(futures, before + [x], after);
      CollectedAppend(futures, before, after);
      CollectedAppend(futures, rest1, [x]);
      var c := Collected(futures, [x]);
      assert Collected(futures, o1) == Collected(futures, rest1) + c;
      assert Collected(futures, o2) == Collected(futures, before) + c + Collected(futures, after);
      MovedPart(Collected(futures, before), c, Collected(futures, after), Collected(futures, rest1));
    }
  }

  /** Taking `c` out of the middle of a sequence and putting it at the end
      keeps the multiset. */
  lemma MovedPart(a: seq<Value>, c: seq<Value>, b: seq<Value>, r: seq<Value>)
    requires multiset(r) == multiset(a + b)
    ensures multiset(a + c + b) == multiset(r + c)
  {
    calc {
      multiset(a + c + b);
      multiset(a) + multiset(c) + multiset(b);
      multiset(a + b) + multiset(c);
      multiset(r + c);
    }
  }

  lemma {:induction false} CollectedInSubmissionOrder(futures: seq<Future>, m: nat)
    requires m <= |futures|
    ensures Collected(futures, Submission(m)) == KeptValues(futures[..m])
  {
    if m > 0 {
      assert Submission(m)[..m - 1] == Submission(m - 1);
      assert futures[..m][..m - 1] == futures[..m - 1];
      CollectedInSubmissionOrder(futures, m - 1);
    }
  }

  /** Exactly the kept values, each once: a value is in the reference list
      iff some future that did not raise returned it and it is not None. */
  lemma {:induction false} KeptValuesExactly(futures: seq<Future>)
    ensures |KeptValues(futures)| <= |futures|
    ensures forall v :: v in KeptValues(futures) <==>
      exists i :: 0 <= i < |futures| && Kept(futures[i]) && futures[i].result == v
  {
    if futures != [] {
      var front := futures[..|futures| - 1];
      KeptValuesExactly(front);
      forall v
        ensures v in KeptValues(futures) <==>
          exists i :: 0 <= i < |futures| && Kept(futures[i]) && futures[i].result == v
      {
        if v in KeptValues(front) {
          var i :| 0 <= i < |front| && Kept(front[i]) && front[i].result == v;
          assert futures[i] == front[i];
        }
        if exists i :: 0 <= i < |futures| && Kept(futures[i]) && futures[i].result == v {
          var i :| 0 <= i < |futures| && Kept(futures[i]) && futures[i].result == v;
          if i < |front| {
            assert front[i] == futures[i];
          }
        }
      }
    }
  }

  /** The `as_completed` loop (main.py:208-215): `updated_metadata` holds
      every value of a future that did not raise and is not None, each
      exactly once, in completion order, so it is never longer than the input. */
  method CollectCompleted(futures: seq<Future>, order: seq<nat>) returns (updated: seq<Value>)
    requires IsCompletionOrder(order, |futures|)
    ensures updated == Collected(futures, order)
    ensures multiset(updated) == multiset(KeptValues(futures))
    ensures |updated| <= |futures|
    ensures forall v :: v in updated ==>
      exists i :: 0 <= i < |futures| && Kept(futures[i]) && futures[i].result == v
  {
    CompletionOrderInRange(order, |futures|);
    updated := [];
    for i := 0 to |order|
      invariant updated == Collected(futures, order[..i])
    {
      var future := futures[order[i]];
      assert order[..i + 1][..i] == order[..i];
      if future.Done? && future.result != Null {
        updated := updated + [future.result];
      }
    }
    assert order[..|order|] == order;
    CollectedPermutes(futures, order, Submission(|futures|));
    CollectedInSubmissionOrder(futures, |futures|);
    assert futures[..|futures|] == futures;
    KeptValuesExactly(futures);
    assert |updated| == |multiset(updated)| == |KeptValues(futures)|;
    forall v | v in updated
      ensures v in KeptValues(futures)
    {
      assert v in multiset(updated);
    }
  }

  /** The futures of one run, in submission order: entry i is task i + 1. */
  function Futures(metadata: seq<Value>, ctx: Context, world: World, failed: set<nat>): (fs: seq<Future>)
    ensures |fs| == |metadata|
  {
    seq(|metadata|, i requires 0 <= i < |metadata| =>
      if i in failed then Failed else Done(EntryResult(metadata[i], i + 1, ctx, world)))
  }

  /** Submitting every entry (main.py:193-205): entry i runs as task i + 1,
      and a task that raised is Failed. */
  method SubmitAll(metadata: seq<Value>, ctx: Context, world: World, failed: set<nat>) returns (futures: seq<Future>)
    ensures futures == Futures(metadata, ctx, world, failed)
  {
    futures := [];
    for i := 0 to |metadata|
      invariant |futures| == i
      invariant forall j :: 0 <= j < i ==>
        futures[j] == if j in failed then Failed else Done(EntryResult(metadata[j], j + 1, ctx, world))
    {
      if i in failed {
        futures := futures + [Failed];
      } else {
        var result := ProcessEntry(metadata[i], i + 1, ctx, world);
        futures := futures + [Done(result)];
      }
    }
  }

  /** A value kept from the futures of a run is a non-None result of
      process_entry on an entry whose task did not raise. */
  lemma KeptIsEntryResult(metadata: seq<Value>, ctx: Context, world: World, failed: set<nat>, v: Value)
    requires var fs := Futures(metadata, ctx, world, failed);
      exists i :: 0 <= i < |fs| && Kept(fs[i]) && fs[i].result == v
    ensures exists i :: 0 <= i < |metadata| && i !in failed && v != Null && v == EntryResult(metadata[i], i + 1, ctx, world)
  {
    var fs := Futures(metadata, ctx, world, failed);
    var i :| 0 <= i < |fs| && Kept(fs[i]) && fs[i].result == v;
  }

  /** main with the handles `h` handed to every task: submit each entry, then
      collect (main.py:208-215). Every value in the output is process_entry's
      result for some input entry whose task did not raise, and each such
      non-None result is there exactly once. */
  method RunBatch(metadata: seq<Value>, h: Handles, cwd: string, world: World, failed: set<nat>, order: seq<nat>)
    returns (updated: seq<Value>)
    requires IsCompletionOrder(order, |metadata|)
    ensures var fs := Futures(metadata, Context(h, MASK_FOLDER, SEGMENT_FOLDER, cwd), world, failed);
      && updated == Collected(fs, order)
      && multiset(updated) == multiset(KeptValues(fs))
    ensures |updated| <= |metadata|
    ensures forall v :: v in updated ==>
      exists i :: 0 <= i < |metadata| && i !in failed && v != Null
        && v == EntryResult(metadata[i], i + 1, Context(h, MASK_FOLDER, SEGMENT_FOLDER, cwd), world)
  {
    var ctx := Context(h, MASK_FOLDER, SEGMENT_FOLDER, cwd);
    var futures := SubmitAll(metadata, ctx, world, failed);
    updated := CollectCompleted(futures, order);
    forall v | v in updated
      ensures exists i :: 0 <= i < |metadata| && i !in failed && v != Null && v == EntryResult(metadata[i], i + 1, ctx, world)
    {
      KeptIsEntryResult(metadata, ctx, world, failed, v);
    }
  }

  /** main as written: the tasks get the parent's None handles, so the output
      marks no garment detected that the input did not already mark. */
  method RunAsWritten(metadata: seq<Value>, cwd: string, world: World, failed: set<nat>, order: seq<nat>)
    returns (updated: seq<Value>)
    requires IsCompletionOrder(order, |metadata|)
    ensures var fs := Futures(metadata, Context(PARENT_HANDLES, MASK_FOLDER, SEGMENT_FOLDER, cwd), world, failed);
      && updated == Collected(fs, order)
      && multiset(updated) == multiset(KeptValues(fs))
    ensures |updated| <= |metadata|
    ensures forall v :: v in updated ==>
      exists i :: 0 <= i < |metadata| && i !in failed && v != Null
        && v == EntryResult(metadata[i], i + 1, Context(PARENT_HANDLES, MASK_FOLDER, SEGMENT_FOLDER, cwd), world)
    ensures (forall i :: 0 <= i < |metadata| ==> NoneDetected(metadata[i])) ==>
      forall v :: v in updated ==> NoneDetected(v)
  {
    updated := RunBatch(metadata, PARENT_HANDLES, cwd, world, failed, order);
    if forall i :: 0 <= i < |metadata| ==> NoneDetected(metadata[i]) {
      forall v | v in updated
        ensures NoneDetected(v)
      {
        var i :| 0 <= i < |metadata| && i !in failed && v != Null
          && v == EntryResult(metadata[i], i + 1, Context(PARENT_HANDLES, MASK_FOLDER, SEGMENT_FOLDER, cwd), world);
        ParentHandlesKeepNoneDetected(metadata[i], i + 1, MASK_FOLDER, SEGMENT_FOLDER, cwd, world);
      }
    }
  }

  /** main as intended: the tasks use the models the worker initializer
      loaded, so a garment whose download, detection, segmentation and saves
      succeed is marked detected (see Garment.FirstBoxIsThePrompt). */
  method Run(metadata: seq<Value>, workerHandles: Handles, cwd: string, world: World, failed: set<nat>, order: seq<nat>)
    returns (updated: seq<Value>)
    requires Initialised(workerHandles)
    requires IsCompletionOrder(order, |metadata|)
    ensures var fs := Futures(metadata, Context(workerHandles, MASK_FOLDER, SEGMENT_FOLDER, cwd), world, failed);
      && updated == Collected(fs, order)
      && multiset(updated) == multiset(KeptValues(fs))
    ensures |updated| <= |metadata|
    ensures forall v :: v in updated ==>
      exists i :: 0 <= i < |metadata| && i !in failed && v != Null
        && v == EntryResult(metadata[i], i + 1, Context(workerHandles, MASK_FOLDER, SEGMENT_FOLDER, cwd), world)
  {
    updated := RunBatch(metadata, workerHandles, cwd, world, failed, order);
  }

  /** A sample entry: the flag set and one garment with an image URL. */
  function SampleEntry(): Value
  {
    Object(map[FLAG_KEY := Bool(true), GARMENTS_KEY := Array([Object(map[IMAGE_KEY := Str("http://x/a.jpg")])])])
  }

  /** Every collaborator succeeds: status 200, the file is on disk, one box,
      one mask, both images saved. */
  function SampleUnit(): UnitWorld
  {
    UnitWorld(
      Response(200), true,
      (path: string, caption: string) => Boxes([Box(0.0, 0.0, 1.0, 1.0)]),
      (path: string, box: Box) => Segmented(Mask(1)),
      true, true)
  }

  function SampleWorld(): World
  {
    (n: nat, idx: nat) => SampleUnit()
  }

  /** As written: even when every collaborator succeeds, the garment comes
      back with `shirt_detected` False, because the detector is called
      through the parent's None handle and the except clause empties the block. */
  lemma SampleAsWritten(cwd: string)
    ensures var r := EntryResult(SampleEntry(), 1, Context(PARENT_HANDLES, MASK_FOLDER, SEGMENT_FOLDER, cwd), SampleWorld());
      && r.Object? && r.fields[GARMENTS_KEY].Array? && |r.fields[GARMENTS_KEY].items| == 1
      && r.fields[GARMENTS_KEY].items[0].Object?
      && r.fields[GARMENTS_KEY].items[0].fields[DETECTED_KEY] == Bool(false)
      && r.fields[GARMENTS_KEY].items[0].fields[MASK_KEY] == Null
  {
    var g: Dict := map[IMAGE_KEY := Str("http://x/a.jpg")];
    var ctx := Context(PARENT_HANDLES, MASK_FOLDER, SEGMENT_FOLDER, cwd);
    assert SampleEntry().fields[GARMENTS_KEY].items == [Object(g)];
    assert DictPrefix([Object(g)]) == 1;
    ParentHandlesNeverDetect(g, Naming.GarmentIndex(1, 1), MASK_FOLDER, SEGMENT_FOLDER, cwd, SampleWorld()(1, 1));
  }

  lemma SampleMaskName()
    ensures Naming.MaskFileName("1_1") == "garment_1_1_mask.png"
  {
  }

  /** With the handles the worker initializer loaded, the sample garment is
      detected and its mask recorded under garment_1_1_mask.png. */
  lemma SampleGarmentDetected(ctx: Context)
    requires Initialised(ctx.handles)
    ensures var o := GarmentOutcome(map[IMAGE_KEY := Str("http://x/a.jpg")], "1_1", ctx, SampleUnit());
      o.block.Populated? && Naming.EndsWith(o.block.maskPath, "garment_1_1_mask.png")
  {
    var g: Dict := map[IMAGE_KEY := Str("http://x/a.jpg")];
    var w := SampleUnit();
    var path := Naming.DownloadPath("1_1");
    assert Truthy(Get(g, IMAGE_KEY, Null));
    assert w.detector(path, LABEL) == Boxes([Box(0.0, 0.0, 1.0, 1.0)]);
    assert w.segmenter(path, Box(0.0, 0.0, 1.0, 1.0)) == Segmented(Mask(1));
    FirstBoxIsThePrompt(g, "1_1", ctx, w);
    RecordedPathsNameTheGarment(g, "1_1", ctx, w);
    SampleMaskName();
  }

  /** The sample garment as process_entry leaves it for entry 1, position 1,
      with loaded models: detected, its mask under garment_1_1_mask.png. */
  lemma SampleGarmentProcessed(ctx: Context)
    requires Initialised(ctx.handles)
    ensures var p := ProcessedGarment(map[IMAGE_KEY := Str("http://x/a.jpg")], 1, 1, ctx, SampleWorld());
      && p[DETECTED_KEY] == Bool(true) && p[MASK_KEY].Str?
      && Naming.EndsWith(p[MASK_KEY].s, "garment_1_1_mask.png")
  {
    assert Naming.GarmentIndex(1, 1) == "1_1";
    assert SampleWorld()(1, 1) == SampleUnit();
    SampleGarmentDetected(ctx);
  }

  /** process_entry on the sample entry: its one garment, numbered 1_1, is
      processed in its slot. */
  lemma SampleEntryProcessed(ctx: Context)
    ensures EntryResult(SampleEntry(), 1, ctx, SampleWorld()) ==
      Object(SampleEntry().fields[GARMENTS_KEY := Array([Object(ProcessedGarment(map[IMAGE_KEY := Str("http://x/a.jpg")], 1, 1, ctx, SampleWorld()))])])
  {
    var g: Dict := map[IMAGE_KEY := Str("http://x/a.jpg")];
    assert SampleEntry().fields[GARMENTS_KEY].items == [Object(g)];
    assert DictPrefix([Object(g)]) == 1;
    var r := ProcessedFrom([Object(g)], 1, Step(1, ctx, SampleWorld()));
    assert |r| == 1 && r[0] == Object(ProcessedGarment(g, 1, 1, ctx, SampleWorld()));
    assert r == [Object(ProcessedGarment(g, 1, 1, ctx, SampleWorld()))];
  }

  /** The same run at entry level: the garment comes back with
      `shirt_detected` True and a mask path ending in garment_1_1_mask.png. */
  lemma SampleWithWorkerHandles(h: Handles, cwd: string)
    requires Initialised(h)
    ensures var r := EntryResult(SampleEntry(), 1, Context(h, MASK_FOLDER, SEGMENT_FOLDER, cwd), SampleWorld());
      && r.Object? && r.fields[GARMENTS_KEY].Array? && |r.fields[GARMENTS_KEY].items| == 1
      && r.fields[GARMENTS_KEY].items[0].Object?
      && r.fields[GARMENTS_KEY].items[0].fields[DETECTED_KEY] == Bool(true)
      && r.fields[GARMENTS_KEY].items[0].fields[MASK_KEY].Str?
      && Naming.EndsWith(r.fields[GARMENTS_KEY].items[0].fields[MASK_KEY].s, "garment_1_1_mask.png")
  {
    var ctx := Context(h, MASK_FOLDER, SEGMENT_FOLDER, cwd);
    SampleEntryProcessed(ctx);
    SampleGarmentProcessed(ctx);
  }
}

/** process_entry (main.py:135-167): the `process_garment_image` gate, then
    each garment of `garment_data`, numbered from 1, replaced in its slot by
    what process_garment made of it. */
module Entry {
  import opened Json
  import opened Naming
  import opened Garment

  const FLAG_KEY := "process_garment_image"
  const GARMENTS_KEY := "garment_data"

  /** The oracles of a whole run, one per garment, by entry number and garment
      position. */
  type World = (nat, nat) -> UnitWorld

  /** The dictionary process_garment leaves for garment `idx` of entry `n`. */
  function ProcessedGarment(g: Dict, n: nat, idx: nat, ctx: Context, world: World): Dict
  {
    g + BlockFields(GarmentOutcome(g, GarmentIndex(n, idx), ctx, world(n, idx)).block)
  }

  /** process_garment as applied by the loop of entry `n`: garment and its
      position to the processed garment. */
  function Step(n: nat, ctx: Context, world: World): (Dict, nat) -> Dict
  {
    (g: Dict, idx: nat) => ProcessedGarment(g, n, idx, ctx, world)
  }

  /** process_garment adds exactly the three result keys to a garment and
      leaves them fully populated or fully empty. */
  lemma ProcessedGarmentWrites(g: Dict, n: nat, idx: nat, ctx: Context, world: World)
    ensures var p := ProcessedGarment(g, n, idx, ctx, world);
      && Shaped(p)
      && p.Keys == g.Keys + RESULT_KEYS
      && (forall k :: k in g && k !in RESULT_KEYS ==> p[k] == g[k])
  {
    OnlyResultKeysChange(g, GarmentOutcome(g, GarmentIndex(n, idx), ctx, world(n, idx)).block);
  }

  lemma StepApplies(g: Dict, n: nat, idx: nat, ctx: Context, world: World)
    ensures Step(n, ctx, world)(g, idx) == ProcessedGarment(g, n, idx, ctx, world)
  {
  }

  /** How many leading garments are dictionaries. The loop stops at the first
      one that is not: process_garment's own except clause raises on it
      (`.get` and item assignment both fail) and process_entry's except
      clause returns the entry. */
  function DictPrefix(items: seq<Value>): (k: nat)
    ensures k <= |items|
    ensures forall j :: 0 <= j < k ==> items[j].Object?
    ensures k < |items| ==> !items[k].Object?
  {
    if items == [] || !items[0].Object? then 0 else 1 + DictPrefix(items[1..])
  }

  /** The garment list after the loop applied `process`, its first garment
      numbered `idx`. */
  function ProcessedFrom(items: seq<Value>, idx: nat, process: (Dict, nat) -> Dict): (r: seq<Value>)
    ensures |r| == |items|
    ensures forall j {:trigger r[j]} :: 0 <= j < |items| ==>
      r[j] == if j < DictPrefix(items) then Object(process(items[j].fields, idx + j)) else items[j]
  {
    if items == [] || !items[0].Object? then items
    else
      var rest := ProcessedFrom(items[1..], idx + 1, process);
      assert DictPrefix(items) == 1 + DictPrefix(items[1..]);
      [Object(process(items[0].fields, idx))] + rest
  }

  /** A list whose first k slots hold the processed garments and whose other
      slots are untouched is the processed list, when the first k garments
      and no more are dictionaries. */
  lemma SlotsProcessed(items: seq<Value>, slots: seq<Value>, k: nat, process: (Dict, nat) -> Dict)
    requires k <= |items| == |slots|
    requires forall j :: 0 <= j < k ==> items[j].Object? && slots[j] == Object(process(items[j].fields, j + 1))
    requires k < |items| ==> !items[k].Object?
    requires forall j :: k <= j < |items| ==> slots[j] == items[j]
    ensures slots == ProcessedFrom(items, 1, process)
  {
    assert DictPrefix(items) == k;
  }

  /** One turn of process_entry's loop keeps its invariant. */
  lemma SlotStep(items: seq<Value>, slots: seq<Value>, idx: nat, updated: Dict, process: (Dict, nat) -> Dict)
    requires 1 <= idx <= |items| == |slots|
    requires forall j :: 0 <= j < idx - 1 ==> items[j].Object? && slots[j] == Object(process(items[j].fields, j + 1))
    requires forall j :: idx - 1 <= j < |items| ==> slots[j] == items[j]
    requires items[idx - 1].Object? && updated == process(items[idx - 1].fields, idx)
    ensures var next := slots[idx - 1 := Object(updated)];
      && (forall j :: 0 <= j < idx ==> items[j].Object? && next[j] == Object(process(items[j].fields, j + 1)))
      && (forall j :: idx <= j < |items| ==> next[j] == items[j])
  {
  }

  /** The entry process_entry returns. Anything but a dictionary comes back as
      it is (`entry.get` raises and the except clause returns it), and so does
      a dictionary whose flag or garment list is falsy or missing, or whose
      garment list is not a list (enumerating it fails at once). */
  function EntryResult(entry: Value, n: nat, ctx: Context, world: World): Value
  {
    match entry
    case Object(d) =>
      var garments := Get(d, GARMENTS_KEY, Array([]));
      if !Truthy(Get(d, FLAG_KEY, Bool(false))) || !Truthy(garments) || !garments.Array? then entry
      else Object(d[GARMENTS_KEY := Array(ProcessedFrom(garments.items, 1, Step(n, ctx, world)))])
    case _ => entry
  }

  /** process_entry itself. Garments run one after another; each processed
      dictionary is written back into its slot of the entry's own list, so
      when a later garment raises, the entry returned already carries the
      garments processed before it. */
  method ProcessEntry(entry: Value, n: nat, ctx: Context, world: World) returns (result: Value)
    ensures result == EntryResult(entry, n, ctx, world)
  {
    if !entry.Object? {
      return entry;
    }
    var d := entry.fields;
    if !Truthy(Get(d, FLAG_KEY, Bool(false))) {
      return entry;
    }
    var garments := Get(d, GARMENTS_KEY, Array([]));
    if !Truthy(garments) || !garments.Array? {
      return entry;
    }
    var items := garments.items;
    var process := Step(n, ctx, world);
    var slots := items;
    for idx := 1 to |items| + 1
      invariant |slots| == |items|
      invariant forall j :: 0 <= j < idx - 1 ==> items[j].Object? && slots[j] == Object(process(items[j].fields, j + 1))
      invariant forall j :: idx - 1 <= j < |items| ==> slots[j] == items[j]
    {
      var garment := slots[idx - 1];
      if !garment.Object? {
        SlotsProcessed(items, slots, idx - 1, process);
        return Object(d[GARMENTS_KEY := Array(slots)]);
      }
      var updated, _ := ProcessGarment(garment.fields, GarmentIndex(n, idx), ctx, world(n, idx));
      assert updated == process(garment.fields, idx);
      SlotStep(items, slots, idx, updated, process);
      slots := slots[idx - 1 := Object(updated)];
    }
    SlotsProcessed(items, slots, |items|, process);
    result := Object(d[GARMENTS_KEY := Array(slots)]);
  }

  /** The entry comes back unchanged when it is not a dictionary, when its flag
      is false or missing, or when its garment list is empty, missing or not a
      list. */
  lemma UngatedEntryUnchanged(entry: Value, n: nat, ctx: Context, world: World)
    requires
      || !entry.Object?
      || !Truthy(Get(entry.fields, FLAG_KEY, Bool(false)))
      || !Truthy(Get(entry.fields, GARMENTS_KEY, Array([])))
      || !Get(entry.fields, GARMENTS_KEY, Array([])).Array?
    ensures EntryResult(entry, n, ctx, world) == entry
  {
  }

  /** Every key of the entry other than `garment_data` keeps its value, no key
      is added or removed, and the garment list keeps its length. */
  lemma EntryKeysPreserved(entry: Value, n: nat, ctx: Context, world: World)
    requires entry.Object?
    ensures var r := EntryResult(entry, n, ctx, world);
      && r.Object?
      && r.fields.Keys == entry.fields.Keys
      && (forall k :: k in entry.fields && k != GARMENTS_KEY ==> r.fields[k] == entry.fields[k])
      && (GARMENTS_KEY in entry.fields && entry.fields[GARMENTS_KEY].Array? ==>
            r.fields[GARMENTS_KEY].Array? && |r.fields[GARMENTS_KEY].items| == |entry.fields[GARMENTS_KEY].items|)
  {
  }

  /** Slot j of a processed garment list. Before the first garment that is
      not a dictionary, it is that garment with only its three result keys
      written by process_garment under index "n_(j+1)", its block fully
      populated or fully empty; from there on it is the original garment.
      When every garment is a dictionary, every slot is processed. */
  lemma GarmentSlots(items: seq<Value>, n: nat, ctx: Context, world: World, j: nat)
    requires j < |items|
    ensures (forall i :: 0 <= i < |items| ==> items[i].Object?) ==> j < DictPrefix(items)
    ensures var r := ProcessedFrom(items, 1, Step(n, ctx, world));
      if j < DictPrefix(items) then
        && items[j].Object? && r[j].Object?
        && r[j].fields == ProcessedGarment(items[j].fields, n, j + 1, ctx, world)
        && Shaped(r[j].fields)
        && r[j].fields.Keys == items[j].fields.Keys + RESULT_KEYS
        && (forall k :: k in items[j].fields && k !in RESULT_KEYS ==> r[j].fields[k] == items[j].fields[k])
      else
        r[j] == items[j]
  {
    var k := DictPrefix(items);
    if forall i :: 0 <= i < |items| ==> items[i].Object? {
      assert k == |items|;
    }
    if j < k {
      var g := items[j].fields;
      var p := ProcessedGarment(g, n, j + 1, ctx, world);
      var r := ProcessedFrom(items, 1, Step(n, ctx, world));
      StepApplies(g, n, j + 1, ctx, world);
      assert r[j] == Object(p);
      ProcessedGarmentWrites(g, n, j + 1, ctx, world);
      assert r[j].fields == p;
    }
  }

  /** As main runs it, with the parent's None handles: every garment slot of
      the entry returned is either the input's own garment or carries
      `shirt_detected` False. */
  lemma ParentHandlesMarkNothingDetected(entry: Value, n: nat, maskDir: string, segmentDir: string, cwd: string, world: World)
    requires entry.Object? && GARMENTS_KEY in entry.fields && entry.fields[GARMENTS_KEY].Array?
    ensures var r := EntryResult(entry, n, Context(PARENT_HANDLES, maskDir, segmentDir, cwd), world);
      && r.Object? && GARMENTS_KEY in r.fields && r.fields[GARMENTS_KEY].Array?
      && |r.fields[GARMENTS_KEY].items| == |entry.fields[GARMENTS_KEY].items|
      && forall j :: 0 <= j < |entry.fields[GARMENTS_KEY].items| ==>
           || r.fields[GARMENTS_KEY].items[j] == entry.fields[GARMENTS_KEY].items[j]
           || (&& r.fields[GARMENTS_KEY].items[j].Object?
               && DETECTED_KEY in r.fields[GARMENTS_KEY].items[j].fields
               && r.fields[GARMENTS_KEY].items[j].fields[DETECTED_KEY] == Bool(false))
  {
    var ctx := Context(PARENT_HANDLES, maskDir, segmentDir, cwd);
    var r := EntryResult(entry, n, ctx, world);
    EntryKeysPreserved(entry, n, ctx, world);
    if r != entry {
      ParentHandlesEmptyEverySlot(entry.fields[GARMENTS_KEY].items, n, maskDir, segmentDir, cwd, world);
    }
  }

  /** With the parent's None handles, every garment the loop processes gets
      the empty block. */
  lemma ParentHandlesEmptyEverySlot(items: seq<Value>, n: nat, maskDir: string, segmentDir: string, cwd: string, world: World)
    ensures var r := ProcessedFrom(items, 1, Step(n, Context(PARENT_HANDLES, maskDir, segmentDir, cwd), world));
      forall j :: 0 <= j < |items| ==> r[j] == items[j] || r[j] == Object(items[j].fields + BlockFields(Empty))
  {
    var ctx := Context(PARENT_HANDLES, maskDir, segmentDir, cwd);
    var r := ProcessedFrom(items, 1, Step(n, ctx, world));
    forall j | 0 <= j < |items| && j < DictPrefix(items)
      ensures r[j] == Object(items[j].fields + BlockFields(Empty))
    {
      ParentHandlesNeverDetect(items[j].fields, GarmentIndex(n, j + 1), maskDir, segmentDir, cwd, world(n, j + 1));
    }
  }

  /** No garment of the entry's garment list is marked `shirt_detected` True. */
  predicate NoneDetected(entry: Value)
  {
    entry.Object? && GARMENTS_KEY in entry.fields && entry.fields[GARMENTS_KEY].Array? ==>
      forall g :: g in entry.fields[GARMENTS_KEY].items && g.Object? && DETECTED_KEY in g.fields ==>
        g.fields[DETECTED_KEY] != Bool(true)
  }

  /** With the parent's None handles, process_entry never marks a garment
      detected: an entry none of whose garments was detected comes back so. */
  lemma ParentHandlesKeepNoneDetected(entry: Value, n: nat, maskDir: string, segmentDir: string, cwd: string, world: World)
    requires NoneDetected(entry)
    ensures NoneDetected(EntryResult(entry, n, Context(PARENT_HANDLES, maskDir, segmentDir, cwd), world))
  {
    var r := EntryResult(entry, n, Context(PARENT_HANDLES, maskDir, segmentDir, cwd), world);
    if r != entry {
      ParentHandlesMarkNothingDetected(entry, n, maskDir, segmentDir, cwd, world);
      var before, after := entry.fields[GARMENTS_KEY].items, r.fields[GARMENTS_KEY].items;
      forall g | g in after && g.Object? && DETECTED_KEY in g.fields
        ensures g.fields[DETECTED_KEY] != Bool(true)
      {
        var j :| 0 <= j < |after| && after[j] == g;
        assert after[j] == before[j] || g.fields[DETECTED_KEY] == Bool(false);
        if after[j] == before[j] {
          assert before[j] in before;
        }
      }
    }
  }
}

/** plugins/workflow.cpp: counting items against the constraints, with the material cache that persists
    from one count to the next, and the requests that follow from the counts. */
module WorkflowItems {
  import opened JobControl
  import opened WorkflowConstraints

  /** The two item types whose small leftovers are not counted as available. */
  datatype Kinds = Kinds(thread: int, cloth: int)

  datatype Item = Item(
    itemType: int, itemSubtype: int, mat: Material, dimension: int, stack: int,
    badFlags: bool,      // any of dump, forbid, rotten, trader, in_building, ...
    owned: bool, inChest: bool, stockpiled: bool, inRealJob: bool, busy: bool, melt: bool)

  predicate TooSmall(k: Kinds, it: Item) {
    if it.itemType == k.thread then it.dimension < 15000
    else it.itemType == k.cloth && it.dimension < 10000
  }

  predicate InUse(k: Kinds, it: Item) {
    TooSmall(k, it) || it.owned || it.inChest || it.stockpiled || it.inRealJob || it.busy
  }

  /** The match the cache remembers. */
  predicate DirectMatch(m: Matching, ct: ItemConstraint, mat: Material) {
    m.matches(mat, ct.material) && (ct.mask == 0 || m.matchesMask(mat, ct.mask))
  }

  predicate RightType(ct: ItemConstraint, it: Item) {
    ct.itemType == it.itemType && (ct.itemSubtype == -1 || ct.itemSubtype == it.itemSubtype)
  }

  predicate Wanted(m: Matching, ct: ItemConstraint, it: Item) {
    !it.badFlags && RightType(ct, it) && DirectMatch(m, ct, it.mat)
  }

  // ---- the uncached count ----

  datatype Tally = Tally(amount: int, count: int, inuse: int)

  function TallyOne(m: Matching, k: Kinds, ct: ItemConstraint, it: Item, t: Tally): Tally {
    if !Wanted(m, ct, it) then t
    else if InUse(k, it) then t.(inuse := t.inuse + 1)
    else t.(count := t.count + 1, amount := t.amount + it.stack)
  }

  function TallyAll(m: Matching, k: Kinds, ct: ItemConstraint, items: seq<Item>): Tally {
    if items == [] then Tally(0, 0, 0)
    else TallyOne(m, k, ct, items[|items| - 1], TallyAll(m, k, ct, items[..|items| - 1]))
  }

  ghost function Those(items: seq<Item>, p: Item -> bool): seq<Item> {
    if items == [] then []
    else Those(items[..|items| - 1], p) + if p(items[|items| - 1]) then [items[|items| - 1]] else []
  }

  ghost function Stacks(items: seq<Item>): int {
    if items == [] then 0 else Stacks(items[..|items| - 1]) + items[|items| - 1].stack
  }

  /** The places of the items p holds of. */
  ghost function Where(items: seq<Item>, p: Item -> bool): set<int> {
    set i | 0 <= i < |items| && p(items[i])
  }

  lemma WhereOneMore(items: seq<Item>, p: Item -> bool)
    requires items != []
    ensures var n := |items| - 1;
      |Where(items, p)| == |Where(items[..n], p)| + if p(items[n]) then 1 else 0
  {
    var n := |items| - 1;
    assert Where(items, p) == Where(items[..n], p) + if p(items[n]) then {n} else {};
  }

  /** Those lists each item p holds of once. */
  lemma {:induction false} ThoseAreWhere(items: seq<Item>, p: Item -> bool)
    ensures |Those(items, p)| == |Where(items, p)|
  {
    if items == [] {
      assert Where(items, p) == {};
    } else {
      ThoseAreWhere(items[..|items| - 1], p);
      WhereOneMore(items, p);
    }
  }

  lemma StacksOneMore(items: seq<Item>, it: Item)
    ensures Stacks(items + [it]) == Stacks(items) + it.stack
  {
    assert (items + [it])[..|items|] == items;
  }

  /** Every wanted item is counted exactly once, as available or as in use, and the amount is the sum of the
      stacks of the available ones. */
  lemma {:induction false} TallyIsExact(m: Matching, k: Kinds, ct: ItemConstraint, items: seq<Item>)
    ensures var t := TallyAll(m, k, ct, items);
      && t.count + t.inuse == |Where(items, it => Wanted(m, ct, it))|
      && t.count == |Where(items, it => Wanted(m, ct, it) && !InUse(k, it))|
      && t.amount == Stacks(Those(items, it => Wanted(m, ct, it) && !InUse(k, it)))
  {
    var wanted := it => Wanted(m, ct, it);
    var free := it => Wanted(m, ct, it) && !InUse(k, it);
    if items == [] {
      assert Where(items, wanted) == {} && Where(items, free) == {};
    } else {
      var n := |items| - 1;
      TallyIsExact(m, k, ct, items[..n]);
      WhereOneMore(items, wanted);
      WhereOneMore(items, free);
      var before := Those(items[..n], free);
      StacksOneMore(before, items[n]);
      assert Those(items, free) == if free(items[n]) then before + [items[n]] else before;
    }
  }

  function Meltable(items: seq<Item>): int {
    if items == [] then 0
    else
      var it := items[|items| - 1];
      Meltable(items[..|items| - 1]) + if !it.badFlags && it.melt && !it.owned && !it.busy then 1 else 0
  }

  /** One item counts once, or not at all: it must carry no bad flag, and match in type, subtype, material and mask.
      It is available unless it is a short thread or cloth, owned, in a chest, stockpiled, in a job, or busy. */
  lemma OneItem(m: Matching, k: Kinds, ct: ItemConstraint, it: Item)
    ensures var t := TallyAll(m, k, ct, [it]);
      && t.count + t.inuse ==
           (if !it.badFlags && it.itemType == ct.itemType && (ct.itemSubtype == -1 || it.itemSubtype == ct.itemSubtype)
               && m.matches(it.mat, ct.material) && (ct.mask == 0 || m.matchesMask(it.mat, ct.mask)) then 1 else 0)
      && (t.count == 0 || t.inuse == 0) && t.amount == (if t.count == 1 then it.stack else 0)
      && (t.count == 1 ==> !it.owned && !it.inChest && !it.stockpiled && !it.inRealJob && !it.busy)
      && (t.count == 1 && it.itemType == k.thread ==> it.dimension >= 15000)
      && (t.count == 1 && it.itemType == k.cloth && k.cloth != k.thread ==> it.dimension >= 10000)
      && (t.inuse == 1 && !it.owned && !it.inChest && !it.stockpiled && !it.inRealJob && !it.busy ==>
            if it.itemType == k.thread then it.dimension < 15000 else it.itemType == k.cloth && it.dimension < 10000)
  {
    assert [it][..0] == [];
  }

  /** The melt count is the number of items to melt that carry no bad flag and are neither owned nor busy. */
  lemma {:induction false} MeltableIs(items: seq<Item>)
    ensures Meltable(items) == |Where(items, (it: Item) => it.melt && !it.badFlags && !it.owned && !it.busy)|
  {
    var melts := (it: Item) => it.melt && !it.badFlags && !it.owned && !it.busy;
    if items == [] {
      assert Where(items, melts) == {};
    } else {
      MeltableIs(items[..|items| - 1]);
      WhereOneMore(items, melts);
    }
  }

  // ---- the cached count ----

  ghost predicate CacheSound(m: Matching, ct: ItemConstraint)
    reads ct`materialCache
  {
    forall mat | mat in ct.materialCache :: ct.materialCache[mat] == DirectMatch(m, ct, mat)
  }

  ghost function Counts(ct: ItemConstraint): Tally
    reads ct
  {
    Tally(ct.itemAmount, ct.itemCount, ct.itemInuse)
  }

  /** One item against one constraint: the cached answer, or a fresh one that is remembered. */
  method CountOne(m: Matching, k: Kinds, ct: ItemConstraint, it: Item)
    requires CacheSound(m, ct) && !it.badFlags
    modifies ct`itemAmount, ct`itemCount, ct`itemInuse, ct`materialCache
    ensures CacheSound(m, ct)
    ensures Counts(ct) == TallyOne(m, k, ct, it, old(Counts(ct)))
    ensures ct.materialCache ==
      if RightType(ct, it) then old(ct.materialCache)[it.mat := DirectMatch(m, ct, it.mat)] else old(ct.materialCache)
  {
    if ct.itemType != it.itemType || (ct.itemSubtype != -1 && ct.itemSubtype != it.itemSubtype) {
      return;
    }
    var ok: bool;
    if it.mat in ct.materialCache {
      ok := ct.materialCache[it.mat];
    } else {
      ok := m.matches(it.mat, ct.material) && (ct.mask == 0 || m.matchesMask(it.mat, ct.mask));
      ct.materialCache := ct.materialCache[it.mat := ok];
    }
    if !ok {
      return;
    }
    if InUse(k, it) {
      ct.itemInuse := ct.itemInuse + 1;
    } else {
      ct.itemCount := ct.itemCount + 1;
      ct.itemAmount := ct.itemAmount + it.stack;
    }
  }

  method CountItem(m: Matching, k: Kinds, cts: seq<ItemConstraint>, it: Item)
    requires NoDuplicates(cts) && !it.badFlags
    requires forall ct | ct in cts :: CacheSound(m, ct)
    modifies cts`itemAmount, cts`itemCount, cts`itemInuse, cts`materialCache
    ensures forall ct | ct in cts :: CacheSound(m, ct) && Counts(ct) == TallyOne(m, k, ct, it, old(Counts(ct)))
  {
    hide CacheSound, TallyOne;
    for i := 0 to |cts|
      invariant forall ct | ct in cts :: CacheSound(m, ct)
      invariant forall j | 0 <= j < i :: Counts(cts[j]) == TallyOne(m, k, cts[j], it, old(Counts(cts[j])))
      invariant forall j | i <= j < |cts| :: Counts(cts[j]) == old(Counts(cts[j]))
    {
      CountOne(m, k, cts[i], it);
    }
  }

  /** map_job_items, with drybuckets off: whatever the caches hold from before, the counts are the
      uncached ones and the requests follow from them. */
  method MapJobItems(m: Matching, k: Kinds, cts: seq<ItemConstraint>, items: seq<Item>) returns (meltable: int)
    requires NoDuplicates(cts)
    requires forall ct | ct in cts :: CacheSound(m, ct)
    modifies cts`itemAmount, cts`itemCount, cts`itemInuse, cts`materialCache, cts`requestResume, cts`requestSuspend
    ensures forall ct | ct in cts :: CacheSound(m, ct) && Counts(ct) == TallyAll(m, k, ct, items)
    ensures forall ct | ct in cts ::
      && (ct.requestResume <==> ct.Size() <= ct.goalCount - GoalGap(ct.goalCount, ct.gapSetting))
      && (ct.requestSuspend <==> ct.Size() >= ct.goalCount)
    ensures meltable == Meltable(items)
  {
    hide TallyAll, CacheSound;
    for i := 0 to |cts|
      invariant forall j | 0 <= j < i :: Counts(cts[j]) == Tally(0, 0, 0)
      invariant forall ct | ct in cts :: CacheSound(m, ct)
    {
      cts[i].itemAmount := 0;
      cts[i].itemCount := 0;
      cts[i].itemInuse := 0;
    }
    meltable := CountAll(m, k, cts, items);
    ComputeRequests(cts);
  }

  method ComputeRequests(cts: seq<ItemConstraint>)
    modifies cts`requestResume, cts`requestSuspend
    ensures forall ct | ct in cts ::
      && (ct.requestResume <==> ct.Size() <= ct.goalCount - GoalGap(ct.goalCount, ct.gapSetting))
      && (ct.requestSuspend <==> ct.Size() >= ct.goalCount)
  {
    for i := 0 to |cts|
      invariant forall j | 0 <= j < i ::
        && (cts[j].requestResume <==> cts[j].Size() <= cts[j].goalCount - GoalGap(cts[j].goalCount, cts[j].gapSetting))
        && (cts[j].requestSuspend <==> cts[j].Size() >= cts[j].goalCount)
    {
      cts[i].ComputeRequest();
    }
  }

  method CountAll(m: Matching, k: Kinds, cts: seq<ItemConstraint>, items: seq<Item>) returns (meltable: int)
    requires NoDuplicates(cts)
    requires forall ct | ct in cts :: CacheSound(m, ct) && Counts(ct) == Tally(0, 0, 0)
    modifies cts`itemAmount, cts`itemCount, cts`itemInuse, cts`materialCache
    ensures forall ct | ct in cts :: CacheSound(m, ct) && Counts(ct) == TallyAll(m, k, ct, items)
    ensures meltable == Meltable(items)
  {
    hide CacheSound;
    meltable := 0;
    for i := 0 to |items|
      invariant forall ct | ct in cts :: CacheSound(m, ct) && Counts(ct) == TallyAll(m, k, ct, items[..i])
      invariant meltable == Meltable(items[..i])
    {
      var it := items[i];
      assert items[..i + 1] == items[..i] + [it];
      assert items[..i + 1][..i] == items[..i];
      if it.badFlags {
        continue;
      }
      if it.melt && !it.owned && !it.busy {
        meltable := meltable + 1;
      }
      CountItem(m, k, cts, it);
    }
    assert items[..|items|] == items;
  }
}

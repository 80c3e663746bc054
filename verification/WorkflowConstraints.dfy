/** plugins/workflow.cpp: which jobs an item constraint governs, counting the items, and deciding which
    jobs run. What a material or an item type is stays abstract: Matching says what matches what. */
module WorkflowConstraints {
  import opened JobControl

  /** MaterialInfo::matches, against a material and against a category mask, and isValid. */
  datatype Matching = Matching(
    matches: (Material, Material) -> bool,
    matchesMask: (Material, bv32) -> bool,
    isValid: Material -> bool)

  /** One product of a job, as compute_job_outputs hands it to link_job_constraint. */
  datatype Output = Output(itemType: int, itemSubtype: int, mask: bv32, mat: Material)

  /** When an output counts toward a constraint. */
  predicate Covers(m: Matching, ct: ItemConstraint, o: Output) {
    && ct.itemType == o.itemType && (ct.itemSubtype == -1 || ct.itemSubtype == o.itemSubtype)
    && m.matches(o.mat, ct.material)
    && (ct.mask == 0 || if m.isValid(o.mat) then m.matchesMask(o.mat, ct.mask) else o.mask & ct.mask != 0)
  }

  /** Whether the constraint has no mask, one that the material is checked against, or one that the output's own mask
      must share a category with, because its material is not known. */
  lemma CoversWhen(m: Matching, ct: ItemConstraint, o: Output)
    ensures ct.itemType != o.itemType ==> !Covers(m, ct, o)
    ensures ct.itemSubtype != -1 && ct.itemSubtype != o.itemSubtype ==> !Covers(m, ct, o)
    ensures !m.matches(o.mat, ct.material) ==> !Covers(m, ct, o)
    ensures ct.itemType == o.itemType && (ct.itemSubtype == -1 || ct.itemSubtype == o.itemSubtype) && m.matches(o.mat, ct.material) ==>
      && (ct.mask == 0 ==> Covers(m, ct, o))
      && (ct.mask != 0 && m.isValid(o.mat) ==> (Covers(m, ct, o) <==> m.matchesMask(o.mat, ct.mask)))
      && (ct.mask != 0 && !m.isValid(o.mat) ==> (Covers(m, ct, o) <==> o.mask & ct.mask != 0))
  {
  }

  // ---- jobs and constraints ----

  /** The two lists agree about one job, and hold nothing twice. */
  ghost predicate Paired(pj: ProtectedJob, cts: seq<ItemConstraint>)
    reads pj`constraints, cts`jobs
  {
    && NoDuplicates(pj.constraints)
    && (forall ct | ct in pj.constraints :: ct in cts)
    && (forall ct | ct in cts :: NoDuplicates(ct.jobs) && (pj in ct.jobs <==> ct in pj.constraints))
  }

  method LinkPair(pj: ProtectedJob, ct: ItemConstraint, cts: seq<ItemConstraint>)
    requires Paired(pj, cts) && ct in cts && ct !in pj.constraints
    modifies pj`constraints, ct`jobs, ct`isActive
    ensures Paired(pj, cts)
    ensures pj.constraints == old(pj.constraints) + [ct] && ct.jobs == old(ct.jobs) + [pj]
    ensures ct.isActive == (old(ct.isActive) || pj.IsResumed())
  {
    ct.jobs := ct.jobs + [pj];
    pj.constraints := pj.constraints + [ct];
    if !ct.isActive && pj.IsResumed() {
      ct.isActive := true;
    }
  }

  /** link_job_constraint: the constraints the output counts toward are linked, once. */
  method LinkJobConstraint(m: Matching, pj: ProtectedJob, o: Output, cts: seq<ItemConstraint>)
    requires NoDuplicates(cts) && Paired(pj, cts)
    modifies pj`constraints, cts`jobs, cts`isActive
    ensures Paired(pj, cts)
    ensures forall ct | ct in cts :: ct in pj.constraints <==> ct in old(pj.constraints) || Covers(m, ct, o)
    ensures forall ct | ct in cts ::
      ct.jobs == old(ct.jobs) + if ct in pj.constraints && ct !in old(pj.constraints) then [pj] else []
    ensures forall ct | ct in cts ::
      ct.isActive == (old(ct.isActive) || (ct in pj.constraints && ct !in old(pj.constraints) && pj.IsResumed()))
  {
    hide Paired, Covers;
    for i := 0 to |cts|
      invariant Paired(pj, cts)
      invariant forall k | 0 <= k < i :: cts[k] in pj.constraints <==> cts[k] in old(pj.constraints) || Covers(m, cts[k], o)
      invariant forall k | i <= k < |cts| :: cts[k] in pj.constraints <==> cts[k] in old(pj.constraints)
      invariant forall ct | ct in cts ::
        ct.jobs == old(ct.jobs) + if ct in pj.constraints && ct !in old(pj.constraints) then [pj] else []
      invariant forall ct | ct in cts ::
        ct.isActive == (old(ct.isActive) || (ct in pj.constraints && ct !in old(pj.constraints) && pj.IsResumed()))
    {
      var ct := cts[i];
      if Covers(m, ct, o) && ct !in pj.constraints {
        LinkPair(pj, ct, cts);
      }
    }
  }

  function OutputsOf(outputs: map<int, seq<Output>>, pj: ProtectedJob): seq<Output> {
    if pj.id in outputs then outputs[pj.id] else []
  }

  ghost predicate Governs(m: Matching, ct: ItemConstraint, outs: seq<Output>) {
    exists o :: o in outs && Covers(m, ct, o)
  }

  /** What mapping one job does to the constraints' side. */
  twostate predicate Entered(pj: ProtectedJob, cts: seq<ItemConstraint>)
    reads pj, pj.actual, cts
  {
    && (forall ct | ct in cts :: ct.jobs == old(ct.jobs) + if ct in pj.constraints then [pj] else [])
    && (forall ct | ct in cts :: ct.isActive == (old(ct.isActive) || (ct in pj.constraints && pj.IsResumed())))
  }

  /** One round of map_job_constraints. */
  method MapJob(m: Matching, pj: ProtectedJob, outs: seq<Output>, cts: seq<ItemConstraint>)
    requires NoDuplicates(cts)
    requires forall ct | ct in cts :: NoDuplicates(ct.jobs) && pj !in ct.jobs
    modifies pj`constraints, cts`jobs, cts`isActive
    ensures Paired(pj, cts) && Entered(pj, cts)
    ensures forall ct | ct in cts :: ct in pj.constraints <==> pj.actual != null && Governs(m, ct, outs)
  {
    hide Covers;
    pj.constraints := [];
    if pj.actual == null {
      return;
    }
    for i := 0 to |outs|
      invariant Paired(pj, cts) && Entered(pj, cts)
      invariant forall ct | ct in cts :: ct in pj.constraints <==> Governs(m, ct, outs[..i])
    {
      GovernsOneMore(m, outs, i);
      LinkJobConstraint(m, pj, outs[i], cts);
    }
    assert outs[..|outs|] == outs;
  }

  lemma GovernsOneMore(m: Matching, outs: seq<Output>, i: nat)
    requires i < |outs|
    ensures forall ct :: Governs(m, ct, outs[..i + 1]) <==> Governs(m, ct, outs[..i]) || Covers(m, ct, outs[i])
  {
  }

  /** The relation after the first n jobs: the lists are converse, hold nothing twice, hold only live
      jobs, and hold exactly the pairs whose job has an output the constraint covers; a constraint is
      active iff one of its jobs runs. */
  ghost predicate Mapped(m: Matching, pjs: seq<ProtectedJob>, n: nat, cts: seq<ItemConstraint>, outputs: map<int, seq<Output>>)
    requires n <= |pjs|
    reads pjs, set pj | pj in pjs :: pj.actual, cts
  {
    && (forall k | 0 <= k < n :: Paired(pjs[k], cts))
    && (forall k, ct | 0 <= k < n && ct in cts ::
          ct in pjs[k].constraints <==> pjs[k].actual != null && Governs(m, ct, OutputsOf(outputs, pjs[k])))
    && (forall ct | ct in cts :: NoDuplicates(ct.jobs) && forall pj | pj in ct.jobs :: pj in pjs[..n])
    && (forall ct | ct in cts :: ct.isActive <==> exists pj :: pj in ct.jobs && pj.IsResumed())
  }

  method MapNext(m: Matching, pjs: seq<ProtectedJob>, i: nat, cts: seq<ItemConstraint>, outputs: map<int, seq<Output>>)
    requires NoDuplicates(pjs) && NoDuplicates(cts) && i < |pjs| && Mapped(m, pjs, i, cts, outputs)
    modifies {pjs[i]}`constraints, cts`jobs, cts`isActive
    ensures Mapped(m, pjs, i + 1, cts, outputs)
  {
    hide Governs, OutputsOf;
    MapJob(m, pjs[i], OutputsOf(outputs, pjs[i]), cts);
    assert pjs[..i + 1] == pjs[..i] + [pjs[i]];
    forall k | 0 <= k < i ensures Paired(pjs[k], cts) {
      assert Paired(pjs[i], cts);
    }
    forall ct | ct in cts ensures ct.isActive <==> exists pj :: pj in ct.jobs && pj.IsResumed() {
      if ct in pjs[i].constraints {
        assert pjs[i] in ct.jobs;
      }
    }
  }

  /** map_job_constraints. */
  method MapJobConstraints(m: Matching, pjs: seq<ProtectedJob>, cts: seq<ItemConstraint>, outputs: map<int, seq<Output>>)
    requires NoDuplicates(pjs) && NoDuplicates(cts)
    modifies pjs`constraints, cts`jobs, cts`isActive
    ensures Mapped(m, pjs, |pjs|, cts, outputs)
  {
    for i := 0 to |cts|
      invariant forall k | 0 <= k < i :: cts[k].jobs == [] && !cts[k].isActive
    {
      cts[i].jobs := [];
      cts[i].isActive := false;
    }
    for i := 0 to |pjs|
      invariant Mapped(m, pjs, i, cts, outputs)
    {
      MapNext(m, pjs, i, cts, outputs);
    }
  }
}

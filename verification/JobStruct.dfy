/** library/modules/Job.cpp: copying, deleting and comparing job structures. */
module JobStruct {

  /** What is allocated: deleting an object takes it out, and only what is allocated may be deleted. */
  class Memory {
    ghost var live: set<object>

    ghost method Delete(o: object)
      requires o in live
      modifies `live
      ensures live == old(live) - {o}
    {
      live := live - {o};
    }

    ghost method Allocate(o: object)
      modifies `live
      ensures live == old(live) + {o}
    {
      live := live + {o};
    }
  }

  /** A general reference; worker says that it names the unit doing the job. */
  class Reference {
    const worker: bool
    const target: int

    constructor (worker: bool, target: int)
      ensures this.worker == worker && this.target == target
    {
      this.worker, this.target := worker, target;
    }
  }

  /** The fields of an input item that operator== compares one by one. */
  datatype ItemSpec = ItemSpec(itemType: int, itemSubtype: int, matType: int, matIndex: int, flags1: bv32,
                               flags2: bv32, flags3: bv32, quantity: int, vectorId: int, metalOre: int,
                               reactionClass: string, materialReactionProduct: string, minDimension: int,
                               reagentIndex: int, reactionId: int, hasToolUse: int)

  class JobItem {
    const spec: ItemSpec
    const contains: seq<int>

    constructor (spec: ItemSpec, contains: seq<int>)
      ensures this.spec == spec && this.contains == contains
    {
      this.spec, this.contains := spec, contains;
    }
  }

  ghost function RefSet(refs: seq<Reference>): set<object> {
    set r: Reference | r in refs
  }

  ghost function ItemSet(jobItems: seq<JobItem>): set<object> {
    set item: JobItem | item in jobItems
  }

  /** The scalar fields of a job that operator== compares. */
  datatype JobSpec = JobSpec(jobType: int, unk2: int, matType: int, matIndex: int, itemSubtype: int,
                             itemCategory: bv32, histFigureId: int, materialCategory: bv32, reactionName: string)

  datatype Flags = Flags(repeat: bool, suspend: bool, others: bv32)

  class Job {
    var id: int
    var spec: JobSpec
    var flags: Flags
    var linked: bool            // list_link is not null
    var completionTimer: int
    var items: seq<int>
    var miscLinks: seq<int>
    var references: seq<Reference>
    var jobItems: seq<JobItem>

    /** The copy constructor of the structure: everything is copied, pointers included. */
    constructor Copy(job: Job)
      ensures id == job.id && spec == job.spec && flags == job.flags && linked == job.linked
      ensures completionTimer == job.completionTimer && items == job.items && miscLinks == job.miscLinks
      ensures references == job.references && jobItems == job.jobItems
    {
      id, spec, flags, linked := job.id, job.spec, job.flags, job.linked;
      completionTimer, items, miscLinks := job.completionTimer, job.items, job.miscLinks;
      references, jobItems := job.references, job.jobItems;
    }

    /** The job and what it owns. */
    ghost function Owned(): set<object>
      reads this
    {
      {this} + RefSet(references) + ItemSet(jobItems)
    }

    ghost predicate Free()
      reads this
    {
      !linked && items == [] && miscLinks == []
    }

    /** Nothing would be deleted twice. */
    ghost predicate Separate()
      reads this
    {
      && (forall i, j :: 0 <= i < j < |references| ==> references[i] != references[j])
      && (forall i, j :: 0 <= i < j < |jobItems| ==> jobItems[i] != jobItems[j])
    }
  }

  ghost predicate SameItem(a: JobItem, b: JobItem) {
    a.spec == b.spec && a.contains == b.contains
  }

  ghost predicate SameItems(a: seq<JobItem>, b: seq<JobItem>) {
    |a| == |b| && forall i :: 0 <= i < |a| ==> SameItem(a[i], b[i])
  }

  ghost predicate SameJob(a: Job, b: Job)
    reads a, b
  {
    a.spec == b.spec && SameItems(a.jobItems, b.jobItems)
  }

  method ItemsEqual(a: JobItem, b: JobItem) returns (same: bool)
    ensures same <==> a.spec == b.spec && a.contains == b.contains
  {
    if !(a.spec == b.spec && |a.contains| == |b.contains|) {
      return false;
    }
    var i := |a.contains| - 1;
    while i >= 0
      invariant -1 <= i < |a.contains|
      invariant forall j :: i < j < |a.contains| ==> a.contains[j] == b.contains[j]
    {
      if a.contains[i] != b.contains[i] {
        return false;
      }
      i := i - 1;
    }
    assert a.contains == b.contains;
    same := true;
  }

  method JobsEqual(a: Job, b: Job) returns (same: bool)
    ensures same <==> SameJob(a, b)
    ensures same <==>
      && a.spec == b.spec && |a.jobItems| == |b.jobItems|
      && forall i | 0 <= i < |a.jobItems| :: a.jobItems[i].spec == b.jobItems[i].spec && a.jobItems[i].contains == b.jobItems[i].contains
  {
    if !(a.spec == b.spec && |a.jobItems| == |b.jobItems|) {
      return false;
    }
    var i := |a.jobItems| - 1;
    while i >= 0
      invariant -1 <= i < |a.jobItems|
      invariant forall j :: i < j < |a.jobItems| ==> SameItem(a.jobItems[j], b.jobItems[j])
    {
      var same := ItemsEqual(a.jobItems[i], b.jobItems[i]);
      if !same {
        return false;
      }
      i := i - 1;
    }
    same := true;
  }

  /** The references a copy keeps: what each says, without those that name a worker. */
  function Kept(refs: seq<Reference>): seq<int> {
    if refs == [] then [] else (if refs[0].worker then [] else [refs[0].target]) + Kept(refs[1..])
  }

  function Targets(refs: seq<Reference>): seq<int> {
    if refs == [] then [] else [refs[0].target] + Targets(refs[1..])
  }

  lemma {:induction false} NoWorkersKeepsAll(refs: seq<Reference>)
    requires forall r | r in refs :: !r.worker
    ensures Kept(refs) == Targets(refs)
  {
    if refs != [] {
      NoWorkersKeepsAll(refs[1..]);
    }
  }

  /** Copies of the references that stay, made from the back. */
  method CloneReferences(mem: Memory, refs: seq<Reference>) returns (copies: seq<Reference>)
    modifies mem`live
    ensures forall r | r in copies :: fresh(r) && !r.worker
    ensures forall i, j :: 0 <= i < j < |copies| ==> copies[i] != copies[j]
    ensures Targets(copies) == Kept(refs)
    ensures mem.live == old(mem.live) + RefSet(copies)
  {
    copies := refs;
    var i := |refs| - 1;
    ghost var done: seq<Reference> := [];
    assert refs[|refs|..] == [];
    while i >= 0
      invariant -1 <= i < |refs| && copies == refs[..i + 1] + done
      invariant forall r | r in done :: fresh(r) && !r.worker
      invariant forall j, k :: 0 <= j < k < |done| ==> done[j] != done[k]
      invariant Targets(done) == Kept(refs[i + 1..])
      invariant mem.live == old(mem.live) + RefSet(done)
    {
      var ref := copies[i];
      assert refs[i..][1..] == refs[i + 1..] && refs[i..][0] == ref;
      assert refs[..i + 1] == refs[..i] + [ref];
      if ref.worker {
        copies := copies[..i] + copies[i + 1..];
      } else {
        var copy := new Reference(ref.worker, ref.target);
        mem.Allocate(copy);
        copies := copies[i := copy];
        assert ([copy] + done)[1..] == done;
        done := [copy] + done;
      }
      i := i - 1;
    }
    assert refs[0..] == refs && refs[..0] == [];
    assert copies == done;
  }

  method CloneItems(mem: Memory, jobItems: seq<JobItem>) returns (copies: seq<JobItem>)
    modifies mem`live
    ensures forall item | item in copies :: fresh(item)
    ensures forall i, j :: 0 <= i < j < |copies| ==> copies[i] != copies[j]
    ensures SameItems(copies, jobItems)
    ensures mem.live == old(mem.live) + ItemSet(copies)
  {
    copies := jobItems;
    var i := |jobItems| - 1;
    assert copies[|jobItems|..] == [];
    while i >= 0
      invariant -1 <= i < |jobItems| == |copies| && copies[..i + 1] == jobItems[..i + 1]
      invariant forall j :: i < j < |copies| ==> fresh(copies[j])
      invariant forall j, k :: i < j < k < |copies| ==> copies[j] != copies[k]
      invariant forall j :: i < j < |copies| ==> SameItem(copies[j], jobItems[j])
      invariant mem.live == old(mem.live) + ItemSet(copies[i + 1..])
    {
      assert jobItems[i] == jobItems[..i + 1][i] == copies[..i + 1][i];
      ghost var done := copies[i + 1..];
      var copy := new JobItem(copies[i].spec, copies[i].contains);
      mem.Allocate(copy);
      copies := copies[i := copy];
      assert copies[i..] == [copy] + done;
      i := i - 1;
    }
    assert copies[0..] == copies;
  }

  /** A copy compares equal, shares nothing with the original, keeps of the flags only repeat and suspend, and
      can be deleted. */
  method CloneJobStruct(mem: Memory, job: Job) returns (copy: Job)
    modifies mem`live
    ensures fresh(copy.Owned()) && mem.live == old(mem.live) + copy.Owned()
    ensures copy.Free() && copy.Separate()
    ensures !copy.linked && copy.items == [] && copy.miscLinks == []
    ensures SameJob(copy, job) && copy.id == job.id && copy.completionTimer == -1
    ensures copy.flags == Flags(job.flags.repeat, job.flags.suspend, 0)
    ensures Targets(copy.references) == Kept(job.references) && forall r | r in copy.references :: !r.worker
  {
    hide Kept, Targets, SameItem;
    copy := new Job.Copy(job);
    mem.Allocate(copy);
    copy.flags := Flags(job.flags.repeat, job.flags.suspend, 0);
    copy.linked, copy.completionTimer, copy.items, copy.miscLinks := false, -1, [], [];
    var refs := CloneReferences(mem, copy.references);
    copy.references := refs;
    var jobItems := CloneItems(mem, copy.jobItems);
    copy.jobItems := jobItems;
  }

  /** Each object of the job is deleted exactly once and nothing else is. */
  method DeleteJobStruct(mem: Memory, job: Job?)
    requires job != null ==> job.Free() && job.Separate() && job.Owned() <= mem.live
    modifies mem`live
    ensures mem.live == old(mem.live) - if job == null then {} else job.Owned()
  {
    if job == null {
      return;
    }
    DeleteReferences(mem, job.references);
    DeleteItems(mem, job.jobItems);
    mem.Delete(job);
  }

  method DeleteReferences(mem: Memory, refs: seq<Reference>)
    requires forall i, j :: 0 <= i < j < |refs| ==> refs[i] != refs[j]
    requires RefSet(refs) <= mem.live
    modifies mem`live
    ensures mem.live == old(mem.live) - RefSet(refs)
  {
    var i := |refs| - 1;
    while i >= 0
      invariant -1 <= i < |refs|
      invariant mem.live == old(mem.live) - RefSet(refs[i + 1..])
    {
      assert refs[i] in RefSet(refs) && refs[i] !in RefSet(refs[i + 1..]);
      mem.Delete(refs[i]);
      assert refs[i..] == [refs[i]] + refs[i + 1..];
      assert RefSet(refs[i..]) == {refs[i]} + RefSet(refs[i + 1..]);
      i := i - 1;
    }
    assert refs[0..] == refs;
  }

  method DeleteItems(mem: Memory, jobItems: seq<JobItem>)
    requires forall i, j :: 0 <= i < j < |jobItems| ==> jobItems[i] != jobItems[j]
    requires ItemSet(jobItems) <= mem.live
    modifies mem`live
    ensures mem.live == old(mem.live) - ItemSet(jobItems)
  {
    var i := |jobItems| - 1;
    while i >= 0
      invariant -1 <= i < |jobItems|
      invariant mem.live == old(mem.live) - ItemSet(jobItems[i + 1..])
    {
      assert jobItems[i] in ItemSet(jobItems) && jobItems[i] !in ItemSet(jobItems[i + 1..]);
      mem.Delete(jobItems[i]);
      assert jobItems[i..] == [jobItems[i]] + jobItems[i + 1..];
      assert ItemSet(jobItems[i..]) == {jobItems[i]} + ItemSet(jobItems[i + 1..]);
      i := i - 1;
    }
    assert jobItems[0..] == jobItems;
  }

  /** plugins/workflow.cpp: the copy a protected job holds follows the job in the game. */
  class JobCopy {
    var jobCopy: Job
    var reactionId: int

    ghost predicate Valid(mem: Memory)
      reads this, jobCopy, mem
    {
      jobCopy.Free() && jobCopy.Separate() && jobCopy.Owned() <= mem.live
    }

    constructor (mem: Memory, job: Job)
      modifies mem`live
      ensures Valid(mem) && SameJob(job, jobCopy) && fresh(jobCopy.Owned()) && reactionId == -1
      ensures mem.live == old(mem.live) + jobCopy.Owned()
    {
      var copy := CloneJobStruct(mem, job);
      jobCopy := copy;
      reactionId := -1;
    }

    /** Afterwards the copy equals the job; the old copy is gone if it did not, and nothing leaks. */
    method Update(mem: Memory, job: Job)
      requires Valid(mem)
      modifies this, mem`live
      ensures Valid(mem) && SameJob(job, jobCopy)
      ensures old(SameJob(job, jobCopy)) ==> jobCopy == old(jobCopy) && reactionId == old(reactionId) && mem.live == old(mem.live)
      ensures (!old(SameJob(job, jobCopy)) ==>
        fresh(jobCopy) && reactionId == -1 && mem.live == old(mem.live) - old(jobCopy.Owned()) + jobCopy.Owned())
    {
      var same := JobsEqual(job, jobCopy);
      if same {
        return;
      }
      reactionId := -1;
      DeleteJobStruct(mem, jobCopy);
      var copy := CloneJobStruct(mem, job);
      jobCopy := copy;
    }
  }
}

/** library/modules/Job.cpp (linkJobIntoWorld) and the list helpers of library/include/MiscUtils.h:
    the world's job list, a doubly linked list behind an embedded head link, kept sorted by job id. */
module JobList {

  class Job {
    var id: int
    var listLink: JobLink?
  }

  class JobLink {
    var prev: JobLink?
    var next: JobLink?
    const item: Job?

    constructor (item: Job?)
      ensures prev == null && next == null && this.item == item
    {
      prev, next, this.item := null, null, item;
    }
  }

  ghost function After(nodes: seq<JobLink>, i: int): JobLink? {
    if 0 <= i && i + 1 < |nodes| then nodes[i + 1] else null
  }

  ghost function Before(nodes: seq<JobLink>, i: int): JobLink? {
    if 0 < i < |nodes| then nodes[i - 1] else null
  }

  /** nodes, head first, are one acyclic list whose prev and next links agree. */
  ghost predicate Chain(nodes: seq<JobLink>)
    reads nodes
  {
    && nodes != []
    && (forall i, j | 0 <= i < j < |nodes| :: nodes[i] != nodes[j])
    && (forall i | 0 <= i < |nodes| :: nodes[i].next == After(nodes, i))
    && (forall i | 0 < i < |nodes| :: nodes[i].prev == Before(nodes, i))
  }

  /** r is nodes with link after its k-th. */
  ghost predicate WithLink(nodes: seq<JobLink>, link: JobLink, k: nat, r: seq<JobLink>) {
    && |r| == |nodes| + 1 && k < |nodes| && r[k + 1] == link
    && (forall i | 0 <= i <= k :: r[i] == nodes[i])
    && (forall i | k < i < |nodes| :: r[i + 1] == nodes[i])
  }

  /** The list with one more link after its k-th, once the writes around it are done. */
  lemma ChainInserted(nodes: seq<JobLink>, link: JobLink, k: nat, r: seq<JobLink>)
    requires WithLink(nodes, link, k, r) && link !in nodes
    requires forall i, j | 0 <= i < j < |nodes| :: nodes[i] != nodes[j]
    requires forall i | 0 <= i < |nodes| :: nodes[i].next == if i == k then link else After(nodes, i)
    requires forall i | 0 < i < |nodes| :: nodes[i].prev == if i == k + 1 then link else Before(nodes, i)
    requires link.next == After(nodes, k) && link.prev == nodes[k]
    ensures Chain(r)
  {
    forall i | 0 <= i < |r| ensures r[i].next == After(r, i) && (i > 0 ==> r[i].prev == Before(r, i)) {
      if i > k + 1 {
        assert r[i - 1 + 1] == nodes[i - 1];
      }
    }
    forall i, j | 0 <= i < j < |r| ensures r[i] != r[j] {
      if j > k + 1 {
        assert r[j - 1 + 1] == nodes[j - 1];
      }
      if i > k + 1 {
        assert r[i - 1 + 1] == nodes[i - 1];
      }
    }
  }

  lemma WithLinkEnds(nodes: seq<JobLink>, link: JobLink, k: nat, r: seq<JobLink>)
    requires WithLink(nodes, link, k, r)
    ensures |r| == |nodes| + 1 && r[0] == nodes[0] && r[k + 1] == link
  {
  }

  lemma WithLinkExists(nodes: seq<JobLink>, link: JobLink, k: nat) returns (r: seq<JobLink>)
    requires k < |nodes|
    ensures WithLink(nodes, link, k, r)
  {
    r := nodes[..k + 1] + [link] + nodes[k + 1..];
  }

  /** r is the list after the four writes. */
  method LinkedListInsertAfter(pos: JobLink, link: JobLink, ghost nodes: seq<JobLink>, ghost k: nat)
      returns (ghost r: seq<JobLink>)
    requires Chain(nodes) && k < |nodes| && nodes[k] == pos && link !in nodes
    modifies nodes, link
    ensures WithLink(nodes, link, k, r) && Chain(r)
  {
    hide WithLink;
    assert pos.next == After(nodes, k);
    link.next := pos.next;
    if pos.next != null {
      assert pos.next == nodes[k + 1];
      pos.next.prev := link;
    }
    link.prev := pos;
    pos.next := link;
    r := WithLinkExists(nodes, link, k);
    ChainInserted(nodes, link, k, r);
  }

  method LinkedListAppend(head: JobLink, tail: JobLink, ghost nodes: seq<JobLink>)
    requires Chain(nodes) && nodes[0] == head && tail !in nodes && tail.next == null
    modifies nodes, tail
    ensures Chain(nodes + [tail])
  {
    var last := head;
    ghost var k := 0;
    while last.next != null
      invariant 0 <= k < |nodes| && nodes[k] == last
      decreases |nodes| - k
    {
      assert last.next == After(nodes, k);
      last := last.next;
      k := k + 1;
    }
    last.next := tail;
    tail.prev := last;
    ghost var r := nodes + [tail];
    forall i | 0 <= i < |r| ensures r[i].next == After(r, i) && (i > 0 ==> r[i].prev == Before(r, i)) {
      assert i < |nodes| ==> r[i] == nodes[i];
    }
  }

  predicate StrictlyIncreasing(s: seq<int>) {
    forall i, j | 0 <= i < j < |s| :: s[i] < s[j]
  }

  /** The sorted sequence with one more id in its place. */
  function InsertSorted(s: seq<int>, x: int): (r: seq<int>)
    ensures |r| == |s| + 1
    ensures forall y :: y in r <==> y == x || y in s
  {
    if s == [] || x < s[0] then [x] + s else [s[0]] + InsertSorted(s[1..], x)
  }

  lemma {:induction false} InsertSortedAt(s: seq<int>, x: int, k: nat)
    requires k <= |s|
    requires forall i | 0 <= i < k :: s[i] < x
    requires k < |s| ==> x < s[k]
    ensures InsertSorted(s, x) == s[..k] + [x] + s[k..]
  {
    if k > 0 {
      InsertSortedAt(s[1..], x, k - 1);
      assert s == [s[0]] + s[1..];
      assert s[..k] == [s[0]] + s[1..][..k - 1];
    }
  }

  lemma {:induction false} InsertSortedIncreases(s: seq<int>, x: int)
    requires StrictlyIncreasing(s) && x !in s
    ensures StrictlyIncreasing(InsertSorted(s, x))
  {
    if s != [] && s[0] < x {
      InsertSortedIncreases(s[1..], x);
      PrependIncreases(s[0], InsertSorted(s[1..], x));
    } else if s != [] {
      PrependIncreases(x, s);
    }
  }

  lemma PrependIncreases(x: int, s: seq<int>)
    requires StrictlyIncreasing(s) && forall y | y in s :: x < y
    ensures StrictlyIncreasing([x] + s)
  {
    assert forall i | 0 <= i < |s| :: s[i] in s;
  }

  /** Each link behind the head carries a job that points back at it; ids are the jobs' ids. */
  ghost predicate Items(nodes: seq<JobLink>, ids: seq<int>)
    reads set i | 0 < i < |nodes| :: nodes[i].item
  {
    && |nodes| == |ids| + 1
    && forall i | 0 < i < |nodes| ::
         nodes[i].item != null && nodes[i].item.id == ids[i - 1] && nodes[i].item.listLink == nodes[i]
  }

  lemma PlaceDecides(ids: seq<int>, x: int, k: nat)
    requires StrictlyIncreasing(ids) && k <= |ids|
    requires forall i | 0 <= i < k :: ids[i] < x
    requires k < |ids| ==> x <= ids[k]
    ensures x in ids <==> k < |ids| && ids[k] == x
  {
  }

  lemma FreeJobNotCarried(nodes: seq<JobLink>, ids: seq<int>, job: Job)
    requires Items(nodes, ids) && job.listLink == null
    ensures forall i | 0 < i < |nodes| :: nodes[i].item != job && nodes[i].item != null
  {
  }

  lemma AppendIncreases(s: seq<int>, x: int)
    requires StrictlyIncreasing(s)
    requires forall y | y in s :: y < x
    ensures StrictlyIncreasing(s + [x])
  {
    assert forall i | 0 <= i < |s| :: s[i] in s;
  }

  lemma ItemsInsert(nodes: seq<JobLink>, ids: seq<int>, link: JobLink, k: nat, r: seq<JobLink>)
    requires Items(nodes, ids) && WithLink(nodes, link, k, r)
    requires link.item != null && link.item.listLink == link
    ensures Items(r, ids[..k] + [link.item.id] + ids[k..])
  {
    var d := ids[..k] + [link.item.id] + ids[k..];
    forall i | 0 < i < |r| ensures r[i].item != null && r[i].item.id == d[i - 1] && r[i].item.listLink == r[i] {
      if i > k + 1 {
        assert r[i - 1 + 1] == nodes[i - 1] && d[i - 1] == ids[i - 2];
      }
    }
  }

  lemma ItemsAppend(nodes: seq<JobLink>, ids: seq<int>, link: JobLink)
    requires Items(nodes, ids)
    requires link.item != null && link.item.listLink == link
    ensures Items(nodes + [link], ids + [link.item.id])
  {
  }

  /** Some link behind the head carries the job. */
  ghost predicate Carries(nodes: seq<JobLink>, job: Job) {
    exists i :: 0 < i < |nodes| && nodes[i].item == job
  }

  lemma CarriesAppended(nodes: seq<JobLink>, link: JobLink, job: Job)
    requires nodes != []
    ensures Carries(nodes + [link], job) <==> link.item == job || Carries(nodes, job)
  {
    var r := nodes + [link];
    assert r[|nodes|] == link && forall i | 0 <= i < |nodes| :: r[i] == nodes[i];
  }

  lemma CarriesInserted(nodes: seq<JobLink>, link: JobLink, k: nat, r: seq<JobLink>, job: Job)
    requires WithLink(nodes, link, k, r)
    ensures Carries(r, job) <==> link.item == job || Carries(nodes, job)
  {
    if Carries(nodes, job) {
      var i :| 0 < i < |nodes| && nodes[i].item == job;
      assert i <= k ==> r[i] == nodes[i];
      assert i > k ==> r[i + 1] == nodes[i];
    }
    if Carries(r, job) {
      var i :| 0 < i < |r| && r[i].item == job;
      assert i > k + 1 ==> r[i - 1 + 1] == nodes[i - 1];
    }
  }

  class World {
    const head: JobLink         // world->job_list; its item is never looked at
    var nextId: int             // *job_next_id
    ghost var nodes: seq<JobLink>
    ghost var ids: seq<int>

    ghost predicate Valid()
      reads this, nodes, set i | 0 < i < |nodes| :: nodes[i].item
    {
      && Chain(nodes) && nodes[0] == head
      && Items(nodes, ids)
      && StrictlyIncreasing(ids)
      && forall id | id in ids :: id < nextId
    }

    ghost predicate Holds(job: Job)
      reads `nodes
    {
      Carries(nodes, job)
    }

    constructor ()
      ensures Valid() && fresh(head) && ids == [] && nextId == 0
    {
      head := new JobLink(null);
      nextId := 0;
      nodes, ids := [head], [];
    }

    /** Both ways of linking, new id or old: the list stays sorted; an id already there is refused and
        nothing changes. */
    method LinkJobIntoWorld(job: Job, newId: bool) returns (linked: bool)
      requires Valid() && job.listLink == null
      requires !newId ==> job.id < nextId
      modifies this, nodes, job
      ensures Valid()
      ensures newId ==> linked && job.id == old(nextId) && nextId == old(nextId) + 1 && ids == old(ids) + [job.id]
      ensures !newId ==> job.id == old(job.id) && nextId == old(nextId) && (linked <==> job.id !in old(ids))
      ensures !newId && linked ==> ids == InsertSorted(old(ids), job.id)
      ensures linked ==> forall j: Job | old(allocated(j)) :: Holds(j) <==> j == job || old(Holds(j))
      ensures !linked ==> nodes == old(nodes) && ids == old(ids) && unchanged(job) && unchanged(nodes)
    {
      if newId {
        AppendNew(job);
        linked := true;
      } else {
        linked := InsertOld(job);
      }
    }

    method AppendNew(job: Job)
      requires Valid() && job.listLink == null
      modifies this, nodes, job
      ensures Valid()
      ensures job.id == old(nextId) && nextId == old(nextId) + 1 && ids == old(ids) + [job.id]
      ensures forall j: Job | old(allocated(j)) :: Holds(j) <==> j == job || old(Holds(j))
    {
      hide Chain, StrictlyIncreasing, Items, Carries;
      FreeJobNotCarried(nodes, ids, job);
      AppendIncreases(ids, nextId);
      job.id := nextId;
      nextId := nextId + 1;
      var link := new JobLink(job);
      job.listLink := link;
      LinkedListAppend(head, link, nodes);
      ItemsAppend(nodes, ids, link);
      ghost var before := nodes;
      nodes, ids := nodes + [link], ids + [job.id];
      forall j ensures Carries(nodes, j) <==> j == job || Carries(before, j) {
        CarriesAppended(before, link, j);
      }
    }

    /** The walk to the last link before the job's place, and whether the id found there is the job's. */
    method FindPlace(job: Job) returns (pos: JobLink, taken: bool, ghost k: nat)
      requires Valid()
      ensures k < |nodes| && k <= |ids| && pos == nodes[k]
      ensures forall i | 0 <= i < k :: ids[i] < job.id
      ensures taken <==> job.id in ids
      ensures !taken && k < |ids| ==> job.id < ids[k]
    {
      hide StrictlyIncreasing;
      pos := head;
      k := 0;
      while pos.next != null && pos.next.item.id < job.id
        invariant 0 <= k < |nodes| && nodes[k] == pos && pos.next == After(nodes, k)
        invariant pos.next != null ==> pos.next == nodes[k + 1]
        invariant forall i | 0 <= i < k :: ids[i] < job.id
        decreases |nodes| - k
      {
        pos := pos.next;
        k := k + 1;
        assert pos.next == After(nodes, k);
      }
      taken := pos.next != null && pos.next.item.id == job.id;
      PlaceDecides(ids, job.id, k);
    }

    method InsertOld(job: Job) returns (linked: bool)
      requires Valid() && job.listLink == null && job.id < nextId
      modifies this, nodes, job
      ensures Valid()
      ensures job.id == old(job.id) && nextId == old(nextId) && (linked <==> job.id !in old(ids))
      ensures linked ==> ids == InsertSorted(old(ids), job.id)
      ensures linked ==> forall j: Job | old(allocated(j)) :: Holds(j) <==> j == job || old(Holds(j))
      ensures !linked ==> nodes == old(nodes) && ids == old(ids) && unchanged(job) && unchanged(nodes)
    {
      hide Chain, StrictlyIncreasing, Items, InsertSorted, WithLink, Carries;
      FreeJobNotCarried(nodes, ids, job);
      var pos, taken, k := FindPlace(job);
      if taken {
        return false;
      }
      var link := new JobLink(job);
      job.listLink := link;
      InsertSortedAt(ids, job.id, k);
      InsertSortedIncreases(ids, job.id);
      ghost var r := LinkedListInsertAfter(pos, link, nodes, k);
      ItemsInsert(nodes, ids, link, k, r);
      assert r[0] == head && r[k + 1] == link by { WithLinkEnds(nodes, link, k, r); }
      ghost var before := nodes;
      nodes, ids := r, InsertSorted(ids, job.id);
      forall j ensures Carries(nodes, j) <==> j == job || Carries(before, j) {
        CarriesInserted(before, link, k, r, j);
      }
      linked := true;
    }
  }
}

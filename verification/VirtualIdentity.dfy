/** library/DataDefs.cpp and library/include/DataDefs.h: run-time class tests by vtable address, with the
    table of known vtables and the shortcuts around it, against the plain rule: look the class name up,
    then follow the parents. */
module VirtualIdentity {

  datatype Option<+T> = None | Some(value: T)

  type Vtable = int

  /** abort() on two vtables with the same class name ends the program. */
  datatype Outcome<+T> = Aborted | Returned(value: T)

  class Identity {
    const name: string             // getOriginalName()
    const parent: Identity?
    ghost const depth: nat         // classes form a forest
    var vtable: Option<Vtable>     // vtable_ptr
    var hasChildren: bool
    var children: seq<Identity>
  }

  ghost predicate Forest(list: seq<Identity>) {
    && (forall i, j | 0 <= i < j < |list| :: list[i] != list[j] && list[i].name != list[j].name)
    && (forall p | p in list && p.parent != null :: p.parent in list && p.parent.depth < p.depth)
  }

  /** The class with a given name, if there is one. */
  function ByName(list: seq<Identity>, name: string): (r: Identity?)
    ensures r != null ==> r in list && r.name == name
    ensures r == null ==> forall p | p in list :: p.name != name
  {
    if list == [] then null else if list[0].name == name then list[0] else ByName(list[1..], name)
  }

  /** Following the parents from x one comes to a. */
  ghost predicate Descends(list: seq<Identity>, x: Identity?, a: Identity)
    requires Forest(list) && (x != null ==> x in list)
    decreases if x == null then 0 else x.depth + 1
  {
    x != null && (x == a || Descends(list, x.parent, a))
  }

  /** A line of classes from x to a, each the child of the next. */
  ghost predicate Line(line: seq<Identity>, x: Identity, a: Identity) {
    && line != [] && line[0] == x && line[|line| - 1] == a
    && forall i | 0 <= i < |line| - 1 :: line[i].parent == line[i + 1]
  }

  lemma {:induction false} LineDescends(list: seq<Identity>, line: seq<Identity>, x: Identity, a: Identity)
    requires Forest(list) && x in list && Line(line, x, a)
    ensures Descends(list, x, a)
    decreases |line|
  {
    if |line| > 1 {
      assert line[0].parent == line[1];
      LineDescends(list, line[1..], line[1], a);
    }
  }

  /** A class descends from just those there is such a line to. */
  lemma {:induction false} DescendantHasLine(list: seq<Identity>, x: Identity, a: Identity) returns (line: seq<Identity>)
    requires Forest(list) && x in list && Descends(list, x, a)
    ensures Line(line, x, a)
    decreases x.depth
  {
    if x == a {
      line := [x];
    } else {
      var rest := DescendantHasLine(list, x.parent, a);
      line := [x] + rest;
    }
  }

  /** A class without children has no instances but its own. */
  lemma {:induction false} ChildlessHasNoDescendants(list: seq<Identity>, x: Identity?, a: Identity)
    requires Forest(list) && (x != null ==> x in list)
    requires forall q | q in list :: q.parent != a
    ensures Descends(list, x, a) <==> x == a
    decreases if x == null then 0 else x.depth + 1
  {
    if x != null && x != a {
      ChildlessHasNoDescendants(list, x.parent, a);
    }
  }

  class Registry {
    const list: seq<Identity>
    const className: Vtable -> string   // doReadClassName
    var known: map<Vtable, Identity?>

    /** The class an object with this vtable belongs to, by the plain rule. */
    function Plain(vtable: Vtable): Identity? {
      ByName(list, className(vtable))
    }

    ghost predicate Valid()
      reads `known, list`vtable, list`hasChildren
    {
      && Forest(list)
      && (forall v | v in known :: known[v] == Plain(v) && (known[v] != null ==> known[v].vtable == Some(v)))
      && (forall p | p in list && p.vtable.Some? :: p.vtable.value in known && known[p.vtable.value] == p)
      && (forall p, q | p in list && q in list && q.parent == p :: p.hasChildren)
    }

    /** Two different vtables claim p's name, and p has met the other one already. */
    ghost predicate Conflict(p: Identity, v: Vtable)
      reads p
    {
      p.vtable.Some? && p.vtable.value != v && className(v) == p.name
    }

    /** virtual_identity::Init: rebuild the children lists. */
    method Init()
      requires Forest(list) && known == map[] && forall p | p in list :: p.vtable == None
      modifies list`children, list`hasChildren
      ensures Valid()
      ensures forall p | p in list :: p.hasChildren <==> p.children != []
      ensures forall p, q | p in list :: q in p.children <==> q in list && q.parent == p
    {
      for i := 0 to |list|
        invariant forall j | 0 <= j < i :: !list[j].hasChildren && list[j].children == []
      {
        list[i].hasChildren := false;
        list[i].children := [];
      }
      for i := 0 to |list|
        invariant forall p, q | p in list :: q in p.children <==> q in list[..i] && q.parent == p
        invariant forall p | p in list :: p.hasChildren <==> p.children != []
      {
        assert list[..i + 1] == list[..i] + [list[i]];
        LinkChild(list[i]);
      }
      assert list[..|list|] == list;
    }

    method LinkChild(p: Identity)
      requires Forest(list) && p in list
      modifies list`children, list`hasChildren
      ensures forall a | a in list && a != p.parent :: a.children == old(a.children) && a.hasChildren == old(a.hasChildren)
      ensures p.parent != null ==> p.parent.children == old(p.parent.children) + [p] && p.parent.hasChildren
    {
      if p.parent != null {
        p.parent.children := p.parent.children + [p];
        p.parent.hasChildren := true;
      }
    }

    /** virtual_identity::get. */
    method Get(vtable: Vtable) returns (r: Outcome<Identity?>)
      requires Valid()
      modifies `known, list`vtable
      ensures Valid()
      ensures r.Returned? ==> r.value == Plain(vtable)
      ensures known == if r.Returned? then old(known)[vtable := Plain(vtable)] else old(known)
      ensures forall p | p in list :: p.vtable == if r.Returned? && p == Plain(vtable) then Some(vtable) else old(p.vtable)
      ensures r.Aborted? <==> Plain(vtable) != null && old(Conflict(Plain(vtable), vtable))
      ensures forall p | p in list && old(p.vtable).Some? :: p.vtable == old(p.vtable)
    {
      if vtable in known {
        return Returned(known[vtable]);
      }
      var name := className(vtable);
      for i := 0 to |list|
        invariant forall j | 0 <= j < i :: list[j].name != name
      {
        var p := list[i];
        if p.name != name {
          continue;
        }
        assert p == Plain(vtable);
        if p.vtable.Some? && p.vtable.value != vtable {
          return Aborted;
        }
        known := known[vtable := p];
        p.vtable := Some(vtable);
        return Returned(p);
      }
      known := known[vtable := null];
      r := Returned(null);
    }

    /** virtual_identity::is_subclass. */
    method IsSubclass(self: Identity, actual: Identity?) returns (r: bool)
      requires Forest(list) && (actual != null ==> actual in list)
      ensures r <==> Descends(list, actual, self)
    {
      var x := actual;
      while x != null
        invariant x != null ==> x in list
        invariant Descends(list, actual, self) <==> Descends(list, x, self)
        decreases if x == null then 0 else x.depth + 1
      {
        if x == self {
          return true;
        }
        x := x.parent;
      }
      r := false;
    }

    /** is_instance: the shortcuts give the plain answer, except that a childless class that has met one
        vtable of its name denies every other one. */
    method IsInstance(self: Identity, instance: Option<Vtable>) returns (r: Outcome<bool>)
      requires Valid() && self in list
      modifies `known, list`vtable
      ensures Valid()
      ensures OnlyLearns(old(known), known, instance)
      ensures r.Aborted? <==>
        && instance.Some? && Plain(instance.value) != null && old(Conflict(Plain(instance.value), instance.value))
        && (self.hasChildren || old(self.vtable) == None)
      ensures instance == None ==> r == Returned(false)
      ensures instance.Some? && r.Returned? ==>
        (r.value == Descends(list, Plain(instance.value), self)
         <==> !(old(Conflict(self, instance.value)) && !self.hasChildren))
      ensures forall p | p in list && old(p.vtable).Some? :: p.vtable == old(p.vtable)
    {
      if instance == None {
        return Returned(false);
      }
      var vtable := instance.value;
      if self.vtable.Some? {
        if vtable == self.vtable.value {
          return Returned(true);
        }
        if !self.hasChildren {
          ChildlessHasNoDescendants(list, Plain(vtable), self);
          return Returned(false);
        }
      }
      var actual := Get(vtable);
      if actual.Aborted? {
        return Aborted;
      }
      var sub := IsSubclass(self, actual.value);
      r := Returned(sub);
    }

    /** is_direct_instance: the same, without the children. */
    method IsDirectInstance(self: Identity, instance: Option<Vtable>) returns (r: Outcome<bool>)
      requires Valid() && self in list
      modifies `known, list`vtable
      ensures Valid()
      ensures OnlyLearns(old(known), known, instance)
      ensures r.Aborted? <==>
        && instance.Some? && Plain(instance.value) != null && old(Conflict(Plain(instance.value), instance.value))
        && old(self.vtable) == None
      ensures instance == None ==> r == Returned(false)
      ensures instance.Some? && r.Returned? ==>
        (r.value == (Plain(instance.value) == self) <==> !old(Conflict(self, instance.value)))
    {
      if instance == None {
        return Returned(false);
      }
      if self.vtable.Some? {
        return Returned(self.vtable.value == instance.value);
      }
      var actual := Get(instance.value);
      r := if actual.Aborted? then Aborted else Returned(actual.value == self);
    }

    /** The plain answer to a query. */
    ghost predicate Answer(q: Query)
      requires Forest(list)
    {
      && q.instance.Some?
      && if q.direct then Plain(q.instance.value) == q.self else Descends(list, Plain(q.instance.value), q.self)
    }

    /** The vtables met so far, and those the queries will ask about. */
    ghost function Met(qs: seq<Query>): set<Vtable>
      reads `known
    {
      known.Keys + set q | q in qs && q.instance.Some? :: q.instance.value
    }

    /** No listed class has two vtables among these. */
    ghost predicate OneVtablePerClass(met: set<Vtable>) {
      forall v, w | v in met && w in met && Plain(v) != null && className(v) == className(w) :: v == w
    }

    lemma NoConflict(met: set<Vtable>, p: Identity, v: Vtable)
      requires Valid() && known.Keys <= met && v in met && OneVtablePerClass(met) && p in list
      ensures !Conflict(p, v)
    {
      hide Forest;
      if p.vtable.Some? {
        assert Plain(p.vtable.value) == p;
      }
    }

    /** As long as no listed class meets two vtables nothing aborts, and however many queries have filled the
        table, each gets the plain answer. */
    method Queries(qs: seq<Query>) returns (answers: seq<bool>)
      requires Valid() && forall q | q in qs :: q.self in list
      requires OneVtablePerClass(Met(qs))
      modifies `known, list`vtable
      ensures Valid() && |answers| == |qs|
      ensures forall i | 0 <= i < |qs| :: answers[i] == Answer(qs[i])
    {
      hide Descends, Forest, Conflict, OneVtablePerClass;
      answers := [];
      ghost var met := Met(qs);
      for i := 0 to |qs|
        invariant Valid() && |answers| == i && known.Keys <= met
        invariant forall j | 0 <= j < i :: answers[j] == Answer(qs[j])
      {
        var q := qs[i];
        assert q in qs;
        if q.instance.Some? {
          NoConflict(met, q.self, q.instance.value);
          if Plain(q.instance.value) != null {
            NoConflict(met, Plain(q.instance.value), q.instance.value);
          }
        }
        var r: Outcome<bool>;
        if q.direct {
          r := IsDirectInstance(q.self, q.instance);
        } else {
          r := IsInstance(q.self, q.instance);
        }
        answers := answers + [r.value];
      }
    }
  }

  /** A query adds at most the vtable it asks about to the table. */
  predicate OnlyLearns(before: map<Vtable, Identity?>, after: map<Vtable, Identity?>, instance: Option<Vtable>) {
    after.Keys <= before.Keys + if instance.Some? then {instance.value} else {}
  }

  datatype Query = Query(self: Identity, instance: Option<Vtable>, direct: bool)
}

/**
 * ProbeSet: the full set of probes made by a probe generator. It numbers
 * the probes it receives in arrival order, reports the size it was told to
 * expect, keeps an optional active list, and a list of change listeners
 * without null and without repeats.
 */
module ProbeSets {
  import opened Results
  import opened Vectors

  /** A Probe, as far as the probe set touches it: the index it is given. */
  class Probe {
    var index: nat

    constructor()
      ensures index == 0
    {
      index := 0;
    }
  }

  /** A probe list that can be made the active one; ProbeList itself is not part of this model. */
  class ProbeList {
    constructor() {}
  }

  class ProbeSetChangeListener {
    constructor() {}
  }

  class DataCollection {
    constructor() {}
  }

  /** What getActiveList answers: the active list, or the probe set itself. */
  datatype ActiveList = Active(list: ProbeList) | WholeSet

  class ProbeSet {
    /** The name the ProbeList part is given. */
    const name: string
    /** The description held by the ProbeList part. */
    var listDescription: string
    /** The probes, with their values, handed on to the ProbeList part, in order. */
    var probes: seq<(Probe, Option<real>)>
    var activeList: ProbeList?
    var listeners: seq<ProbeSetChangeListener>
    var indexCount: nat
    var expectedTotalCount: int
    var collection: DataCollection?
    var currentQuantitation: Option<string>

    /** The listener list holds each listener once (null is excluded by its type). */
    ghost predicate Valid()
      reads this
    {
      Distinct(listeners)
    }

    /** new ProbeSet(description, probes): every probe numbered by its position. */
    constructor FromProbes(description: string, ps: seq<Probe>)
      modifies ps`index
      ensures Valid() && name == "All Probes" && listDescription == description
      ensures expectedTotalCount == |ps| && indexCount == |ps|
      ensures probes == Unvalued(ps)
      ensures Numbered(ps)
      ensures activeList == null && listeners == [] && collection == null && currentQuantitation == None
    {
      name := "All Probes";
      listDescription := description;
      probes := [];
      activeList := null;
      listeners := [];
      indexCount := 0;
      expectedTotalCount := 0;
      collection := null;
      currentQuantitation := None;
      new;
      SetProbes(ps);
    }

    /** new ProbeSet(description, expectedSize): empty for now, and reporting the size it will have. */
    constructor Expecting(description: string, expectedSize: int)
      ensures Valid() && name == "All Probes" && listDescription == description
      ensures expectedTotalCount == expectedSize && indexCount == 0 && probes == []
      ensures activeList == null && listeners == [] && collection == null && currentQuantitation == None
    {
      name := "All Probes";
      listDescription := description;
      probes := [];
      activeList := null;
      listeners := [];
      indexCount := 0;
      expectedTotalCount := expectedSize;
      collection := null;
      currentQuantitation := None;
    }

    /** addProbe: the probe is given the next index; the size reported stays the expected one. */
    method AddProbe(p: Probe, value: Option<real>)
      modifies this`indexCount, this`probes, p`index
      ensures p.index == old(indexCount) && indexCount == old(indexCount) + 1
      ensures probes == old(probes) + [(p, value)]
      ensures Size() == old(Size())
    {
      p.index := indexCount;
      indexCount := indexCount + 1;
      probes := probes + [(p, value)];
    }

    /**
     * setProbes: the counter is reset, so the probes are numbered 0..n-1 in
     * order (a probe given twice keeps its last position), and the size is n.
     */
    method SetProbes(ps: seq<Probe>)
      modifies this`indexCount, this`expectedTotalCount, this`probes, ps`index
      ensures indexCount == |ps| && expectedTotalCount == |ps| && Size() == |ps|
      ensures probes == old(probes) + Unvalued(ps)
      ensures Numbered(ps)
    {
      indexCount := 0;
      expectedTotalCount := |ps|;
      var i := 0;
      while i < |ps|
        invariant 0 <= i <= |ps| && indexCount == i && expectedTotalCount == |ps|
        invariant probes == old(probes) + Unvalued(ps[..i])
        invariant forall k :: 0 <= k < i ==> ps[k].index == LastAt(ps, ps[k], i)
      {
        assert ps[..i + 1][..i] == ps[..i];
        AddProbe(ps[i], None);
        i := i + 1;
      }
      assert ps[..i] == ps;
    }

    /** justDescription: the ProbeList description alone. */
    function JustDescription(): string
      reads this
    {
      listDescription
    }

    /** description: the plain description, extended exactly when a quantitation is set. */
    function Description(): (d: string)
      reads this
      ensures d == JustDescription() <==> currentQuantitation.None?
      ensures |JustDescription()| <= |d| && d[..|JustDescription()|] == JustDescription()
    {
      match currentQuantitation
      case None => listDescription
      case Some(q) => listDescription + ". Quantitated with " + q
    }

    method SetCurrentQuantitation(q: Option<string>)
      modifies this`currentQuantitation
      ensures currentQuantitation == q
    {
      currentQuantitation := q;
    }

    /** size: the expected total count, whatever number of probes has been added. */
    function Size(): int
      reads this
    {
      expectedTotalCount
    }

    /** setActiveList: null clears the active list. */
    method SetActiveList(list: ProbeList?)
      modifies this`activeList
      ensures activeList == list
      ensures GetActiveList() == if list == null then WholeSet else Active(list)
    {
      activeList := list;
    }

    /** getActiveList: the active list when one is set, the whole set otherwise. */
    function GetActiveList(): (a: ActiveList)
      reads this
      ensures a == WholeSet <==> activeList == null
      ensures a.Active? ==> a.list == activeList
    {
      if activeList != null then Active(activeList) else WholeSet
    }

    /** addProbeSetChangeListener: null and a listener already present are ignored. */
    method AddProbeSetChangeListener(l: ProbeSetChangeListener?)
      requires Valid()
      modifies this`listeners
      ensures Valid()
      ensures l == null || l in old(listeners) ==> listeners == old(listeners)
      ensures l != null && l !in old(listeners) ==> listeners == old(listeners) + [l]
    {
      if l != null && l !in listeners {
        listeners := listeners + [l];
      }
    }

    /** removeProbeSetChangeListener: the listener leaves the list and the others keep their order; null and absent ones are ignored. */
    method RemoveProbeSetChangeListener(l: ProbeSetChangeListener?)
      requires Valid()
      modifies this`listeners
      ensures Valid()
      ensures l == null ==> listeners == old(listeners)
      ensures l != null ==> listeners == Without(old(listeners), {l}) && l !in listeners
    {
      if l != null && l in listeners {
        RemoveFirstWithout(listeners, l);
        listeners := RemoveFirst(listeners, l);
      } else if l != null {
        NoneRemoved(listeners, {l});
      }
      if l != null {
        WithoutMembers(old(listeners), {l}, l);
        WithoutDistinct(old(listeners), {l});
      }
    }

    method SetCollection(c: DataCollection?)
      modifies this`collection
      ensures collection == c
    {
      collection := c;
    }

    /** delete: no listeners remain and the collection is dropped. */
    method Delete()
      modifies this`listeners, this`collection
      ensures listeners == [] && collection == null && Valid()
    {
      listeners := [];
      collection := null;
    }
  }

  /** Every probe carries as its index its (last) position in ps. */
  ghost predicate Numbered(ps: seq<Probe>)
    reads ps
  {
    forall k :: 0 <= k < |ps| ==> ps[k].index == LastAt(ps, ps[k], |ps|)
  }

  /** The last position before i at which x stands in ps, or -1. */
  function LastAt<T(==)>(ps: seq<T>, x: T, i: nat): (j: int)
    requires i <= |ps|
    ensures -1 <= j < i && (j >= 0 ==> ps[j] == x)
  {
    if i == 0 then -1 else if ps[i - 1] == x then i - 1 else LastAt(ps, x, i - 1)
  }

  /** In a list without repeats every element's last position is its only one: setProbes numbers the probes 0..n-1. */
  lemma {:induction false} LastAtDistinct<T>(ps: seq<T>, k: nat, i: nat)
    requires Distinct(ps) && k < i <= |ps|
    ensures LastAt(ps, ps[k], i) == k
  {
    if k < i - 1 {
      LastAtDistinct(ps, k, i - 1);
    }
  }

  /** Probes handed on without a value. */
  function Unvalued(ps: seq<Probe>): (r: seq<(Probe, Option<real>)>)
    ensures |r| == |ps|
  {
    if ps == [] then [] else Unvalued(ps[..|ps| - 1]) + [(ps[|ps| - 1], None)]
  }

  /** Entry k of the probes handed on is probe k, with no value. */
  lemma {:induction false} UnvaluedEntries(ps: seq<Probe>)
    ensures forall k :: 0 <= k < |ps| ==> Unvalued(ps)[k] == (ps[k], None)
  {
    if ps != [] {
      UnvaluedEntries(ps[..|ps| - 1]);
    }
  }
}

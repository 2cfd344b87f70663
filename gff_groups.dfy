/**
 * The groupedFeatures map of GFF3AnnotationParser: FeatureGroup objects
 * collecting the sub-locations of the lines that share a parent, the map
 * from type_id keys to groups, and the final pass that turns every group
 * into one feature.
 */
module GffGroups {
  import opened Locations
  import opened GffLines

  /** The spans a feature location covers, in order. */
  function Spans(l: FeatureLocation): seq<Location>
  {
    match l
    case Unset => []
    case Single(x) => [x]
    case Spliced(xs) => xs
  }

  /**
   * The location FeatureGroup.feature() gives its feature: the stored
   * location when no sub-location was added, the sub-location when there is
   * one, a SplitLocation over all of them otherwise.
   */
  function FinalLocation(subs: seq<Location>, location: FeatureLocation): (l: FeatureLocation)
    ensures subs == [] ==> l == location
    ensures subs != [] ==> Spans(l) == subs && (l.Single? <==> |subs| == 1)
  {
    if |subs| == 0 then location
    else if |subs| == 1 then Single(subs[0])
    else Spliced(subs)
  }

  /** A FeatureGroup: the feature of the group, its sub-locations in the order added, and the location it was created with. */
  class FeatureGroup {
    var feature: Feature
    var subLocations: seq<Location>
    var location: FeatureLocation

    /** new FeatureGroup(feature, strand, location); the strand argument is not kept. */
    constructor(feature: Feature, location: FeatureLocation)
      ensures this.feature == feature && this.location == location && subLocations == []
    {
      this.feature := feature;
      this.location := location;
      subLocations := [];
    }

    method AddSublocation(l: Location)
      modifies this`subLocations
      ensures subLocations == old(subLocations) + [l]
    {
      subLocations := subLocations + [l];
    }

    /** feature(): sets the feature's location from the sub-locations and returns it. */
    method Finish() returns (f: Feature)
      modifies this`feature
      ensures feature == old(feature).(location := FinalLocation(subLocations, location))
      ensures f == feature
    {
      feature := feature.(location := FinalLocation(subLocations, location));
      f := feature;
    }
  }

  /** The fields of a FeatureGroup, as a value. */
  datatype GroupState = GroupState(feature: Feature, subs: seq<Location>, location: FeatureLocation)

  /** The feature a group turns into at the end. */
  function Finalised(g: GroupState): Feature
  {
    g.feature.(location := FinalLocation(g.subs, g.location))
  }

  /** The grouped features as values, and the keys in the order they were first put. */
  datatype Table = Table(groups: map<string, GroupState>, order: seq<string>)

  /** Every key is listed once, and the listed keys are those of the map. */
  ghost predicate Listed(t: Table)
  {
    && (forall i, j :: 0 <= i < j < |t.order| ==> t.order[i] != t.order[j])
    && (forall k :: k in t.groups <==> k in t.order)
  }

  /** The groups of the map as values. */
  ghost function View(groups: map<string, FeatureGroup>): map<string, GroupState>
    reads groups.Values
  {
    map k | k in groups :: GroupState(groups[k].feature, groups[k].subLocations, groups[k].location)
  }

  /** No two keys share a group object. */
  ghost predicate Separate(groups: map<string, FeatureGroup>)
  {
    forall k1, k2 :: k1 in groups && k2 in groups && k1 != k2 ==> groups[k1] != groups[k2]
  }

  /** Get-or-create the group of key around f, then add sub-location l to it. */
  function JoinOne(t: Table, key: string, f: Feature, l: Location): Table
  {
    if key in t.groups then Table(t.groups[key := t.groups[key].(subs := t.groups[key].subs + [l])], t.order)
    else Table(t.groups[key := GroupState(f, [l], f.location)], t.order + [key])
  }

  /** JoinOne for each key in turn. */
  function JoinAll(t: Table, keys: seq<string>, f: Feature, l: Location): Table
  {
    if keys == [] then t else JoinOne(JoinAll(t, keys[..|keys| - 1], f, l), keys[|keys| - 1], f, l)
  }

  /** groupedFeatures.put(key, new FeatureGroup(f, strand, f.location())): a new group, replacing any group already there. */
  function StoreGroup(t: Table, key: string, f: Feature): (t': Table)
    ensures key in t'.groups && t'.groups[key].subs == []
    ensures forall k :: k != key ==> (k in t'.groups <==> k in t.groups) && (k in t.groups ==> t'.groups[k] == t.groups[k])
  {
    Table(t.groups[key := GroupState(f, [], f.location)], if key in t.groups then t.order else t.order + [key])
  }

  /** What a placed line does to the groups. */
  function PlaceGroups(t: Table, p: Placement): Table
  {
    match p
    case Direct(_) => t
    case Join(keys, f, l) => JoinAll(t, keys, f, l)
    case Store(key, f) => StoreGroup(t, key, f)
  }

  /** How many times k occurs in keys. */
  function Count(keys: seq<string>, k: string): nat
  {
    if keys == [] then 0
    else if keys[|keys| - 1] == k then Count(keys[..|keys| - 1], k) + 1
    else Count(keys[..|keys| - 1], k)
  }

  /** n copies of l. */
  function Repeat(l: Location, n: nat): seq<Location>
  {
    if n == 0 then [] else Repeat(l, n - 1) + [l]
  }

  lemma {:induction false} CountZero(keys: seq<string>, k: string)
    ensures Count(keys, k) == 0 <==> k !in keys
  {
    if keys != [] {
      CountZero(keys[..|keys| - 1], k);
      assert keys == keys[..|keys| - 1] + [keys[|keys| - 1]];
    }
  }

  /**
   * Joining with a list of keys creates each missing group around f and
   * gives every group one sub-location l per occurrence of its key; groups
   * whose key is not listed are left as they were.
   */
  lemma {:induction false} JoinAllGroups(t: Table, keys: seq<string>, f: Feature, l: Location, k: string)
    ensures var t' := JoinAll(t, keys, f, l);
      && (k in t'.groups <==> k in t.groups || k in keys)
      && (k !in keys && k in t.groups ==> t'.groups[k] == t.groups[k])
      && (k in keys && k in t.groups ==> t'.groups[k] == t.groups[k].(subs := t.groups[k].subs + Repeat(l, Count(keys, k))))
      && (k in keys && k !in t.groups ==> t'.groups[k] == GroupState(f, Repeat(l, Count(keys, k)), f.location))
  {
    if keys != [] {
      var front, last := keys[..|keys| - 1], keys[|keys| - 1];
      assert keys == front + [last];
      JoinAllGroups(t, front, f, l, k);
      CountZero(front, k);
      if k == last && k in front && k in t.groups {
        var s := t.groups[k].subs;
        assert s + Repeat(l, Count(front, k)) + [l] == s + Repeat(l, Count(front, k) + 1);
      }
    }
  }

  /** A key is listed once it is joined or stored, and never twice. */
  lemma {:induction false} JoinAllListed(t: Table, keys: seq<string>, f: Feature, l: Location)
    requires Listed(t)
    ensures Listed(JoinAll(t, keys, f, l))
  {
    if keys != [] {
      JoinAllListed(t, keys[..|keys| - 1], f, l);
    }
  }

  lemma PlaceGroupsListed(t: Table, p: Placement)
    requires Listed(t)
    ensures Listed(PlaceGroups(t, p))
  {
    if p.Join? {
      JoinAllListed(t, p.keys, p.feature, p.sub);
    }
  }

  /** The features the final pass adds, going through the groups in the order of keys (keys without a group add nothing). */
  function Emission(groups: map<string, GroupState>, keys: seq<string>): (fs: seq<Feature>)
    ensures (forall j :: 0 <= j < |keys| ==> keys[j] in groups) ==> |fs| == |keys|
  {
    if keys == [] then []
    else
      var last := keys[|keys| - 1];
      Emission(groups, keys[..|keys| - 1]) + (if last in groups then [Finalised(groups[last])] else [])
  }

  lemma {:induction false} EmissionAt(groups: map<string, GroupState>, keys: seq<string>, j: nat)
    requires forall i :: 0 <= i < |keys| ==> keys[i] in groups
    requires j < |keys|
    ensures Emission(groups, keys)[j] == Finalised(groups[keys[j]])
  {
    if j < |keys| - 1 {
      EmissionAt(groups, keys[..|keys| - 1], j);
    }
  }

  lemma {:induction false} DistinctCardinality(s: seq<string>)
    requires forall i, j :: 0 <= i < j < |s| ==> s[i] != s[j]
    ensures |set k | k in s| == |s|
  {
    if s != [] {
      var front := s[..|s| - 1];
      DistinctCardinality(front);
      assert (set k | k in s) == (set k | k in front) + {s[|s| - 1]};
    }
  }

  /**
   * The final pass over a listed table adds one feature per group: as many
   * features as groups, the j-th being the finished group of the j-th key,
   * whose location is given by its sub-locations.
   */
  lemma EveryGroupOnce(t: Table)
    requires Listed(t)
    ensures forall j :: 0 <= j < |t.order| ==> t.order[j] in t.groups
    ensures |Emission(t.groups, t.order)| == |t.groups|
    ensures forall j :: 0 <= j < |t.order| ==> Emission(t.groups, t.order)[j] == Finalised(t.groups[t.order[j]])
  {
    DistinctCardinality(t.order);
    assert t.groups.Keys == set k | k in t.order;
    forall j | 0 <= j < |t.order|
      ensures Emission(t.groups, t.order)[j] == Finalised(t.groups[t.order[j]])
    {
      EmissionAt(t.groups, t.order, j);
    }
  }

  /** A group made by get-or-create and joined at least once ends with its sub-locations as its spans. */
  lemma JoinedGroupSpans(t: Table, keys: seq<string>, f: Feature, l: Location, k: string)
    requires k in keys && k !in t.groups
    ensures k in JoinAll(t, keys, f, l).groups
    ensures var g := JoinAll(t, keys, f, l).groups[k];
      Spans(Finalised(g).location) == Repeat(l, Count(keys, k)) && Finalised(g).featureType == f.featureType
  {
    JoinAllGroups(t, keys, f, l, k);
    CountZero(keys, k);
  }

  /** Putting a group object under a key that was free: the view gains that group's state. */
  lemma ViewPut(groups: map<string, FeatureGroup>, key: string, g: FeatureGroup)
    ensures View(groups[key := g]) == View(groups)[key := GroupState(g.feature, g.subLocations, g.location)]
  {
  }

  /** addSublocation on the group of key: only that group changes. */
  method AddTo(groups: map<string, FeatureGroup>, key: string, l: Location)
    requires Separate(groups) && key in groups
    modifies groups.Values`subLocations
    ensures View(groups) == old(View(groups))[key := old(View(groups))[key].(subs := old(View(groups))[key].subs + [l])]
  {
    var g := groups[key];
    g.AddSublocation(l);
    forall k | k in groups && k != key
      ensures groups[k] != g
    {
    }
  }

  /** One id of a line: get-or-create the group of key around f, then add sub-location l to it. */
  method JoinKey(groups: map<string, FeatureGroup>, order: seq<string>, key: string, f: Feature, l: Location)
    returns (groups': map<string, FeatureGroup>, order': seq<string>)
    requires Separate(groups)
    modifies groups.Values`subLocations
    ensures Separate(groups')
    ensures forall k :: k in groups' ==> groups'[k] in groups.Values || fresh(groups'[k])
    ensures Table(View(groups'), order') == JoinOne(Table(old(View(groups)), order), key, f, l)
  {
    ghost var start := View(groups);
    groups', order' := groups, order;
    if key !in groups {
      var g := new FeatureGroup(f, f.location);
      ViewPut(groups, key, g);
      groups' := groups[key := g];
      order' := order + [key];
    }
    ghost var before := View(groups');
    assert before[key].subs + [l] == if key in start then start[key].subs + [l] else [l];
    AddTo(groups', key, l);
  }

  /** The inner loop over the ids of a line: JoinKey for each of them. */
  method JoinGroups(groups: map<string, FeatureGroup>, order: seq<string>, keys: seq<string>, f: Feature, l: Location)
    returns (groups': map<string, FeatureGroup>, order': seq<string>)
    requires Separate(groups)
    modifies groups.Values`subLocations
    ensures Separate(groups')
    ensures forall k :: k in groups' ==> groups'[k] in groups.Values || fresh(groups'[k])
    ensures Table(View(groups'), order') == JoinAll(Table(old(View(groups)), order), keys, f, l)
  {
    groups', order' := groups, order;
    var p := 0;
    while p < |keys|
      invariant 0 <= p <= |keys|
      invariant Separate(groups')
      invariant forall k :: k in groups' ==> groups'[k] in groups.Values || fresh(groups'[k])
      invariant Table(View(groups'), order') == JoinAll(Table(old(View(groups)), order), keys[..p], f, l)
    {
      assert keys[..p + 1][..p] == keys[..p];
      groups', order' := JoinKey(groups', order', keys[p], f, l);
      p := p + 1;
    }
    assert keys[..p] == keys;
  }

  /** The final pass: every group, in the order of keys, finished and added to the annotation set's list. */
  method FinishGroups(groups: map<string, FeatureGroup>, keys: seq<string>) returns (fs: seq<Feature>)
    requires Separate(groups)
    requires forall j :: 0 <= j < |keys| ==> keys[j] in groups
    requires forall i, j :: 0 <= i < j < |keys| ==> keys[i] != keys[j]
    modifies groups.Values`feature
    ensures fs == Emission(old(View(groups)), keys)
  {
    fs := [];
    var j := 0;
    while j < |keys|
      invariant 0 <= j <= |keys|
      invariant fs == Emission(old(View(groups)), keys[..j])
      invariant forall i :: j <= i < |keys| ==> groups[keys[i]].feature == old(groups[keys[i]].feature)
    {
      assert keys[..j + 1][..j] == keys[..j];
      var g := groups[keys[j]];
      var f := g.Finish();
      fs := fs + [f];
      forall i | j < i < |keys|
        ensures groups[keys[i]] != g
      {
      }
      j := j + 1;
    }
    assert keys[..j] == keys;
  }
}

/**
 * The values behind AnnotationSet: short reads, the feature classes, the
 * order-preserving views of the features added and the reads processed, the
 * state changes of one step, and the lemmas that each step keeps the index
 * in step with what was added and processed.
 *
 * Chromosome and FeatureClass are not part of this model; a chromosome is
 * represented by the reads it has been given, a feature class by the
 * features and the reads forwarded to it.
 */
module AnnotationIndex {
  import opened Results
  import opened Locations

  /** A ShortRead: the reference name and the two ends of an alignment. */
  datatype ShortRead = ShortRead(referenceName: string, start: int, end: int)

  /** The features of type t, in the order they were added. */
  function OfType(fs: seq<Feature>, t: string): seq<Feature>
  {
    if fs == [] then []
    else if fs[|fs| - 1].featureType == t then OfType(fs[..|fs| - 1], t) + [fs[|fs| - 1]]
    else OfType(fs[..|fs| - 1], t)
  }

  /** OfType keeps exactly the features of type t: each is one of fs, and none is left out. */
  lemma {:induction false} OfTypeFilters(fs: seq<Feature>, t: string)
    ensures forall k :: 0 <= k < |OfType(fs, t)| ==> OfType(fs, t)[k].featureType == t && OfType(fs, t)[k] in fs
    ensures forall k :: 0 <= k < |fs| && fs[k].featureType == t ==> fs[k] in OfType(fs, t)
    ensures |OfType(fs, t)| <= |fs|
  {
    if fs != [] {
      var init := fs[..|fs| - 1];
      OfTypeFilters(init, t);
      assert fs == init + [fs[|fs| - 1]];
    }
  }

  /** The reads a chromosome named n is given: those mapped to n, never to "*". */
  function ReadsOn(ps: seq<ShortRead>, n: string): seq<ShortRead>
  {
    if ps == [] then []
    else
      var last := ps[|ps| - 1];
      if last.referenceName == n && n != "*" then ReadsOn(ps[..|ps| - 1], n) + [last]
      else ReadsOn(ps[..|ps| - 1], n)
  }

  predicate Distinct<T(==)>(s: seq<T>)
  {
    forall i, j :: 0 <= i < j < |s| ==> s[i] != s[j]
  }

  /** before is a total order: any two reads are comparable. */
  ghost predicate Total(before: (ShortRead, ShortRead) -> bool)
  {
    forall a, b :: before(a, b) || before(b, a)
  }

  predicate SortedBy(s: seq<ShortRead>, before: (ShortRead, ShortRead) -> bool)
  {
    forall k :: 0 <= k < |s| - 1 ==> before(s[k], s[k + 1])
  }

  /** Inserts x in front of the first element it comes before. */
  function Insert(x: ShortRead, s: seq<ShortRead>, before: (ShortRead, ShortRead) -> bool): (r: seq<ShortRead>)
    ensures multiset(r) == multiset(s) + multiset{x}
    ensures |r| == |s| + 1
  {
    if s == [] || before(x, s[0]) then [x] + s
    else
      assert s == [s[0]] + s[1..];
      [s[0]] + Insert(x, s[1..], before)
  }

  /** Collections.sort: the reads rearranged into the order before. */
  function SortReads(s: seq<ShortRead>, before: (ShortRead, ShortRead) -> bool): (r: seq<ShortRead>)
    ensures multiset(r) == multiset(s)
    ensures |r| == |s|
  {
    if s == [] then []
    else
      assert s == [s[0]] + s[1..];
      Insert(s[0], SortReads(s[1..], before), before)
  }

  lemma {:induction false} InsertSorted(x: ShortRead, s: seq<ShortRead>, before: (ShortRead, ShortRead) -> bool)
    requires Total(before) && SortedBy(s, before)
    ensures SortedBy(Insert(x, s, before), before)
    ensures Insert(x, s, before) != [] && (Insert(x, s, before)[0] == x || (s != [] && Insert(x, s, before)[0] == s[0]))
  {
    if s != [] && !before(x, s[0]) {
      InsertSorted(x, s[1..], before);
      assert before(s[0], x);
      var r := Insert(x, s[1..], before);
      if |s| > 1 {
        assert before(s[0], s[1]);
      }
      assert [s[0]] + r == Insert(x, s, before);
    }
  }

  /** The sorted cache is in the given order, when that order is total. */
  lemma {:induction false} SortReadsSorted(s: seq<ShortRead>, before: (ShortRead, ShortRead) -> bool)
    requires Total(before)
    ensures SortedBy(SortReads(s, before), before)
  {
    if s != [] {
      SortReadsSorted(s[1..], before);
      InsertSorted(s[0], SortReads(s[1..], before), before);
    }
  }

  /** The features of one type, then one more feature, give the list with it appended when its type matches. */
  lemma OfTypeAppend(fs: seq<Feature>, f: Feature, t: string)
    ensures OfType(fs + [f], t) == if f.featureType == t then OfType(fs, t) + [f] else OfType(fs, t)
  {
    assert (fs + [f])[..|fs|] == fs;
  }

  /** The first feature of a type's list has that type. */
  lemma {:induction false} OfTypeHead(fs: seq<Feature>, t: string)
    requires OfType(fs, t) != []
    ensures OfType(fs, t)[0].featureType == t
  {
    var p := fs[..|fs| - 1];
    if OfType(p, t) != [] {
      OfTypeHead(p, t);
    }
  }

  /** A type has features exactly when some feature added has that type. */
  lemma {:induction false} OfTypeEmpty(fs: seq<Feature>, t: string)
    ensures OfType(fs, t) == [] <==> forall k :: 0 <= k < |fs| ==> fs[k].featureType != t
  {
    if fs != [] {
      var p := fs[..|fs| - 1];
      OfTypeEmpty(p, t);
      if OfType(p, t) == [] && fs[|fs| - 1].featureType != t {
        forall k | 0 <= k < |fs|
          ensures fs[k].featureType != t
        {
          if k < |p| {
            assert fs[k] == p[k];
          }
        }
      }
      if OfType(p, t) != [] {
        var k :| 0 <= k < |p| && p[k].featureType == t;
        assert fs[k] == p[k];
      }
    }
  }

  /**
   * The head of a type's list is the earliest feature of that type: the
   * feature at some position k, with no feature of the type before k.
   */
  lemma {:induction false} FirstOfTypeIsEarliest(fs: seq<Feature>, t: string)
    requires OfType(fs, t) != []
    ensures exists k :: 0 <= k < |fs| && fs[k] == OfType(fs, t)[0] && forall j :: 0 <= j < k ==> fs[j].featureType != t
  {
    var p := fs[..|fs| - 1];
    if OfType(p, t) == [] {
      OfTypeEmpty(p, t);
      var k := |fs| - 1;
      forall j | 0 <= j < k
        ensures fs[j].featureType != t
      {
        assert fs[j] == p[j];
      }
    } else {
      FirstOfTypeIsEarliest(p, t);
      var k :| 0 <= k < |p| && p[k] == OfType(p, t)[0] && forall j :: 0 <= j < k ==> p[j].featureType != t;
      assert fs[k] == p[k];
      forall j | 0 <= j < k
        ensures fs[j].featureType != t
      {
        assert fs[j] == p[j];
      }
    }
  }

  /** Appending one read to the processed sequence extends each chromosome's reads. */
  lemma ReadsOnAppend(ps: seq<ShortRead>, r: ShortRead, n: string)
    ensures ReadsOn(ps + [r], n) == if r.referenceName == n && n != "*" then ReadsOn(ps, n) + [r] else ReadsOn(ps, n)
  {
    assert (ps + [r])[..|ps|] == ps;
  }

  /** A chromosome that no processed read names has been given no read. */
  lemma {:induction false} ReadsOnAbsent(ps: seq<ShortRead>, names: set<string>, n: string)
    requires forall k :: 0 <= k < |ps| && ps[k].referenceName != "*" ==> ps[k].referenceName in names
    requires n !in names
    ensures ReadsOn(ps, n) == []
  {
    if ps != [] {
      ReadsOnAbsent(ps[..|ps| - 1], names, n);
    }
  }

  /** A FeatureClass: the features of one type and the reads it has been given. */
  datatype FeatureClass = FeatureClass(features: seq<Feature>, given: seq<ShortRead>)

  /** The first feature of each class. */
  function Heads(classes: map<string, FeatureClass>): set<Feature>
  {
    set t | t in classes && classes[t].features != [] :: classes[t].features[0]
  }

  /** The feature classes agree with the features added, in order. */
  ghost predicate IndexedBy(added: seq<Feature>, classes: map<string, FeatureClass>, allFeatures: set<Feature>)
  {
    && (forall t :: t in classes ==> classes[t].features == OfType(added, t) && classes[t].features != [])
    && (forall t :: t !in classes ==> OfType(added, t) == [])
    && allFeatures == Heads(classes)
  }

  /** Each chromosome has been given exactly the processed reads that name it. */
  ghost predicate ChromosomesSaw(processed: seq<ShortRead>, chromosomeReads: map<string, seq<ShortRead>>)
  {
    && (forall n :: n in chromosomeReads ==> chromosomeReads[n] == ReadsOn(processed, n))
    && (forall k :: 0 <= k < |processed| && processed[k].referenceName != "*" ==> processed[k].referenceName in chromosomeReads)
  }

  /**
   * The feature classes captured on the first processed read have each been
   * given every processed read; a class created after that has been given none.
   */
  ghost predicate ClassesSaw(processed: seq<ShortRead>, featureArray: Option<set<string>>, classes: map<string, FeatureClass>)
  {
    && (featureArray.None? ==> processed == [])
    && (featureArray.Some? ==> featureArray.value <= classes.Keys)
    && (forall t :: t in classes ==>
          classes[t].given == if featureArray.Some? && t in featureArray.value then processed else [])
  }

  /** The chromosome factory after a read is given to the chromosome it names, unless it names "*". */
  function Route(chromosomeReads: map<string, seq<ShortRead>>, r: ShortRead): map<string, seq<ShortRead>>
  {
    if r.referenceName == "*" then chromosomeReads
    else
      var n := r.referenceName;
      chromosomeReads[n := (if n in chromosomeReads then chromosomeReads[n] else []) + [r]]
  }

  /** The chromosome factory after each read of rs, in order, is routed. */
  function RouteAll(chromosomeReads: map<string, seq<ShortRead>>, rs: seq<ShortRead>): map<string, seq<ShortRead>>
  {
    if rs == [] then chromosomeReads
    else Route(RouteAll(chromosomeReads, rs[..|rs| - 1]), rs[|rs| - 1])
  }

  /** Routing only adds chromosomes: every name already known stays known. */
  lemma {:induction false} RouteAllGrows(chromosomeReads: map<string, seq<ShortRead>>, rs: seq<ShortRead>)
    ensures chromosomeReads.Keys <= RouteAll(chromosomeReads, rs).Keys
    ensures forall k :: 0 <= k < |rs| && rs[k].referenceName != "*" ==> rs[k].referenceName in RouteAll(chromosomeReads, rs)
  {
    if rs != [] {
      var init := rs[..|rs| - 1];
      RouteAllGrows(chromosomeReads, init);
      forall k | 0 <= k < |rs| - 1
        ensures rs[k] == init[k]
      {
      }
    }
  }

  /** The feature types captured by the first processed read: the classes then present. */
  function Captured(featureArray: Option<set<string>>, classes: map<string, FeatureClass>): set<string>
  {
    if featureArray.None? then classes.Keys else featureArray.value
  }

  /** The class of f's type after f is forwarded to it: a new, empty class when the type is new. */
  function ForwardFeature(classes: map<string, FeatureClass>, f: Feature): map<string, FeatureClass>
  {
    var c := if f.featureType in classes then classes[f.featureType] else FeatureClass([], []);
    classes[f.featureType := c.(features := c.features + [f])]
  }

  /** Forwarding a feature adds it to the first features exactly when it opens a new class. */
  lemma ForwardHeads(classes: map<string, FeatureClass>, f: Feature)
    requires forall t :: t in classes ==> classes[t].features != []
    ensures Heads(ForwardFeature(classes, f)) == if f.featureType in classes then Heads(classes) else Heads(classes) + {f}
  {
    var next := ForwardFeature(classes, f);
    forall x | x in Heads(next)
      ensures x in (if f.featureType in classes then Heads(classes) else Heads(classes) + {f})
    {
      var u :| u in next && next[u].features != [] && x == next[u].features[0];
      if u != f.featureType || f.featureType in classes {
        assert x == classes[u].features[0];
      }
    }
    forall x | x in (if f.featureType in classes then Heads(classes) else Heads(classes) + {f})
      ensures x in Heads(next)
    {
      if x in Heads(classes) {
        var u :| u in classes && classes[u].features != [] && x == classes[u].features[0];
        assert next[u].features[0] == x;
      } else {
        assert next[f.featureType].features[0] == f;
      }
    }
  }

  /** Adding a feature keeps the classes in step with the features added. */
  lemma AddKeepsIndex(added: seq<Feature>, classes: map<string, FeatureClass>, allFeatures: set<Feature>, f: Feature)
    requires IndexedBy(added, classes, allFeatures)
    ensures IndexedBy(added + [f], ForwardFeature(classes, f), if f.featureType in classes then allFeatures else allFeatures + {f})
  {
    var t := f.featureType;
    var next := added + [f];
    if t !in classes {
      OfTypeEmpty(added, t);
    }
    forall u
      ensures OfType(next, u) == if t == u then OfType(added, u) + [f] else OfType(added, u)
    {
      OfTypeAppend(added, f, u);
    }
    ForwardHeads(classes, f);
  }

  /** Forwarding a feature leaves every class's reads as they were, a new class having none. */
  lemma AddKeepsForwarding(processed: seq<ShortRead>, featureArray: Option<set<string>>, classes: map<string, FeatureClass>, f: Feature)
    requires ClassesSaw(processed, featureArray, classes)
    ensures ClassesSaw(processed, featureArray, ForwardFeature(classes, f))
  {
    if featureArray.Some? && f.featureType !in classes {
      assert f.featureType !in featureArray.value;
    }
  }

  /** A new chromosome has been given no read yet. */
  lemma NewChromosomeKeepsForwarding(processed: seq<ShortRead>, chromosomeReads: map<string, seq<ShortRead>>, n: string)
    requires ChromosomesSaw(processed, chromosomeReads)
    requires n !in chromosomeReads
    ensures ChromosomesSaw(processed, chromosomeReads[n := []])
  {
    ReadsOnAbsent(processed, chromosomeReads.Keys, n);
  }

  /** Routing a processed read keeps the chromosomes in step. */
  lemma RouteKeepsForwarding(processed: seq<ShortRead>, chromosomeReads: map<string, seq<ShortRead>>, r: ShortRead)
    requires ChromosomesSaw(processed, chromosomeReads)
    ensures ChromosomesSaw(processed + [r], Route(chromosomeReads, r))
  {
    if r.referenceName != "*" && r.referenceName !in chromosomeReads {
      ReadsOnAbsent(processed, chromosomeReads.Keys, r.referenceName);
    }
    forall n | n in Route(chromosomeReads, r)
      ensures Route(chromosomeReads, r)[n] == ReadsOn(processed + [r], n)
    {
      ReadsOnAppend(processed, r, n);
    }
    forall k | 0 <= k < |processed + [r]| && (processed + [r])[k].referenceName != "*"
      ensures (processed + [r])[k].referenceName in Route(chromosomeReads, r)
    {
      if k < |processed| {
        assert (processed + [r])[k] == processed[k];
      }
    }
  }

  /** Each class after the read has been given to the captured ones. */
  ghost predicate Delivered(classes: map<string, FeatureClass>, captured: set<string>, r: ShortRead, classes': map<string, FeatureClass>)
  {
    && (forall t :: t in classes' ==> t in classes)
    && (forall t :: t in classes ==> t in classes')
    && (forall t :: t in classes && t in captured ==> classes'[t] == classes[t].(given := classes[t].given + [r]))
    && (forall t :: t in classes && t !in captured ==> classes'[t] == classes[t])
  }

  /** classes' is classes after every captured class is given the reads rs, in order. */
  ghost predicate DeliveredAll(classes: map<string, FeatureClass>, captured: set<string>, rs: seq<ShortRead>, classes': map<string, FeatureClass>)
  {
    && classes'.Keys == classes.Keys
    && (forall t :: t in classes && t in captured ==> classes'[t] == classes[t].(given := classes[t].given + rs))
    && (forall t :: t in classes && t !in captured ==> classes'[t] == classes[t])
  }

  /** Delivering no reads changes no class. */
  lemma DeliveredNone(classes: map<string, FeatureClass>, captured: set<string>, classes': map<string, FeatureClass>)
    requires DeliveredAll(classes, captured, [], classes')
    ensures classes' == classes
  {
    forall t | t in classes
      ensures classes'[t] == classes[t]
    {
      assert classes[t].given + [] == classes[t].given;
    }
  }

  /** One more delivery extends a run of deliveries. */
  lemma DeliveredStep(classes: map<string, FeatureClass>, captured: set<string>, rs: seq<ShortRead>,
                      classes': map<string, FeatureClass>, r: ShortRead, classes'': map<string, FeatureClass>)
    requires DeliveredAll(classes, captured, rs, classes')
    requires Delivered(classes', captured, r, classes'')
    ensures DeliveredAll(classes, captured, rs + [r], classes'')
  {
    forall t | t in classes && t in captured
      ensures classes''[t] == classes[t].(given := classes[t].given + (rs + [r]))
    {
      assert classes[t].given + rs + [r] == classes[t].given + (rs + [r]);
    }
  }

  /**
   * One read more of a flush: routing it and delivering it to the captured
   * classes extends the routing and the deliveries of the reads before it.
   */
  lemma FlushStep(chromosomeReads0: map<string, seq<ShortRead>>, featureArray0: Option<set<string>>,
                  classes0: map<string, FeatureClass>, rs: seq<ShortRead>, r: ShortRead,
                  chromosomeReads: map<string, seq<ShortRead>>, featureArray: Option<set<string>>, classes: map<string, FeatureClass>,
                  chromosomeReads': map<string, seq<ShortRead>>, featureArray': Option<set<string>>, classes': map<string, FeatureClass>)
    requires chromosomeReads == RouteAll(chromosomeReads0, rs)
    requires featureArray == if rs == [] then featureArray0 else Some(Captured(featureArray0, classes0))
    requires DeliveredAll(classes0, Captured(featureArray0, classes0), rs, classes)
    requires chromosomeReads' == Route(chromosomeReads, r)
    requires featureArray' == Some(Captured(featureArray, classes))
    requires Delivered(classes, featureArray'.value, r, classes')
    ensures chromosomeReads' == RouteAll(chromosomeReads0, rs + [r])
    ensures featureArray' == Some(Captured(featureArray0, classes0))
    ensures DeliveredAll(classes0, Captured(featureArray0, classes0), rs + [r], classes')
  {
    assert (rs + [r])[..|rs + [r]| - 1] == rs;
    DeliveredStep(classes0, Captured(featureArray0, classes0), rs, classes, r, classes');
  }

  /** Giving the read to every captured class keeps the classes in step. */
  lemma DeliverKeepsForwarding(processed: seq<ShortRead>, featureArray: Option<set<string>>,
                               classes: map<string, FeatureClass>, r: ShortRead, classes': map<string, FeatureClass>)
    requires ClassesSaw(processed, featureArray, classes)
    requires Delivered(classes, if featureArray.None? then classes.Keys else featureArray.value, r, classes')
    ensures ClassesSaw(processed + [r], Some(if featureArray.None? then classes.Keys else featureArray.value), classes')
  {
  }

  /** The feature index is unaffected by the reads the classes are given. */
  lemma DeliverKeepsIndex(added: seq<Feature>, classes: map<string, FeatureClass>, allFeatures: set<Feature>,
                          captured: set<string>, r: ShortRead, classes': map<string, FeatureClass>)
    requires IndexedBy(added, classes, allFeatures)
    requires Delivered(classes, captured, r, classes')
    ensures IndexedBy(added, classes', allFeatures)
  {
  }

  /** Gives the read to each captured feature class in turn. */
  method DeliverToClasses(classes: map<string, FeatureClass>, captured: set<string>, r: ShortRead) returns (delivered: map<string, FeatureClass>)
    ensures Delivered(classes, captured, r, delivered)
  {
    delivered := classes;
    var remaining := captured;
    while remaining != {}
      invariant remaining <= captured
      invariant Delivered(classes, captured - remaining, r, delivered)
      decreases remaining
    {
      var t :| t in remaining;
      if t in delivered {
        delivered := delivered[t := delivered[t].(given := delivered[t].given + [r])];
      }
      remaining := remaining - {t};
    }
    assert captured - remaining == captured;
  }

  /** The classes are keyed by exactly the types of the features added. */
  lemma ClassesAreAddedTypes(added: seq<Feature>, classes: map<string, FeatureClass>, allFeatures: set<Feature>)
    requires IndexedBy(added, classes, allFeatures)
    ensures forall t :: t in classes <==> exists k :: 0 <= k < |added| && added[k].featureType == t
    ensures classes != map[] <==> added != []
  {
    forall t
      ensures t in classes <==> exists k :: 0 <= k < |added| && added[k].featureType == t
    {
      OfTypeEmpty(added, t);
    }
    if added != [] {
      assert added[0].featureType in classes;
    }
  }

  /** allFeatures holds, for each type added, the first feature of that type and nothing else. */
  lemma HeadsAreFirsts(added: seq<Feature>, classes: map<string, FeatureClass>, allFeatures: set<Feature>)
    requires IndexedBy(added, classes, allFeatures)
    ensures forall x :: x in allFeatures ==> OfType(added, x.featureType) != [] && x == OfType(added, x.featureType)[0]
    ensures forall k :: 0 <= k < |added| ==>
      OfType(added, added[k].featureType) != [] && OfType(added, added[k].featureType)[0] in allFeatures
  {
    forall x | x in allFeatures
      ensures OfType(added, x.featureType) != [] && x == OfType(added, x.featureType)[0]
    {
      var t :| t in classes && classes[t].features != [] && x == classes[t].features[0];
      OfTypeHead(added, t);
    }
    forall k | 0 <= k < |added|
      ensures OfType(added, added[k].featureType) != [] && OfType(added, added[k].featureType)[0] in allFeatures
    {
      var t := added[k].featureType;
      OfTypeEmpty(added, t);
      assert classes[t].features[0] in Heads(classes);
    }
  }

  /** One more element of s taken after p; at the end, all of s. */
  lemma PrefixStep<T>(p: seq<T>, s: seq<T>, i: nat)
    requires i <= |s|
    ensures i < |s| ==> p + s[..i] + [s[i]] == p + s[..i + 1]
    ensures i == |s| ==> p + s[..i] == p + s
  {
    if i < |s| {
      assert s[..i + 1] == s[..i] + [s[i]];
    }
  }
}

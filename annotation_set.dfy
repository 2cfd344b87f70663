/**
 * AnnotationSet: the features of an annotation file indexed by type, the
 * chromosomes of its chromosome factory, and a bounded cache of reads that
 * is sorted and handed on to every chromosome and feature class when full.
 */
module Annotation {
  import opened Results
  import opened Locations
  import opened AnnotationIndex

  class AnnotationSet {
    /** The reference file, once set. */
    var file: Option<string>
    /** The ChromosomeFactory: each chromosome created so far, with the reads it was given. */
    var chromosomeReads: map<string, seq<ShortRead>>
    /** The type-to-FeatureClass map. */
    var classes: map<string, FeatureClass>
    /** The types of the feature classes captured on the first processed read. */
    var featureArray: Option<set<string>>
    /** The features that opened a class. */
    var allFeatures: set<Feature>
    /** The configured annotation cache size. */
    const cacheSize: nat
    /** The ShortRead order Collections.sort uses. */
    const before: (ShortRead, ShortRead) -> bool
    var readCache: seq<ShortRead>

    /** Every feature added, in order. */
    ghost var added: seq<Feature>
    /** Every read handed to processSequence or processSequenceNoCache, in order. */
    ghost var received: seq<ShortRead>
    /** Every read passed on to the chromosomes and feature classes, in order. */
    ghost var processed: seq<ShortRead>
    /** Every read that arrived while the cache was full. */
    ghost var dropped: seq<ShortRead>

    /** The classes and chromosomes agree with the features added and the reads processed. */
    ghost predicate Consistent()
      reads this`added, this`classes, this`allFeatures, this`processed, this`featureArray, this`chromosomeReads
    {
      && IndexedBy(added, classes, allFeatures)
      && ClassesSaw(processed, featureArray, classes)
      && ChromosomesSaw(processed, chromosomeReads)
    }

    /** The cache never exceeds its size, and every read received is processed, cached or dropped. */
    ghost predicate Cached()
      reads this`readCache, this`received, this`processed, this`dropped
    {
      && |readCache| <= cacheSize
      && multiset(received) == multiset(processed) + multiset(readCache) + multiset(dropped)
    }

    ghost predicate Valid()
      reads this
    {
      Consistent() && Cached()
    }

    constructor(cacheSize: nat, before: (ShortRead, ShortRead) -> bool)
      ensures Valid()
      ensures this.cacheSize == cacheSize && this.before == before
      ensures file == None && chromosomeReads == map[] && classes == map[] && allFeatures == {}
      ensures featureArray == None && readCache == []
      ensures added == [] && received == [] && processed == [] && dropped == []
    {
      this.cacheSize := cacheSize;
      this.before := before;
      file := None;
      chromosomeReads := map[];
      classes := map[];
      featureArray := None;
      allFeatures := {};
      readCache := [];
      added := [];
      received := [];
      processed := [];
      dropped := [];
    }

    function GetFile(): Option<string>
      reads this
    {
      file
    }

    method SetFile(f: string)
      requires Valid()
      modifies this`file
      ensures Valid()
      ensures file == Some(f)
    {
      file := Some(f);
    }

    /** chromosomeFactory().getChromosome(name): the chromosome of that name, created with no reads if it is new. */
    method GetChromosome(name: string)
      requires Valid()
      modifies this`chromosomeReads
      ensures Valid()
      ensures name in chromosomeReads
      ensures chromosomeReads == if name in old(chromosomeReads) then old(chromosomeReads) else old(chromosomeReads)[name := []]
    {
      if name !in chromosomeReads {
        NewChromosomeKeepsForwarding(processed, chromosomeReads, name);
        chromosomeReads := chromosomeReads[name := []];
      }
    }

    /**
     * addFeature: a type seen for the first time gets a new FeatureClass and
     * its feature goes into allFeatures; the feature is always forwarded to
     * its type's class.
     */
    method AddFeature(f: Feature)
      requires Valid()
      modifies this`classes, this`allFeatures, this`added
      ensures Valid()
      ensures added == old(added) + [f]
      ensures allFeatures == if f.featureType in old(classes) then old(allFeatures) else old(allFeatures) + {f}
      ensures classes == ForwardFeature(old(classes), f)
    {
      var t := f.featureType;
      var classes', allFeatures' := classes, allFeatures;
      if t !in classes' {
        classes' := classes'[t := FeatureClass([], [])];
        allFeatures' := allFeatures' + {f};
      }
      classes' := classes'[t := classes'[t].(features := classes'[t].features + [f])];
      classes, allFeatures, added := classes', allFeatures', added + [f];
      AddedKeepsConsistent(f);
    }

    /** The state after addFeature is consistent when the state before it was. */
    twostate lemma AddedKeepsConsistent(f: Feature)
      requires old(Consistent())
      requires added == old(added) + [f] && classes == ForwardFeature(old(classes), f)
      requires allFeatures == if f.featureType in old(classes) then old(allFeatures) else old(allFeatures) + {f}
      requires processed == old(processed) && featureArray == old(featureArray) && chromosomeReads == old(chromosomeReads)
      ensures Consistent()
    {
      AddKeepsIndex(old(added), old(classes), old(allFeatures), f);
      AddKeepsForwarding(processed, featureArray, old(classes), f);
    }

    /** getAllFeatures: one feature per type, the first of that type to be added. */
    function GetAllFeatures(): (r: set<Feature>)
      requires Valid()
      reads this
      ensures forall x :: x in r ==> OfType(added, x.featureType) != [] && x == OfType(added, x.featureType)[0]
      ensures forall k :: 0 <= k < |added| ==> OfType(added, added[k].featureType) != [] && OfType(added, added[k].featureType)[0] in r
    {
      HeadsAreFirsts(added, classes, allFeatures);
      allFeatures
    }

    /** hasFeatures: some feature class exists, that is, some feature was added. */
    function HasFeatures(): (r: bool)
      requires Valid()
      reads this
      ensures r <==> added != []
    {
      ClassesAreAddedTypes(added, classes, allFeatures);
      classes != map[]
    }

    /** listFeatureTypes: the types of the features added. */
    function ListFeatureTypes(): (r: set<string>)
      requires Valid()
      reads this
      ensures forall t :: t in r <==> exists k :: 0 <= k < |added| && added[k].featureType == t
    {
      ClassesAreAddedTypes(added, classes, allFeatures);
      classes.Keys
    }

    /**
     * processCachedSequence: the read goes to its chromosome unless it is
     * unmapped ("*"); the feature classes are captured on the first call
     * and each of them is given the read.
     */
    method ProcessCachedSequence(r: ShortRead)
      requires Consistent()
      modifies this`chromosomeReads, this`featureArray, this`classes, this`processed
      ensures Consistent()
      ensures processed == old(processed) + [r]
      ensures chromosomeReads == Route(old(chromosomeReads), r)
      ensures featureArray == Some(Captured(old(featureArray), old(classes)))
      ensures Delivered(old(classes), featureArray.value, r, classes)
    {
      ghost var processed0, chromosomeReads0, featureArray0, classes0 := processed, chromosomeReads, featureArray, classes;
      var chromosomeReads' := chromosomeReads;
      if r.referenceName != "*" {
        var name := r.referenceName;
        chromosomeReads' := chromosomeReads'[name := (if name in chromosomeReads' then chromosomeReads'[name] else []) + [r]];
      }
      var captured := Captured(featureArray, classes);
      var delivered := DeliverToClasses(classes, captured, r);
      chromosomeReads, featureArray, classes, processed := chromosomeReads', Some(captured), delivered, processed + [r];
      ProcessedKeepsConsistent(processed0, chromosomeReads0, featureArray0, classes0, r);
    }

    /** The state after processCachedSequence is consistent when the state before it was. */
    lemma ProcessedKeepsConsistent(processed0: seq<ShortRead>, chromosomeReads0: map<string, seq<ShortRead>>,
                                   featureArray0: Option<set<string>>, classes0: map<string, FeatureClass>, r: ShortRead)
      requires IndexedBy(added, classes0, allFeatures)
      requires ClassesSaw(processed0, featureArray0, classes0)
      requires ChromosomesSaw(processed0, chromosomeReads0)
      requires processed == processed0 + [r] && chromosomeReads == Route(chromosomeReads0, r)
      requires featureArray == Some(Captured(featureArray0, classes0))
      requires Delivered(classes0, featureArray.value, r, classes)
      ensures Consistent()
    {
      RouteKeepsForwarding(processed0, chromosomeReads0, r);
      DeliverKeepsForwarding(processed0, featureArray0, classes0, r, classes);
      DeliverKeepsIndex(added, classes0, allFeatures, featureArray.value, r, classes);
    }

    /** processSequenceNoCache: the read is processed at once. */
    method ProcessSequenceNoCache(r: ShortRead)
      requires Valid()
      modifies this`received, this`chromosomeReads, this`featureArray, this`classes, this`processed
      ensures Valid()
      ensures processed == old(processed) + [r] && received == old(received) + [r]
      ensures chromosomeReads == Route(old(chromosomeReads), r)
      ensures featureArray == Some(Captured(old(featureArray), old(classes)))
      ensures Delivered(old(classes), featureArray.value, r, classes)
    {
      ghost var received0, processed0 := received, processed;
      received := received + [r];
      ProcessCachedSequence(r);
      ProcessedKeepsReads(received0, processed0, r);
    }

    /** A read processed as it is received is accounted for. */
    lemma ProcessedKeepsReads(received0: seq<ShortRead>, processed0: seq<ShortRead>, r: ShortRead)
      requires multiset(received0) == multiset(processed0) + multiset(readCache) + multiset(dropped)
      requires |readCache| <= cacheSize
      requires received == received0 + [r] && processed == processed0 + [r]
      ensures Cached()
    {
    }

    /**
     * The loop of the flush: processCachedSequence on each read of rs, in
     * order: the chromosomes are routed every read and the classes captured
     * by the first read are given every read.
     */
    method ProcessInOrder(rs: seq<ShortRead>)
      requires Consistent()
      modifies this`chromosomeReads, this`featureArray, this`classes, this`processed
      ensures Consistent()
      ensures processed == old(processed) + rs
      ensures chromosomeReads == RouteAll(old(chromosomeReads), rs)
      ensures featureArray == if rs == [] then old(featureArray) else Some(Captured(old(featureArray), old(classes)))
      ensures DeliveredAll(old(classes), Captured(old(featureArray), old(classes)), rs, classes)
    {
      ghost var processed0, chromosomeReads0, featureArray0, classes0 := processed, chromosomeReads, featureArray, classes;
      ghost var captured := Captured(featureArray, classes);
      var i := 0;
      while i < |rs|
        invariant 0 <= i <= |rs|
        invariant Consistent()
        invariant processed == processed0 + rs[..i]
        invariant chromosomeReads == RouteAll(chromosomeReads0, rs[..i])
        invariant featureArray == if rs[..i] == [] then featureArray0 else Some(captured)
        invariant DeliveredAll(classes0, captured, rs[..i], classes)
      {
        ghost var chromosomeReads1, featureArray1, classes1 := chromosomeReads, featureArray, classes;
        ProcessCachedSequence(rs[i]);
        FlushStep(chromosomeReads0, featureArray0, classes0, rs[..i], rs[i],
                  chromosomeReads1, featureArray1, classes1, chromosomeReads, featureArray, classes);
        assert rs[..i + 1] == rs[..i] + [rs[i]];
        PrefixStep(processed0, rs, i);
        i := i + 1;
      }
      PrefixStep(processed0, rs, i);
      assert rs[..i] == rs;
    }

    /**
     * The flush of processSequence: the cache is sorted, every read in it is
     * processed in that order, and the cache is emptied.  The source counts
     * to cacheSize, which is the length of the cache whenever it flushes.
     */
    method Flush()
      requires Consistent()
      modifies this`chromosomeReads, this`featureArray, this`classes, this`processed, this`readCache
      ensures Consistent()
      ensures processed == old(processed) + SortReads(old(readCache), before)
      ensures chromosomeReads == RouteAll(old(chromosomeReads), SortReads(old(readCache), before))
      ensures old(chromosomeReads).Keys <= chromosomeReads.Keys
      ensures featureArray == if old(readCache) == [] then old(featureArray) else Some(Captured(old(featureArray), old(classes)))
      ensures DeliveredAll(old(classes), Captured(old(featureArray), old(classes)), SortReads(old(readCache), before), classes)
      ensures old(readCache) == [] ==> chromosomeReads == old(chromosomeReads) && classes == old(classes)
      ensures readCache == []
    {
      ghost var chromosomeReads0, classes0 := chromosomeReads, classes;
      var sorted := SortReads(readCache, before);
      ProcessInOrder(sorted);
      RouteAllGrows(chromosomeReads0, sorted);
      if sorted == [] {
        DeliveredNone(classes0, Captured(old(featureArray), classes0), classes);
      }
      readCache := [];
    }

    /**
     * processSequence: a read joins the cache while there is room; a read
     * that finds the cache full sets off a flush and is itself dropped.
     */
    method ProcessSequence(r: ShortRead)
      requires Valid()
      modifies this`received, this`readCache, this`dropped
      modifies this`chromosomeReads, this`featureArray, this`classes, this`processed
      ensures Valid()
      ensures received == old(received) + [r]
      ensures |old(readCache)| < cacheSize ==>
        && readCache == old(readCache) + [r] && processed == old(processed) && dropped == old(dropped)
        && chromosomeReads == old(chromosomeReads) && featureArray == old(featureArray) && classes == old(classes)
      ensures |old(readCache)| >= cacheSize ==>
        && readCache == [] && processed == old(processed) + SortReads(old(readCache), before) && dropped == old(dropped) + [r]
        && chromosomeReads == RouteAll(old(chromosomeReads), SortReads(old(readCache), before))
        && featureArray == (if old(readCache) == [] then old(featureArray) else Some(Captured(old(featureArray), old(classes))))
        && DeliveredAll(old(classes), Captured(old(featureArray), old(classes)), SortReads(old(readCache), before), classes)
    {
      ghost var received0, processed0, readCache0, dropped0 := received, processed, readCache, dropped;
      received := received + [r];
      if |readCache| < cacheSize {
        readCache := readCache + [r];
      } else {
        Flush();
        dropped := dropped + [r];
      }
      CacheKeepsReads(received0, processed0, readCache0, dropped0, r);
    }

    /** Every read received is still accounted for after processSequence. */
    lemma CacheKeepsReads(received0: seq<ShortRead>, processed0: seq<ShortRead>, readCache0: seq<ShortRead>,
                          dropped0: seq<ShortRead>, r: ShortRead)
      requires multiset(received0) == multiset(processed0) + multiset(readCache0) + multiset(dropped0)
      requires |readCache0| <= cacheSize && received == received0 + [r]
      requires |readCache0| < cacheSize ==> readCache == readCache0 + [r] && processed == processed0 && dropped == dropped0
      requires |readCache0| >= cacheSize ==>
        readCache == [] && processed == processed0 + SortReads(readCache0, before) && dropped == dropped0 + [r]
      ensures Cached()
    {
    }

    /**
     * processSequence as evidently intended: the read joins the cache first,
     * and a cache that has reached its size is flushed, so no read is lost.
     */
    method ProcessSequenceKeepingRead(r: ShortRead)
      requires Valid()
      modifies this`received, this`readCache
      modifies this`chromosomeReads, this`featureArray, this`classes, this`processed
      ensures Valid()
      ensures received == old(received) + [r] && dropped == old(dropped)
      ensures |old(readCache)| + 1 < cacheSize ==>
        && readCache == old(readCache) + [r] && processed == old(processed)
        && chromosomeReads == old(chromosomeReads) && featureArray == old(featureArray) && classes == old(classes)
      ensures |old(readCache)| + 1 >= cacheSize ==>
        && readCache == [] && processed == old(processed) + SortReads(old(readCache) + [r], before)
        && chromosomeReads == RouteAll(old(chromosomeReads), SortReads(old(readCache) + [r], before))
        && featureArray == Some(Captured(old(featureArray), old(classes)))
        && DeliveredAll(old(classes), Captured(old(featureArray), old(classes)), SortReads(old(readCache) + [r], before), classes)
    {
      ghost var received0, processed0, readCache0 := received, processed, readCache;
      received := received + [r];
      readCache := readCache + [r];
      if |readCache| >= cacheSize {
        Flush();
      }
      KeepingReadKeepsReads(received0, processed0, readCache0, r);
    }

    /** Every read received is still accounted for, none of them dropped, after the corrected processSequence. */
    lemma KeepingReadKeepsReads(received0: seq<ShortRead>, processed0: seq<ShortRead>, readCache0: seq<ShortRead>, r: ShortRead)
      requires multiset(received0) == multiset(processed0) + multiset(readCache0) + multiset(dropped)
      requires |readCache0| <= cacheSize && received == received0 + [r]
      requires |readCache0| + 1 < cacheSize ==> readCache == readCache0 + [r] && processed == processed0
      requires |readCache0| + 1 >= cacheSize ==> readCache == [] && processed == processed0 + SortReads(readCache0 + [r], before)
      ensures Cached()
    {
    }

    /** While no read has been dropped, every read received has been processed or is waiting in the cache. */
    lemma NothingLost()
      requires Cached() && dropped == []
      ensures forall x :: x in received ==> x in processed || x in readCache
    {
      forall x | x in received
        ensures x in processed || x in readCache
      {
        assert x in multiset(received);
      }
    }
  }

  /**
   * The read lost by processSequence as written: with a one-read cache, the
   * second read sets off the flush of the first and is neither processed
   * nor cached.
   */
  method LostReadExample(a: ShortRead, b: ShortRead, before: (ShortRead, ShortRead) -> bool) returns (s: AnnotationSet)
    requires a != b
    ensures s.Valid() && s.received == [a, b]
    ensures b !in s.processed && b !in s.readCache
  {
    s := new AnnotationSet(1, before);
    s.ProcessSequence(a);
    s.ProcessSequence(b);
    assert s.processed == SortReads([a], before) == [a];
  }

  /** The same two reads under the corrected processSequence: both are processed. */
  method KeptReadExample(a: ShortRead, b: ShortRead, before: (ShortRead, ShortRead) -> bool) returns (s: AnnotationSet)
    requires a != b
    ensures s.Valid() && s.received == [a, b] && s.dropped == []
    ensures a in s.processed && b in s.processed
  {
    assert SortReads([] + [a], before) == [a] && SortReads([] + [b], before) == [b];
    s := new AnnotationSet(1, before);
    s.ProcessSequenceKeepingRead(a);
    s.ProcessSequenceKeepingRead(b);
    assert s.processed == [] + [a] + [b];
  }
}

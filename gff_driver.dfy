/**
 * The two parseAnnotation drivers of GFF3AnnotationParser: the line loop
 * that feeds an AnnotationSet and the groupedFeatures map, and the final
 * pass that adds every group as one feature. A run is specified by a fold
 * over the lines (RunFrom) whose properties are proved as lemmas.
 */
module GffDriver {
  import opened Results
  import opened Locations
  import opened AnnotationIndex
  import opened GffLines
  import opened GffGroups
  import opened Annotation

  /** What a run has produced so far: features added straight away, the groups, the chromosomes asked for, the warnings. */
  datatype Progress = Progress(emitted: seq<Feature>, table: Table, chromosomes: seq<string>, warnings: seq<GffWarning>)

  /** How the line loop ended: end of file, an exception out of a line, or the cancel flag. */
  datatype RunEnd = Completed | Failed | Cancelled

  datatype Run = Run(progress: Progress, end: RunEnd)

  const Start := Progress([], Table(map[], []), [], [])

  /** One line that neither failed nor was cancelled, applied to the progress. */
  function Apply(ctx: Context, p: Progress, r: LineResult): Progress
  {
    var warnings := p.warnings + r.warnings;
    match r.action
    case Place(pl) =>
      Progress(p.emitted + (if pl.Direct? then [pl.feature] else []), PlaceGroups(p.table, pl),
               if ctx.NoGenome? then p.chromosomes + [pl.feature.chromosome] else p.chromosomes, warnings)
    case _ => p.(warnings := warnings)
  }

  /** Every line of the file through ParseLine. */
  function Parsed(ctx: Context, lines: seq<string>): (rs: seq<LineResult>)
    ensures |rs| == |lines|
    ensures forall k :: 0 <= k < |lines| ==> rs[k] == ParseLine(ctx, lines[k])
  {
    seq(|lines|, k requires 0 <= k < |lines| => ParseLine(ctx, lines[k]))
  }

  /**
   * The line loop from line i on, over the parsed lines rs. cancel is the
   * line at whose start the cancel flag is first seen set, if any.
   */
  function RunFrom(ctx: Context, rs: seq<LineResult>, i: nat, p: Progress, cancel: Option<nat>): Run
    requires i <= |rs|
    decreases |rs| - i
  {
    if i == |rs| then Run(p, Completed)
    else if cancel == Some(i) then Run(p, Cancelled)
    else if rs[i].action.Fail? then Run(p, Failed)
    else RunFrom(ctx, rs, i + 1, Apply(ctx, p, rs[i]), cancel)
  }

  /** The chromosome factory after getChromosome(name): the chromosome is created when missing. */
  function Request(m: map<string, seq<ShortRead>>, name: string): map<string, seq<ShortRead>>
  {
    if name in m then m else m[name := []]
  }

  /** The chromosome factory after getChromosome was asked for each name in turn. */
  function Requested(m: map<string, seq<ShortRead>>, names: seq<string>): (m': map<string, seq<ShortRead>>)
    ensures forall k :: k in m' <==> k in m || k in names
    ensures forall k :: k in m ==> m'[k] == m[k]
    ensures forall k :: k in m' && k !in m ==> m'[k] == []
  {
    if names == [] then m
    else
      var n := names[|names| - 1];
      assert names == names[..|names| - 1] + [n];
      Request(Requested(m, names[..|names| - 1]), n)
  }

  lemma RequestedAppend(m: map<string, seq<ShortRead>>, names: seq<string>, n: string)
    ensures Request(Requested(m, names), n) == Requested(m, names + [n])
  {
    assert (names + [n])[..|names|] == names;
  }

  /** The feature a line adds straight away, if any. */
  function Direct(r: LineResult): seq<Feature>
  {
    if r.action.Place? && r.action.placement.Direct? then [r.action.placement.feature] else []
  }

  /** The features the lines add straight away, independently of how the loop is written. */
  function DirectFeatures(rs: seq<LineResult>): seq<Feature>
  {
    if rs == [] then [] else Direct(rs[0]) + DirectFeatures(rs[1..])
  }

  /** The warnings of the lines, one line after another. */
  function LineWarnings(rs: seq<LineResult>): seq<GffWarning>
  {
    if rs == [] then [] else rs[0].warnings + LineWarnings(rs[1..])
  }

  lemma ApplyParts(ctx: Context, p: Progress, r: LineResult)
    ensures Apply(ctx, p, r).emitted == p.emitted + Direct(r)
    ensures Apply(ctx, p, r).warnings == p.warnings + r.warnings
    ensures Apply(ctx, p, r).table == if r.action.Place? then PlaceGroups(p.table, r.action.placement) else p.table
    ensures Apply(ctx, p, r).chromosomes ==
      if r.action.Place? && ctx.NoGenome? then p.chromosomes + [r.action.placement.feature.chromosome] else p.chromosomes
  {
  }

  lemma Associate<T>(a: seq<T>, b: seq<T>, c: seq<T>)
    ensures a + b + c == a + (b + c)
  {
  }

  lemma AppendNothing<T>(a: seq<T>)
    ensures a + [] == a
  {
  }

  lemma LinesFrom(rs: seq<LineResult>, i: nat)
    requires i < |rs|
    ensures DirectFeatures(rs[i..]) == Direct(rs[i]) + DirectFeatures(rs[i + 1..])
    ensures LineWarnings(rs[i..]) == rs[i].warnings + LineWarnings(rs[i + 1..])
  {
    assert rs[i..][0] == rs[i] && rs[i..][1..] == rs[i + 1..];
  }

  /**
   * A run fails exactly at a line that throws and is cancelled exactly when
   * the flag is seen before the end of the file; otherwise it reads every
   * line.
   */
  lemma {:induction false} RunEnds(ctx: Context, rs: seq<LineResult>, i: nat, p: Progress, cancel: Option<nat>)
    requires i <= |rs|
    ensures var run := RunFrom(ctx, rs, i, p, cancel);
      && (run.end == Failed ==> exists j :: i <= j < |rs| && rs[j].action.Fail?)
      && (run.end == Cancelled ==> cancel.Some? && i <= cancel.value < |rs|)
      && (run.end == Completed ==>
            (forall j :: i <= j < |rs| ==> !rs[j].action.Fail?) &&
            (cancel.None? || cancel.value < i || cancel.value >= |rs|))
    decreases |rs| - i
  {
    if i < |rs| && cancel != Some(i) && !rs[i].action.Fail? {
      RunEnds(ctx, rs, i + 1, Apply(ctx, p, rs[i]), cancel);
    }
  }

  /** The groups stay listed once each in the order they were first put, so the final pass adds each once. */
  lemma {:induction false} RunListed(ctx: Context, rs: seq<LineResult>, i: nat, p: Progress, cancel: Option<nat>)
    requires i <= |rs| && Listed(p.table)
    ensures Listed(RunFrom(ctx, rs, i, p, cancel).progress.table)
    decreases |rs| - i
  {
    if i < |rs| && cancel != Some(i) && !rs[i].action.Fail? {
      if rs[i].action.Place? {
        PlaceGroupsListed(p.table, rs[i].action.placement);
      }
      RunListed(ctx, rs, i + 1, Apply(ctx, p, rs[i]), cancel);
    }
  }

  /** A run that reads every line adds the features of the ungrouped lines straight away, in file order. */
  lemma {:induction false} RunEmitted(ctx: Context, rs: seq<LineResult>, i: nat, p: Progress, cancel: Option<nat>)
    requires i <= |rs|
    ensures var run := RunFrom(ctx, rs, i, p, cancel);
      run.end == Completed ==> run.progress.emitted == p.emitted + DirectFeatures(rs[i..])
    decreases |rs| - i
  {
    if i < |rs| && cancel != Some(i) && !rs[i].action.Fail? {
      RunEmitted(ctx, rs, i + 1, Apply(ctx, p, rs[i]), cancel);
      ApplyParts(ctx, p, rs[i]);
      LinesFrom(rs, i);
      assert p.emitted + Direct(rs[i]) + DirectFeatures(rs[i + 1..]) == p.emitted + (Direct(rs[i]) + DirectFeatures(rs[i + 1..]));
    }
  }

  /** A run that reads every line reports the warnings of every line, in file order. */
  lemma {:induction false} RunWarned(ctx: Context, rs: seq<LineResult>, i: nat, p: Progress, cancel: Option<nat>)
    requires i <= |rs|
    ensures var run := RunFrom(ctx, rs, i, p, cancel);
      run.end == Completed ==> run.progress.warnings == p.warnings + LineWarnings(rs[i..])
    decreases |rs| - i
  {
    if i < |rs| && cancel != Some(i) && !rs[i].action.Fail? {
      RunWarned(ctx, rs, i + 1, Apply(ctx, p, rs[i]), cancel);
      ApplyParts(ctx, p, rs[i]);
      LinesFrom(rs, i);
      assert p.warnings + rs[i].warnings + LineWarnings(rs[i + 1..]) == p.warnings + (rs[i].warnings + LineWarnings(rs[i + 1..]));
    }
  }

  /** When no line reports anything, a run reports nothing, however it ends. */
  lemma {:induction false} RunQuiet(ctx: Context, rs: seq<LineResult>, i: nat, p: Progress, cancel: Option<nat>)
    requires i <= |rs|
    requires forall k :: 0 <= k < |rs| ==> rs[k].warnings == []
    ensures RunFrom(ctx, rs, i, p, cancel).progress.warnings == p.warnings
    decreases |rs| - i
  {
    if i < |rs| && cancel != Some(i) && !rs[i].action.Fail? {
      ApplyParts(ctx, p, rs[i]);
      assert p.warnings + [] == p.warnings;
      RunQuiet(ctx, rs, i + 1, Apply(ctx, p, rs[i]), cancel);
    }
  }

  /** With a genome no chromosome is asked of the annotation set's own factory. */
  lemma {:induction false} GenomeNeverRequests(ctx: Context, rs: seq<LineResult>, i: nat, p: Progress, cancel: Option<nat>)
    requires i <= |rs| && ctx.WithGenome?
    ensures RunFrom(ctx, rs, i, p, cancel).progress.chromosomes == p.chromosomes
    decreases |rs| - i
  {
    if i < |rs| && cancel != Some(i) && !rs[i].action.Fail? {
      GenomeNeverRequests(ctx, rs, i + 1, Apply(ctx, p, rs[i]), cancel);
    }
  }

  /**
   * Without a genome no line reports a warning (problems are skipped
   * silently or throw); with a genome no line throws.
   */
  lemma ParsedLines(ctx: Context, lines: seq<string>)
    ensures ctx.NoGenome? ==> forall k :: 0 <= k < |lines| ==> Parsed(ctx, lines)[k].warnings == []
    ensures ctx.WithGenome? ==> forall k :: 0 <= k < |lines| ==> !Parsed(ctx, lines)[k].action.Fail?
  {
  }

  /**
   * A run without a genome reports nothing, and a run with one never
   * throws: it is cancelled exactly when the flag is seen before the end of
   * the file, and otherwise reads every line.
   */
  lemma RunByContext(ctx: Context, lines: seq<string>, cancel: Option<nat>)
    ensures var run := RunFrom(ctx, Parsed(ctx, lines), 0, Start, cancel);
      && (ctx.NoGenome? ==> run.progress.warnings == [])
      && (ctx.WithGenome? ==> run.end != Failed && (run.end == Cancelled <==> cancel.Some? && cancel.value < |lines|))
  {
    var rs := Parsed(ctx, lines);
    ParsedLines(ctx, lines);
    RunEnds(ctx, rs, 0, Start, cancel);
    if ctx.NoGenome? {
      RunQuiet(ctx, rs, 0, Start, cancel);
    }
  }

  /** The grouping part of a placed line: join the groups of its ids, or put a new group under its ID. */
  method GroupLine(groups: map<string, FeatureGroup>, order: seq<string>, pl: Placement)
    returns (groups': map<string, FeatureGroup>, order': seq<string>)
    requires Separate(groups)
    modifies groups.Values`subLocations
    ensures Separate(groups')
    ensures forall k :: k in groups' ==> groups'[k] in groups.Values || fresh(groups'[k])
    ensures Table(View(groups'), order') == PlaceGroups(Table(old(View(groups)), order), pl)
  {
    groups', order' := groups, order;
    match pl {
      case Direct(_) =>
      case Join(keys, f, l) =>
        groups', order' := JoinGroups(groups, order, keys, f, l);
      case Store(key, f) =>
        var g := new FeatureGroup(f, f.location);
        ViewPut(groups, key, g);
        groups' := groups[key := g];
        if key !in groups {
          order' := order + [key];
        }
    }
  }

  /** The annotation-set part of a placed line: the chromosome asked for, then the feature added when it is ungrouped. */
  method AnnotateLine(annotations: AnnotationSet, ctx: Context, pl: Placement)
    requires annotations.Valid()
    modifies annotations`chromosomeReads, annotations`classes, annotations`allFeatures, annotations`added
    ensures annotations.Valid()
    ensures annotations.added == old(annotations.added) + (if pl.Direct? then [pl.feature] else [])
    ensures annotations.chromosomeReads == if ctx.NoGenome? then Request(old(annotations.chromosomeReads), pl.feature.chromosome) else old(annotations.chromosomeReads)
  {
    if ctx.NoGenome? {
      annotations.GetChromosome(pl.feature.chromosome);
    }
    if pl.Direct? {
      annotations.AddFeature(pl.feature);
    }
  }

  /** The placed part of one line: the chromosome asked for, then the feature added or the groups updated. */
  method PlaceLine(annotations: AnnotationSet, ctx: Context, groups: map<string, FeatureGroup>, order: seq<string>, pl: Placement)
    returns (groups': map<string, FeatureGroup>, order': seq<string>)
    requires annotations.Valid() && Separate(groups)
    modifies annotations`chromosomeReads, annotations`classes, annotations`allFeatures, annotations`added, groups.Values`subLocations
    ensures annotations.Valid() && Separate(groups')
    ensures forall k :: k in groups' ==> groups'[k] in groups.Values || fresh(groups'[k])
    ensures annotations.added == old(annotations.added) + (if pl.Direct? then [pl.feature] else [])
    ensures annotations.chromosomeReads == if ctx.NoGenome? then Request(old(annotations.chromosomeReads), pl.feature.chromosome) else old(annotations.chromosomeReads)
    ensures Table(View(groups'), order') == PlaceGroups(Table(old(View(groups)), order), pl)
  {
    AnnotateLine(annotations, ctx, pl);
    groups', order' := GroupLine(groups, order, pl);
  }

  /** Adds the features to the annotation set one after another. */
  method AddAll(annotations: AnnotationSet, fs: seq<Feature>)
    requires annotations.Valid()
    modifies annotations`classes, annotations`allFeatures, annotations`added
    ensures annotations.Valid()
    ensures annotations.added == old(annotations.added) + fs
  {
    var j := 0;
    while j < |fs|
      invariant 0 <= j <= |fs|
      invariant annotations.Valid()
      invariant annotations.added == old(annotations.added) + fs[..j]
    {
      annotations.AddFeature(fs[j]);
      assert fs[..j + 1] == fs[..j] + [fs[j]];
      j := j + 1;
    }
    assert fs[..j] == fs;
  }

  /** The loop has read the lines before i and holds progress p: the run from there is the whole run. */
  ghost predicate Reaches(ctx: Context, rs: seq<LineResult>, cancel: Option<nat>, i: nat, p: Progress)
  {
    i <= |rs| && RunFrom(ctx, rs, 0, Start, cancel) == RunFrom(ctx, rs, i, p, cancel)
  }

  /** One step of the fold, as the loop takes it. */
  lemma RunStep(ctx: Context, rs: seq<LineResult>, cancel: Option<nat>, i: nat, p: Progress)
    requires Reaches(ctx, rs, cancel, i, p)
    requires i < |rs| && cancel != Some(i) && !rs[i].action.Fail?
    ensures Reaches(ctx, rs, cancel, i + 1, Apply(ctx, p, rs[i]))
  {
  }

  /**
   * The set, the groups and the warnings collected so far are those of
   * progress p, the set's features and chromosomes counted from added0 and
   * chromosomes0.
   */
  ghost predicate Mirrors(annotations: AnnotationSet, groups: map<string, FeatureGroup>, order: seq<string>, warnings: seq<GffWarning>,
                          p: Progress, added0: seq<Feature>, chromosomes0: map<string, seq<ShortRead>>)
    reads annotations, groups.Values
  {
    && annotations.Valid() && Separate(groups) && Table(View(groups), order) == p.table
    && annotations.added == added0 + p.emitted
    && annotations.chromosomeReads == Requested(chromosomes0, p.chromosomes)
    && warnings == p.warnings
  }

  /** Where the loop stops, the run ends with the progress reached so far. */
  lemma RunStops(ctx: Context, rs: seq<LineResult>, cancel: Option<nat>, i: nat, p: Progress)
    requires Reaches(ctx, rs, cancel, i, p)
    requires i == |rs| || cancel == Some(i) || rs[i].action.Fail?
    ensures RunFrom(ctx, rs, 0, Start, cancel) ==
      Run(p, if i == |rs| then Completed else if cancel == Some(i) then Cancelled else Failed)
  {
  }

  /** The work of one line that neither failed nor was cancelled: the set, the groups and the warnings move from progress p to Apply(ctx, p, r). */
  method TakeLine(annotations: AnnotationSet, ctx: Context, r: LineResult, groups: map<string, FeatureGroup>, order: seq<string>,
                  warnings: seq<GffWarning>, ghost p: Progress, ghost added0: seq<Feature>, ghost chromosomes0: map<string, seq<ShortRead>>)
    returns (groups': map<string, FeatureGroup>, order': seq<string>, warnings': seq<GffWarning>)
    requires Mirrors(annotations, groups, order, warnings, p, added0, chromosomes0)
    modifies annotations`chromosomeReads, annotations`classes, annotations`allFeatures, annotations`added, groups.Values`subLocations
    ensures Mirrors(annotations, groups', order', warnings', Apply(ctx, p, r), added0, chromosomes0)
    ensures forall k :: k in groups' ==> groups'[k] in groups.Values || fresh(groups'[k])
  {
    ApplyParts(ctx, p, r);
    Associate(added0, p.emitted, Direct(r));
    warnings' := warnings + r.warnings;
    if r.action.Place? {
      var pl := r.action.placement;
      groups', order' := PlaceLine(annotations, ctx, groups, order, pl);
      if ctx.NoGenome? {
        RequestedAppend(chromosomes0, p.chromosomes, pl.feature.chromosome);
      }

    } else {
      groups', order' := groups, order;
      AppendNothing(annotations.added);
    }
  }

  /**
   * The line loop of both drivers, leaving the groups it built. ParseLine
   * is pure, so the loop takes the lines already parsed, one result per line.
   */
  method ReadLines(annotations: AnnotationSet, ctx: Context, rs: seq<LineResult>, cancel: Option<nat>)
    returns (end: RunEnd, warnings: seq<GffWarning>, groups: map<string, FeatureGroup>, order: seq<string>, ghost p: Progress)
    requires annotations.Valid()
    modifies annotations`chromosomeReads, annotations`classes, annotations`allFeatures, annotations`added
    ensures RunFrom(ctx, rs, 0, Start, cancel) == Run(p, end)
    ensures Mirrors(annotations, groups, order, warnings, p, old(annotations.added), old(annotations.chromosomeReads))
    ensures forall k :: k in groups ==> fresh(groups[k])
  {
    groups, order := map[], [];
    p := Start;
    warnings := [];
    ghost var added0, chromosomes0 := annotations.added, annotations.chromosomeReads;
    AppendNothing(added0);
    var i := 0;
    assert Reaches(ctx, rs, cancel, 0, Start);
    while i < |rs| && cancel != Some(i) && !rs[i].action.Fail?
      invariant 0 <= i <= |rs|
      invariant Mirrors(annotations, groups, order, warnings, p, added0, chromosomes0)
      invariant forall k :: k in groups ==> fresh(groups[k])
      invariant Reaches(ctx, rs, cancel, i, p)
    {
      RunStep(ctx, rs, cancel, i, p);
      groups, order, warnings := TakeLine(annotations, ctx, rs[i], groups, order, warnings, p, added0, chromosomes0);
      p := Apply(ctx, p, rs[i]);
      i := i + 1;
    }
    end := if i == |rs| then Completed else if cancel == Some(i) then Cancelled else Failed;
    RunStops(ctx, rs, cancel, i, p);
  }

  /** The keys of a listed view are keys of the group map. */
  lemma ListedKeys(groups: map<string, FeatureGroup>, order: seq<string>)
    requires Listed(Table(View(groups), order))
    ensures forall j :: 0 <= j < |order| ==> order[j] in groups
    ensures forall i, j :: 0 <= i < j < |order| ==> order[i] != order[j]
  {
    forall j | 0 <= j < |order|
      ensures order[j] in groups
    {
      assert order[j] in View(groups);
    }
  }

  /** The final pass: every group, in the order its key was first put, finished and added to the set. */
  method FinalPass(annotations: AnnotationSet, groups: map<string, FeatureGroup>, order: seq<string>)
    requires annotations.Valid() && Separate(groups) && Listed(Table(View(groups), order))
    modifies annotations`classes, annotations`allFeatures, annotations`added, groups.Values`feature
    ensures annotations.Valid()
    ensures annotations.added == old(annotations.added) + Emission(old(View(groups)), order)
  {
    ListedKeys(groups, order);
    var fs := FinishGroups(groups, order);
    AddAll(annotations, fs);
  }

  /**
   * The line loop of both drivers and, when it reads every line, the final
   * pass over the groups in the order their keys were first put.
   */
  method ParseLines(annotations: AnnotationSet, ctx: Context, lines: seq<string>, cancel: Option<nat>)
    returns (end: RunEnd, warnings: seq<GffWarning>)
    requires annotations.Valid()
    modifies annotations`chromosomeReads, annotations`classes, annotations`allFeatures, annotations`added
    ensures annotations.Valid()
    ensures var run := RunFrom(ctx, Parsed(ctx, lines), 0, Start, cancel);
      && end == run.end && warnings == run.progress.warnings
      && Listed(run.progress.table)
      && annotations.chromosomeReads == Requested(old(annotations.chromosomeReads), run.progress.chromosomes)
      && annotations.added == old(annotations.added) + run.progress.emitted +
           (if end == Completed then Emission(run.progress.table.groups, run.progress.table.order) else [])
  {
    var groups, order;
    ghost var p;
    end, warnings, groups, order, p := ReadLines(annotations, ctx, Parsed(ctx, lines), cancel);
    RunListed(ctx, Parsed(ctx, lines), 0, Start, cancel);
    if end == Completed {
      FinalPass(annotations, groups, order);
    }
  }

  /**
   * parseAnnotation(annotationSet, file): sets the file, then reads every
   * line; an exception out of a line propagates, leaving the features
   * added so far in the set and the groups unadded. Returns whether it threw.
   */
  method ParseAnnotation(annotations: AnnotationSet, file: string, lines: seq<string>) returns (thrown: bool)
    requires annotations.Valid()
    modifies annotations`file, annotations`chromosomeReads, annotations`classes, annotations`allFeatures, annotations`added
    ensures annotations.Valid() && annotations.file == Some(file)
    ensures var run := RunFrom(NoGenome, Parsed(NoGenome, lines), 0, Start, None);
      && thrown == (run.end == Failed)
      && annotations.chromosomeReads == Requested(old(annotations.chromosomeReads), run.progress.chromosomes)
      && annotations.added == old(annotations.added) + run.progress.emitted +
           (if thrown then [] else Emission(run.progress.table.groups, run.progress.table.order))
  {
    annotations.SetFile(file);
    var end, _ := ParseLines(annotations, NoGenome, lines, None);
    RunEnds(NoGenome, Parsed(NoGenome, lines), 0, Start, None);
    thrown := end == Failed;
  }

  /** featurePrefix: the prefix given, else the answer to the prefix dialog, else the empty string. */
  function FeaturePrefix(prefix: Option<string>, dialogAnswer: Option<string>): string
  {
    if prefix.Some? then prefix.value else if dialogAnswer.Some? then dialogAnswer.value else ""
  }

  /**
   * parseAnnotation(file, genome, prefix): reads every line into the set
   * (created by the caller), reporting warnings instead of throwing;
   * returns no sets when the cancel flag is seen, else the one set.
   */
  method ParseAnnotationWithGenome(annotations: AnnotationSet, lines: seq<string>, genome: Genome, prefix: Option<string>,
                                   dialogAnswer: Option<string>, cancel: Option<nat>)
    returns (sets: Option<seq<AnnotationSet>>, warnings: seq<GffWarning>)
    requires annotations.Valid()
    modifies annotations`chromosomeReads, annotations`classes, annotations`allFeatures, annotations`added
    ensures annotations.Valid() && annotations.chromosomeReads == old(annotations.chromosomeReads)
    ensures var ctx := WithGenome(genome, FeaturePrefix(prefix, dialogAnswer));
      var run := RunFrom(ctx, Parsed(ctx, lines), 0, Start, cancel);
      && warnings == run.progress.warnings
      && (sets.None? <==> cancel.Some? && cancel.value < |lines|)
      && (sets.Some? ==> sets.value == [annotations] && run.end == Completed)
      && annotations.added == old(annotations.added) + run.progress.emitted +
           (if sets.Some? then Emission(run.progress.table.groups, run.progress.table.order) else [])
  {
    var ctx := WithGenome(genome, FeaturePrefix(prefix, dialogAnswer));
    var end;
    end, warnings := ParseLines(annotations, ctx, lines, cancel);
    RunByContext(ctx, lines, cancel);
    GenomeNeverRequests(ctx, Parsed(ctx, lines), 0, Start, cancel);
    if end == Cancelled {
      sets := None;
    } else {
      sets := Some([annotations]);
    }
  }
}

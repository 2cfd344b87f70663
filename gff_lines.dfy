/**
 * One iteration of the line loop of GFF3AnnotationParser, as a function
 * shared by its two parseAnnotation drivers: the driver without a genome
 * (chromosomes come from the annotation set's chromosome factory) and the
 * driver with a genome (positions translated through the chromosome's
 * offset, bounds checked, warnings reported, a prefix put on feature types).
 */
module GffLines {
  import opened Results
  import opened Locations
  import opened JavaText
  import opened GffColumns

  /** Which driver runs the step. */
  datatype Context = NoGenome | WithGenome(genome: Genome, prefix: string)

  /** The BamQCExceptions the genome driver reports through progressWarningReceived, with what their messages show. */
  datatype GffWarning =
    | NotEnoughData(line: string)
    | NotAnInteger(startText: string, endText: string)
    | NoSuchChromosome(name: string)
    | BeyondChromosomeEnd(position: int, overrun: int, chromosome: Chromosome)
    | NoKeyValueDelimiter(token: string)

  /**
   * Where the feature of a line goes: to the annotation set at once; as a
   * sub-location into the groups of the given keys, each created around the
   * given feature when absent; or as a new group under a key, replacing any
   * group already there.
   */
  datatype Placement =
    | Direct(feature: Feature)
    | Join(keys: seq<string>, feature: Feature, sub: Location)
    | Store(key: string, feature: Feature)

  /** What the loop does with a line; Fail is an exception that ends the whole parse. */
  datatype LineAction = Skip | Fail | Place(placement: Placement)

  datatype LineResult = LineResult(warnings: seq<GffWarning>, action: LineAction)

  /** The tab-separated sections of a line. */
  function Columns(line: string): seq<string>
  {
    Split(line, Char('\t'))
  }

  /** Blank lines and comment lines are passed over. */
  predicate Ignored(line: string)
  {
    IsBlank(line) || StartsWith(line, "#")
  }

  /** The prefix put on feature types: the one given to the genome driver, none otherwise. */
  function Prefix(ctx: Context): string
  {
    if ctx.WithGenome? then ctx.prefix else ""
  }

  /** Exons are grouped as mRNA, so that they do not become spliced exon features. */
  function GroupType(t: string): string
  {
    if t == "exon" then "mRNA" else t
  }

  /** Column 9 is present and not blank. */
  predicate HasAttributes(sections: seq<string>)
  {
    |sections| > 8 && !IsBlank(sections[8])
  }

  /** The attribute multimap of column 9. */
  function Pairs(sections: seq<string>): map<string, seq<string>>
    requires |sections| > 8
  {
    Attributes(AttributeTokens(sections[8]))
  }

  /** The group keys type_id for each id, in order. */
  function GroupKeys(t: string, ids: seq<string>): (keys: seq<string>)
    ensures |keys| == |ids|
    ensures forall k :: 0 <= k < |ids| ==> keys[k] == t + "_" + ids[k]
  {
    if ids == [] then [] else [t + "_" + ids[0]] + GroupKeys(t, ids[1..])
  }

  /** One warning per attribute token without a key, in the order of the tokens. */
  function DelimiterWarnings(tokens: seq<string>): (w: seq<GffWarning>)
    ensures |w| == |tokens|
    ensures forall k :: 0 <= k < |tokens| ==> w[k] == NoKeyValueDelimiter(tokens[k])
  {
    if tokens == [] then [] else [NoKeyValueDelimiter(tokens[0])] + DelimiterWarnings(tokens[1..])
  }

  /**
   * The grouping decision for a line already located at loc on chromosome:
   * Parent (outside mRNA records), then transcript_id, then ID, then a
   * direct feature.  The genome driver also copies the attributes onto the
   * feature and warns about tokens without a key.
   */
  function Group(ctx: Context, sections: seq<string>, chromosome: string, loc: Location): (r: (seq<GffWarning>, Placement))
    requires |sections| >= 3
    ensures r.1.feature.chromosome == chromosome
    ensures r.1.Join? ==> r.1.sub == loc && r.1.feature.location == Unset
    ensures !r.1.Join? ==> r.1.feature.location == Single(loc)
    ensures r.1.feature.featureType == Prefix(ctx) + (if r.1.Join? then GroupType(sections[2]) else sections[2])
    ensures r.1.Join? <==> (HasAttributes(sections) &&
      (("Parent" in Pairs(sections) && sections[2] != "mRNA") || "transcript_id" in Pairs(sections)))
    ensures r.1.Store? <==> HasAttributes(sections) && !r.1.Join? && "ID" in Pairs(sections)
    ensures r.1.Store? ==> r.1.key == sections[2] + "_" + Pairs(sections)["ID"][0]
    ensures r.1.feature.attributes == if ctx.WithGenome? && HasAttributes(sections) then Pairs(sections) else map[]
    ensures r.0 == if ctx.WithGenome? && HasAttributes(sections) then DelimiterWarnings(Undelimited(AttributeTokens(sections[8]))) else []
  {
    var t, prefix := sections[2], Prefix(ctx);
    if HasAttributes(sections) then
      var tokens := AttributeTokens(sections[8]);
      var pairs := Attributes(tokens);
      var warnings := if ctx.WithGenome? then DelimiterWarnings(Undelimited(tokens)) else [];
      var attributes := if ctx.WithGenome? then pairs else map[];
      if "Parent" in pairs && t != "mRNA" then
        var ids := Split(pairs["Parent"][0], Char(','));
        (warnings, Join(GroupKeys(GroupType(t), ids), Feature(prefix + GroupType(t), chromosome, Unset, attributes), loc))
      else if "transcript_id" in pairs then
        (warnings, Join([GroupType(t) + "_" + pairs["transcript_id"][0]], Feature(prefix + GroupType(t), chromosome, Unset, attributes), loc))
      else if "ID" in pairs then
        (warnings, Store(t + "_" + pairs["ID"][0], Feature(prefix + t, chromosome, Single(loc), attributes)))
      else
        (warnings, Direct(Feature(prefix + t, chromosome, Single(loc), attributes)))
    else
      ([], Direct(Feature(prefix + t, chromosome, Single(loc), map[])))
  }

  /**
   * With a Parent attribute, outside mRNA records, the line joins one group
   * per comma-separated id of the first Parent value, each keyed by the
   * (renamed) type and the id but never by the prefix.
   */
  lemma ParentGroups(ctx: Context, sections: seq<string>, chromosome: string, loc: Location)
    requires HasAttributes(sections) && "Parent" in Pairs(sections) && sections[2] != "mRNA"
    ensures var ids := Split(Pairs(sections)["Parent"][0], Char(','));
      var p := Group(ctx, sections, chromosome, loc).1;
      p.Join? && |p.keys| == |ids| &&
      forall k :: 0 <= k < |ids| ==> p.keys[k] == GroupType(sections[2]) + "_" + ids[k]
  {
  }

  /** Without a usable Parent, a transcript_id puts the line into the one group of its first transcript id. */
  lemma TranscriptGroup(ctx: Context, sections: seq<string>, chromosome: string, loc: Location)
    requires HasAttributes(sections) && !("Parent" in Pairs(sections) && sections[2] != "mRNA")
    requires "transcript_id" in Pairs(sections)
    ensures Group(ctx, sections, chromosome, loc).1 ==
      Join([GroupType(sections[2]) + "_" + Pairs(sections)["transcript_id"][0]],
        Feature(Prefix(ctx) + GroupType(sections[2]), chromosome, Unset, Group(ctx, sections, chromosome, loc).1.feature.attributes), loc)
  {
  }

  /** A line whose start or end column is not an integer: a warning on the genome path, silence otherwise. */
  function NotNumeric(ctx: Context, sections: seq<string>): LineResult
    requires |sections| >= 4 && (ctx.WithGenome? ==> |sections| >= 7)
  {
    if ctx.WithGenome? then LineResult([NotAnInteger(sections[3], sections[4])], Skip) else LineResult([], Skip)
  }

  /** The chromosome lookup, the translation through its offset and the bounds check of the genome driver. */
  function Locate(ctx: Context, sections: seq<string>, start: int, end: int, strand: Strand): LineResult
    requires |sections| >= 5 && start <= end
  {
    match ctx
    case NoGenome =>
      LineResult([], Place(Group(ctx, sections, sections[0], Location(start, end, strand)).1))
    case WithGenome(g, _) =>
      if sections[0] !in g then LineResult([NoSuchChromosome(sections[0])], Skip)
      else
        var c := g[sections[0]];
        var s, e := c.Position(start), c.Position(end);
        if e > c.chromosome.length then LineResult([BeyondChromosomeEnd(e, e - c.chromosome.length, c.chromosome)], Skip)
        else
          var grouped := Group(ctx, sections, c.chromosome.name, Location(s, e, strand));
          LineResult(grouped.0, Place(grouped.1))
  }

  /** The offset a driver adds to positions: that of the named chromosome of the genome, none without one. */
  function Offset(ctx: Context, name: string): int
  {
    if ctx.WithGenome? && name in ctx.genome then ctx.genome[name].offset else 0
  }

  /** The chromosome a feature of the named sequence is on. */
  function ChromosomeName(ctx: Context, name: string): string
  {
    if ctx.WithGenome? && name in ctx.genome then ctx.genome[name].chromosome.name else name
  }

  /** The location a placement records for its line. */
  predicate Carries(p: Placement, loc: Location)
  {
    if p.Join? then p.sub == loc else p.feature.location == Single(loc)
  }

  /** What the loop does with one line. */
  function ParseLine(ctx: Context, line: string): (r: LineResult)
    ensures Ignored(line) ==> r == LineResult([], Skip)
    ensures ctx.NoGenome? ==> r.warnings == []
    ensures r.action == Fail <==> (ctx.NoGenome? && !Ignored(line) &&
      (|Columns(line)| < 4 || (|Columns(line)| == 4 && ParseInt(Columns(line)[3]).Some?)))
    ensures ctx.WithGenome? && !Ignored(line) && |Columns(line)| < 7 ==> r == LineResult([NotEnoughData(line)], Skip)
    ensures !Ignored(line) && |Columns(line)| >= 5 && (ParseInt(Columns(line)[3]).None? || ParseInt(Columns(line)[4]).None?) ==>
      r.action == Skip
  {
    if Ignored(line) then LineResult([], Skip)
    else
      var sections := Columns(line);
      if ctx.WithGenome? && |sections| < 7 then LineResult([NotEnoughData(line)], Skip)
      else if |sections| < 4 then LineResult([], Fail)
      else if ParseInt(sections[3]).None? then NotNumeric(ctx, sections)
      else if |sections| < 5 then LineResult([], Fail)
      else if ParseInt(sections[4]).None? then NotNumeric(ctx, sections)
      else
        var span := Ordered(ParseInt(sections[3]).value, ParseInt(sections[4]).value);
        Locate(ctx, sections, span.0, span.1, ColumnStrand(sections))
  }

  /**
   * A placed line had integer start and end columns (and, on the genome
   * path, seven columns and a known chromosome); its feature lies at those
   * positions put in order and translated by the chromosome's offset, on
   * the strand of column 7, and on the genome path within the chromosome.
   */
  lemma PlacedLine(ctx: Context, line: string)
    requires ParseLine(ctx, line).action.Place?
    ensures
      var cols := Columns(line);
      && !Ignored(line) && |cols| >= 5 && ParseInt(cols[3]).Some? && ParseInt(cols[4]).Some?
      && (ctx.WithGenome? ==> |cols| >= 7 && cols[0] in ctx.genome)
      && var span := Ordered(ParseInt(cols[3]).value, ParseInt(cols[4]).value);
         var loc := Location(span.0 + Offset(ctx, cols[0]), span.1 + Offset(ctx, cols[0]), ColumnStrand(cols));
         && Carries(ParseLine(ctx, line).action.placement, loc)
         && ParseLine(ctx, line).action.placement.feature.chromosome == ChromosomeName(ctx, cols[0])
         && (ctx.WithGenome? ==> loc.end <= ctx.genome[cols[0]].chromosome.length)
  {
    var cols := Columns(line);
    assert !Ignored(line) && |cols| >= 5 && ParseInt(cols[3]).Some? && ParseInt(cols[4]).Some?;
    var span := Ordered(ParseInt(cols[3]).value, ParseInt(cols[4]).value);
    assert ParseLine(ctx, line) == Locate(ctx, cols, span.0, span.1, ColumnStrand(cols));
  }

  /**
   * On the genome path a line with integer positions is dropped with a
   * warning when its chromosome is unknown or its translated end lies
   * beyond the chromosome; otherwise it is placed.
   */
  lemma GenomeChecks(g: Genome, prefix: string, line: string)
    requires !Ignored(line) && |Columns(line)| >= 7
    requires ParseInt(Columns(line)[3]).Some? && ParseInt(Columns(line)[4]).Some?
    ensures var cols, r := Columns(line), ParseLine(WithGenome(g, prefix), line);
      var end := Ordered(ParseInt(cols[3]).value, ParseInt(cols[4]).value).1;
      && (cols[0] !in g ==> r == LineResult([NoSuchChromosome(cols[0])], Skip))
      && (cols[0] in g && g[cols[0]].Position(end) > g[cols[0]].chromosome.length ==>
          r == LineResult([BeyondChromosomeEnd(g[cols[0]].Position(end), g[cols[0]].Position(end) - g[cols[0]].chromosome.length, g[cols[0]].chromosome)], Skip))
      && (cols[0] in g && g[cols[0]].Position(end) <= g[cols[0]].chromosome.length ==> r.action.Place?)
  {
  }

  /**
   * A line written as tab-separated columns is read back column by column:
   * without a genome, any line with integer start and end columns is placed
   * with those positions in order and the strand of column 7.
   */
  lemma ColumnsReadBack(cols: seq<string>, start: int, end: int)
    requires |cols| >= 5 && cols[|cols| - 1] != ""
    requires forall k :: 0 <= k < |cols| ==> '\t' !in cols[k]
    requires !Ignored(JoinWith(cols, '\t'))
    requires ParseInt(cols[3]) == Some(start) && ParseInt(cols[4]) == Some(end)
    ensures var r := ParseLine(NoGenome, JoinWith(cols, '\t'));
      var span := Ordered(start, end);
      r.warnings == [] && r.action.Place? &&
      Carries(r.action.placement, Location(span.0, span.1, ColumnStrand(cols))) &&
      r.action.placement.feature.chromosome == cols[0]
  {
    SplitJoin(cols, '\t');
  }
}

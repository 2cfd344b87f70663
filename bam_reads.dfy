/**
 * The per-record part of BAMFileParser: the SAM record fields the parser
 * reads, its import options, the filter chain at the top of the record loop,
 * and the single-end and paired-end read builders.
 */
module BamReads {
  import opened Locations

  /** The fields of a SAMRecord that the parser consults. */
  datatype SamRecord = SamRecord(
    referenceName: string,
    mateReferenceName: string,
    alignmentStart: int,
    alignmentEnd: int,
    mateAlignmentStart: int,
    cigar: string,
    mappingQuality: int,
    readPaired: bool,
    readUnmapped: bool,
    notPrimaryAlignment: bool,
    mateUnmapped: bool,
    readNegativeStrand: bool,
    mateNegativeStrand: bool,
    firstOfPair: bool,
    secondOfPair: bool)

  /** The import preferences run() copies into fields before reading. */
  datatype ImportOptions = ImportOptions(
    pairedEndImport: bool,
    pairedEndDistance: int,
    separateSplicedReads: bool,
    importIntrons: bool,
    extendBy: int,
    minMappingQuality: int,
    primaryAlignmentsOnly: bool)

  /**
   * A SequenceReadWithChromosome: the chromosome and the position packed by
   * SequenceRead.packPosition, kept here as its three parts.
   */
  datatype Read = Read(chromosome: Chromosome, start: int, end: int, strand: Strand)

  /** The BamQCExceptions the parser turns into warnings, with what their messages report. */
  datatype Warning =
    | SingleEndedDuringPairedImport
    | UnknownChromosome(name: string)
    | BeforeStart(position: int, chromosome: Chromosome)
    | BeyondEnd(position: int, overrun: int, chromosome: Chromosome)
    | CigarUnparsable(cigar: string, operationCount: int, numberCount: int)
    | NotNegativeStrand
    | DiscordantPair
    | PairTooFar(distance: int, cutoff: int)

  /**
   * What a read builder produces: a value, a BamQCException (reported as a
   * warning), or a NumberFormatException on the given text, which no
   * handler in the record loop catches.
   */
  datatype Built<T> = Built(value: T) | Rejected(warning: Warning) | Aborted(badNumber: string)

  /** The outcome of the filter chain. */
  datatype Admission = Admitted | Dropped | DroppedWithWarning(warning: Warning)

  /** True when the record goes to the paired-end builder. */
  predicate PairedMode(o: ImportOptions)
  {
    o.pairedEndImport && !o.separateSplicedReads
  }

  /**
   * The filter chain of the record loop, checked in order; the first test
   * that applies decides.  Only an unpaired record in a paired-end import
   * raises a warning.
   */
  function Admit(r: SamRecord, o: ImportOptions): (a: Admission)
    ensures a.DroppedWithWarning? <==> o.pairedEndImport && !r.readPaired
    ensures a.DroppedWithWarning? ==> a.warning == SingleEndedDuringPairedImport
    ensures a == Admitted ==> !r.readUnmapped
    ensures a == Admitted && o.primaryAlignmentsOnly ==> !r.notPrimaryAlignment
    ensures a == Admitted && o.minMappingQuality > 0 ==> r.mappingQuality >= o.minMappingQuality
    ensures a == Admitted && PairedMode(o) ==>
      r.readPaired && !r.mateUnmapped && r.readNegativeStrand && r.referenceName == r.mateReferenceName
    ensures a == Admitted <==>
      && (o.pairedEndImport ==> r.readPaired)
      && !r.readUnmapped
      && !(o.primaryAlignmentsOnly && r.notPrimaryAlignment)
      && !(PairedMode(o) && r.mateUnmapped)
      && !(o.minMappingQuality > 0 && r.mappingQuality < o.minMappingQuality)
      && !(PairedMode(o) && !r.readNegativeStrand)
      && !(PairedMode(o) && r.referenceName != r.mateReferenceName)
  {
    if o.pairedEndImport && !r.readPaired then DroppedWithWarning(SingleEndedDuringPairedImport)
    else if r.readUnmapped then Dropped
    else if o.primaryAlignmentsOnly && r.notPrimaryAlignment then Dropped
    else if o.pairedEndImport && !o.separateSplicedReads && r.mateUnmapped then Dropped
    else if o.minMappingQuality > 0 && r.mappingQuality < o.minMappingQuality then Dropped
    else if o.pairedEndImport && !o.separateSplicedReads && !r.readNegativeStrand then Dropped
    else if o.pairedEndImport && !o.separateSplicedReads && r.referenceName != r.mateReferenceName then Dropped
    else Admitted
  }

  /**
   * The tail shared by the single-end and paired-end builders: look the
   * reference up in the genome, translate both ends by the chromosome's
   * offset, then reject an end past the chromosome and a start before 1, in
   * that order.
   */
  function Place(g: Genome, name: string, start: int, end: int, strand: Strand): (b: Built<Read>)
    ensures !b.Aborted?
    ensures name !in g ==> b == Rejected(UnknownChromosome(name))
    ensures b.Built? <==>
      name in g && 1 <= g[name].Position(start) && g[name].Position(end) <= g[name].chromosome.length
    ensures b.Built? ==>
      b.value == Read(g[name].chromosome, g[name].Position(start), g[name].Position(end), strand)
    ensures b.Rejected? && name in g && g[name].Position(end) > g[name].chromosome.length ==>
      b.warning.BeyondEnd? && b.warning.position == g[name].Position(end)
  {
    if name !in g then Rejected(UnknownChromosome(name))
    else
      var c := g[name];
      var s := c.Position(start);
      var e := c.Position(end);
      if e > c.chromosome.length then Rejected(BeyondEnd(e, e - c.chromosome.length, c.chromosome))
      else if s < 1 then Rejected(BeforeStart(s, c.chromosome))
      else Built(Read(c.chromosome, s, e, strand))
  }

  /**
   * getSingleEndRead: the strand follows the negative-strand flag; a
   * positive extension moves the 3' end outwards (the end of a forward read,
   * the start of a reverse read) before translation and the bounds checks.
   */
  function SingleEndRead(r: SamRecord, o: ImportOptions, g: Genome): (b: Built<Read>)
    ensures !b.Aborted?
    ensures b.Built? ==> 1 <= b.value.start && b.value.end <= b.value.chromosome.length
    ensures b.Built? ==> b.value.strand == (if r.readNegativeStrand then Reverse else Forward)
    ensures r.referenceName !in g ==> b == Rejected(UnknownChromosome(r.referenceName))
    ensures var ext := if o.extendBy > 0 then o.extendBy else 0;
      var start, end := r.alignmentStart - (if r.readNegativeStrand then ext else 0), r.alignmentEnd + (if r.readNegativeStrand then 0 else ext);
      && (b.Built? <==> r.referenceName in g && 1 <= g[r.referenceName].Position(start) && g[r.referenceName].Position(end) <= g[r.referenceName].chromosome.length)
      && (b.Built? ==> b.value.chromosome == g[r.referenceName].chromosome
                       && b.value.start == g[r.referenceName].Position(start)
                       && b.value.end == g[r.referenceName].Position(end))
  {
    var strand := if r.readNegativeStrand then Reverse else Forward;
    var start := r.alignmentStart;
    var end := r.alignmentEnd;
    var end' := if o.extendBy > 0 && strand == Forward then end + o.extendBy else end;
    var start' := if o.extendBy > 0 && strand == Reverse then start - o.extendBy else start;
    Place(g, r.referenceName, start', end', strand)
  }

  /**
   * Compared with the same record imported without extension, an extended
   * forward read keeps its start and ends extendBy later, and an extended
   * reverse read keeps its end and starts extendBy earlier.
   */
  lemma ExtensionMovesThreePrimeEnd(r: SamRecord, o: ImportOptions, g: Genome)
    requires o.extendBy > 0
    requires SingleEndRead(r, o, g).Built? && SingleEndRead(r, o.(extendBy := 0), g).Built?
    ensures var x, y := SingleEndRead(r, o, g).value, SingleEndRead(r, o.(extendBy := 0), g).value;
      if r.readNegativeStrand then x.end == y.end && x.start == y.start - o.extendBy
      else x.start == y.start && x.end == y.end + o.extendBy
  {
  }

  /**
   * getPairedEndRead: the record must be the negative-strand end of a pair
   * whose mate is on the positive strand and starts no later than this
   * record ends; the fragment runs from the mate's start to this record's
   * end and must be no longer than the distance cutoff, measured before
   * translation.  The strand is reverse for the first read of a pair.
   */
  function PairedEndRead(r: SamRecord, o: ImportOptions, g: Genome): (b: Built<Read>)
    ensures !b.Aborted?
    ensures !r.readNegativeStrand ==> b == Rejected(NotNegativeStrand)
    ensures r.readNegativeStrand && r.mateNegativeStrand ==> b == Rejected(DiscordantPair)
    ensures r.mateAlignmentStart > r.alignmentEnd ==> b.Rejected?
    ensures r.alignmentEnd - r.mateAlignmentStart + 1 > o.pairedEndDistance ==> b.Rejected?
    ensures b.Built? ==>
      && r.readNegativeStrand && !r.mateNegativeStrand
      && r.mateAlignmentStart <= r.alignmentEnd
      && r.alignmentEnd - r.mateAlignmentStart + 1 <= o.pairedEndDistance
      && r.referenceName in g
      && b.value.start == g[r.referenceName].Position(r.mateAlignmentStart)
      && b.value.end == g[r.referenceName].Position(r.alignmentEnd)
      && 1 <= b.value.start && b.value.end <= b.value.chromosome.length
      && b.value.chromosome == g[r.referenceName].chromosome
      && b.value.strand == (if r.firstOfPair then Reverse else Forward)
    ensures b.Built? <==>
      && r.readNegativeStrand && !r.mateNegativeStrand
      && r.mateAlignmentStart <= r.alignmentEnd
      && r.alignmentEnd - r.mateAlignmentStart + 1 <= o.pairedEndDistance
      && r.referenceName in g
      && 1 <= g[r.referenceName].Position(r.mateAlignmentStart)
      && g[r.referenceName].Position(r.alignmentEnd) <= g[r.referenceName].chromosome.length
  {
    if !r.readNegativeStrand then Rejected(NotNegativeStrand)
    else if r.mateNegativeStrand then Rejected(DiscordantPair)
    else
      var end := r.alignmentEnd;
      var start := r.mateAlignmentStart;
      if start > end then Rejected(DiscordantPair)
      else
        var strand := if r.firstOfPair then Reverse else Forward;
        if (end - start) + 1 > o.pairedEndDistance then Rejected(PairTooFar((end - start) + 1, o.pairedEndDistance))
        else Place(g, r.referenceName, start, end, strand)
  }
}

/**
 * The genome-coordinate value types shared by the alignment and annotation
 * parsers: strands, closed intervals, chromosomes, and chromosomes seen
 * through the offset of a concatenated pseudo-genome.
 */
module Locations {

  /** Location.FORWARD, Location.REVERSE and Location.UNKNOWN. */
  datatype Strand = Forward | Reverse | Unknown

  /** A closed interval [start, end] on one strand. */
  datatype Location = Location(start: int, end: int, strand: Strand)

  /** Chromosome: a name and a length; its internals are not part of this model. */
  datatype Chromosome = Chromosome(name: string, length: int)

  /**
   * ChromosomeWithOffset: a chromosome together with the offset at which a
   * source sequence starts inside it.
   */
  datatype ChromosomeWithOffset = ChromosomeWithOffset(chromosome: Chromosome, offset: int)
  {
    /** Translates a position local to the source sequence into a chromosome position. */
    function Position(p: int): int { p + offset }
  }

  /**
   * Genome.getChromosome(name): the reference names the genome resolves.  A
   * name outside the map makes the lookup throw.
   */
  type Genome = map<string, ChromosomeWithOffset>

  /**
   * What Feature.location() holds: nothing set yet, one Location, or a
   * SplitLocation over several spans kept in the order given.
   */
  datatype FeatureLocation = Unset | Single(loc: Location) | Spliced(spans: seq<Location>)

  /**
   * A Feature: its type, the name of its chromosome, its location and its
   * multimap of attributes (Feature.addAttribute appends a value to a key).
   */
  datatype Feature = Feature(
    featureType: string,
    chromosome: string,
    location: FeatureLocation,
    attributes: map<string, seq<string>>)
}

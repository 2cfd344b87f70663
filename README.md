# BamQC core, modelled in Dafny

A model of the logic at the heart of BamQC, a quality-control tool for
sequence alignments, with its properties proved.

- **Alignment import (BAMFileParser).** The filter chain over the SAM flags
  of each record. The dispatch to the paired-end, split or single-end read
  builder. The CIGAR walker that cuts a spliced record into exons or
  introns, using the arithmetic the parser uses (M and I advance by n-1,
  D moves back by n-1, N jumps by n+1). The record and file loops of
  `run()`, with BamQCExceptions reported as warnings and a
  NumberFormatException ending the run.
- **Annotation import (GFF3AnnotationParser).** Both `parseAnnotation`
  drivers share one per-line step: column parsing with the start/end swap
  and the strand, the GFF3/GTF attribute multimap, and the grouping decision
  (Parent, then transcript_id, then ID, then a direct feature). The line
  loop is a method proved equal to a fold over the lines. The final pass
  turns every FeatureGroup into one feature. `String.split` and
  `split("=", 2)` are modelled as Java defines them. `Integer.parseInt`,
  `toLowerCase` and `compareTo` are modelled for ASCII digits and letters
  only; "## Left out" says what that misses.
- **AnnotationSet.** The per-type feature index and the bounded read cache
  that is sorted and flushed when full.
- **The small stateful containers.**
  - ManualGenome: a name-to-chromosome table kept in step with an ordered
    list, with single and batch removal and the table-model getters.
  - ProbeSet: sequential probe numbering and a listener list without
    repeats.
  - DataStore: a lazily allocated per-probe value array.
  - ProgressDialog: the first 5000 warnings kept, the two-press cancel
    button, exception de-duplication.
  - GenomeSpecies: its assembly list.

Objects whose fields the Java updates in place are classes. Loops are
methods proved against recursive specification functions.

The files are:

| file | content |
|---|---|
| `results.dfy` | Option and Result |
| `locations.dfy` | strands, locations, chromosomes, features |
| `java_text.dfy` | String/Integer operations |
| `vectors.dfy` | `java.util.Vector` operations |
| `bam_reads.dfy`, `cigar_walk.dfy`, `bam_import.dfy` | BAMFileParser |
| `gff_columns.dfy`, `gff_lines.dfy`, `gff_groups.dfy`, `gff_driver.dfy` | GFF3AnnotationParser |
| `annotation_index.dfy`, `annotation_set.dfy` | AnnotationSet |
| `manual_genome.dfy` | ManualGenome |
| `probe_set.dfy` | ProbeSet |
| `data_store.dfy` | DataStore |
| `progress_dialog.dfy` | ProgressDialog |
| `genome_species.dfy` | GenomeSpecies |

`getColumnCount` is the constant `ManualGenomes.ColumnCount` (5). `size()`
is `ProbeSets.ProbeSet.Size`, the expected count. `GenomeSpecies.name()`
and `toString()` are the constant field `name`.

## Model

| member | source | states |
|---|---|---|
| BamReads.Admit | uk/ac/babraham/BamQC/DataParsers/BAMFileParser.java:164-199 | the filter chain, first match wins: a record is admitted exactly when it passes every test in order; only an unpaired record in a paired-end import is dropped with the "single ended during paired end import" warning; an admitted paired-end record is negative-strand, has a mapped mate on its own reference |
| BamReads.Place | uk/ac/babraham/BamQC/DataParsers/BAMFileParser.java:466-484 | a read is built exactly when the reference is a genome chromosome and the offset-translated span lies in 1..length; an unknown reference gives its warning, an end past the chromosome the beyond-the-end warning at the translated end; never a fatal error |
| BamReads.SingleEndRead | uk/ac/babraham/BamQC/DataParsers/BAMFileParser.java:419-490 | the read is the record's span on its reference chromosome, translated by the offset, with the end of a forward read raised, or the start of a reverse read lowered, by a positive extendBy; it is built exactly when that span lies within the chromosome; the strand follows the negative-strand flag; an unknown reference is a warning |
| BamReads.ExtensionMovesThreePrimeEnd | uk/ac/babraham/BamQC/DataParsers/BAMFileParser.java:457-464 | against the same record without extension, a forward read ends extendBy later with the same start and a reverse read starts extendBy earlier with the same end |
| BamReads.PairedEndRead | uk/ac/babraham/BamQC/DataParsers/BAMFileParser.java:503-559 | not negative-strand, mate negative-strand, mate start after the end, or fragment longer than the cutoff (before translation) each reject the record; it is built exactly when none of these holds and the translated span lies within the reference chromosome; a built read is on that chromosome, spans mate start to record end translated, and is reverse for the first of a pair |
| BamImport.ImportRecord | uk/ac/babraham/BamQC/DataParsers/BAMFileParser.java:164-237 | one turn of the record loop equals ProcessRecord, the filter chain followed by the builder the options select |
| BamImport.RecordOutcomes | uk/ac/babraham/BamQC/DataParsers/BAMFileParser.java:164-237 | filtered records are skipped or warned exactly as the chain says; emitted reads lie on the record's chromosome, one in-bounds read outside split mode; a fatal outcome only comes from a CIGAR count in split mode |
| BamImport.ImportRecords | uk/ac/babraham/BamQC/DataParsers/BAMFileParser.java:144-239 | the loop over one file's records equals the fold ImportFrom, including where the cancel flag stops it |
| BamImport.CancelKeepsPrefix | uk/ac/babraham/BamQC/DataParsers/BAMFileParser.java:151-155 | a cancel seen before record k reports the same reads and warnings as importing the first k records, then ends Cancelled unless a record already failed |
| BamImport.ImportAppend | uk/ac/babraham/BamQC/DataParsers/BAMFileParser.java:144-239 | importing a + b is importing a and, if a completed, then b |
| BamImport.ImportedReadsPlaced | uk/ac/babraham/BamQC/DataParsers/BAMFileParser.java:212-226 | every read added to the data set lies on a genome chromosome, and within it outside split mode |
| BamImport.ImportDone | uk/ac/babraham/BamQC/DataParsers/BAMFileParser.java:212-237 | without a cancel a file completes exactly when no record throws a NumberFormatException, and is never Cancelled |
| BamImport.Run | uk/ac/babraham/BamQC/DataParsers/BAMFileParser.java:110-257 | run() equals the fold RunFrom over the files: a cancel or a fatal record ends it, otherwise one data set per file |
| BamImport.RunFinishes | uk/ac/babraham/BamQC/DataParsers/BAMFileParser.java:123-256 | without a cancel, run() finishes exactly when no record of any file throws a NumberFormatException |
| BamImport.RunDataSets | uk/ac/babraham/BamQC/DataParsers/BAMFileParser.java:121-256 | a finished run holds one data set per file, each the reads imported from that file |
| CigarWalk.SplitStrand | uk/ac/babraham/BamQC/DataParsers/BAMFileParser.java:281-296 | the split-read strand is reverse exactly when the negative-strand flag differs from (paired and second of pair), and never unknown |
| CigarWalk.WalkStep | uk/ac/babraham/BamQC/DataParsers/BAMFileParser.java:344-382 | one turn of the token loop equals the step function Step: M and I advance the cursor by n-1, D moves it back by n-1, N emits an exon or intron and jumps by n+1 |
| CigarWalk.GetSplitSingleEndRead | uk/ac/babraham/BamQC/DataParsers/BAMFileParser.java:270-409 | the imperative walker equals the specification SplitRead |
| CigarWalk.StepKeeps | uk/ac/babraham/BamQC/DataParsers/BAMFileParser.java:353-382 | a step keeps every read on the chromosome and strand and in bounds, emits one exon per N in exon mode and at most one intron per N in intron mode |
| CigarWalk.WalkFromKeeps | uk/ac/babraham/BamQC/DataParsers/BAMFileParser.java:341-384 | the whole token loop keeps reads well placed, emits one exon per remaining N, at most one intron per N, and fails only on a count token |
| CigarWalk.SplitReadShape | uk/ac/babraham/BamQC/DataParsers/BAMFileParser.java:298-337 | unknown reference is a warning; a start translated before 1 is rejected as before the start; an N CIGAR whose operations and counts do not pair up is rejected as unparsable; a fatal error needs an N and comes from a count token; without N exon mode gives exactly [start, end] translated and intron mode nothing; all reads are on the record's chromosome and split strand |
| CigarWalk.WalkFromCountsIntrons | uk/ac/babraham/BamQC/DataParsers/BAMFileParser.java:356-367 | when the cursor never moves back, exactly one intron per N is emitted, counting the one still pending |
| CigarWalk.SplitReadIntronCount | uk/ac/babraham/BamQC/DataParsers/BAMFileParser.java:341-394 | intron import of a CIGAR without D and with counts of at least 1 gives exactly one intron per N |
| CigarWalk.SplitExonGaps | uk/ac/babraham/BamQC/DataParsers/BAMFileParser.java:341-409 | the exons of a spliced read number one more than the N operations, and exon k+1 starts n+1 bases after exon k ends, n being the count of the k-th N |
| CigarWalk.SplitIntronsBetweenExons | uk/ac/babraham/BamQC/DataParsers/BAMFileParser.java:341-409 | for a CIGAR with no D and no count below 1, when the exon and intron imports of one record both build, there is one intron fewer than exons and intron k spans exactly the bases between exon k and exon k+1, on the same chromosome and strand |
| CigarWalk.ExampleOperations | uk/ac/babraham/BamQC/DataParsers/BAMFileParser.java:332 | splitting 10M5N10M on digit runs gives "", M, N, M |
| CigarWalk.ExampleCounts | uk/ac/babraham/BamQC/DataParsers/BAMFileParser.java:345 | the counts of 10M5N10M parse as 10 and 5 |
| CigarWalk.ExampleNumbers | uk/ac/babraham/BamQC/DataParsers/BAMFileParser.java:333 | splitting 10M5N10M on operation letters gives 10, 5, 10 |
| CigarWalk.ExampleWalk | uk/ac/babraham/BamQC/DataParsers/BAMFileParser.java:341-382 | the walk of 10M5N10M from 100 closes the exon [100, 109] or records lastEnd 109, and ends with the cursor at 124 |
| CigarWalk.SplicedExample | uk/ac/babraham/BamQC/DataParsers/BAMFileParser.java:270-409 | 10M5N10M at 100 on a 1000-base chromosome gives the exons [100, 109] and [115, 124], or the single intron [110, 114] |
| JavaText.DropTrailingEmpty | uk/ac/babraham/BamQC/AnnotationParsers/GFF3AnnotationParser.java:161 | String.split drops trailing empty pieces only: the result is a prefix, ends in a non-empty piece, and everything dropped is empty |
| JavaText.SplitLastNotEmpty | uk/ac/babraham/BamQC/AnnotationParsers/GFF3AnnotationParser.java:161 | a split into more than one piece never ends in an empty piece |
| JavaText.PiecesJoin | uk/ac/babraham/BamQC/AnnotationParsers/GFF3AnnotationParser.java:161 | splitting on a character rebuilds the text when the pieces are joined back with it |
| JavaText.SplitJoin | uk/ac/babraham/BamQC/AnnotationParsers/GFF3AnnotationParser.java:161 | columns without tabs, the last one non-empty, joined by tabs split back into the same columns |
| JavaText.SplitOnce | uk/ac/babraham/BamQC/AnnotationParsers/GFF3AnnotationParser.java:229 | split("=", 2) gives one piece exactly when there is no "=", else the text before the first "=" and the rest, which rebuild the text |
| JavaText.ParseInt | uk/ac/babraham/BamQC/AnnotationParsers/GFF3AnnotationParser.java:189-190 | Integer.parseInt accepts only non-empty text and only values in the 32-bit range |
| JavaText.ParseNatToString | uk/ac/babraham/BamQC/AnnotationParsers/GFF3AnnotationParser.java:189-190 | every non-negative int written in decimal parses back to itself |
| JavaText.ToLower | uk/ac/babraham/BamQC/DataTypes/DataStore.java:240 | lower-casing keeps the length and lowers each character |
| JavaText.CompareToAntisymmetric | uk/ac/babraham/BamQC/DataTypes/DataStore.java:240 | String.compareTo either way round gives opposite answers |
| JavaText.CompareToZero | uk/ac/babraham/BamQC/DataTypes/DataStore.java:240 | String.compareTo is zero exactly for equal strings |
| GffColumns.Ordered | uk/ac/babraham/BamQC/AnnotationParsers/GFF3AnnotationParser.java:192-197 | the positions come out in order, as the same pair or swapped |
| GffColumns.ColumnStrand | uk/ac/babraham/BamQC/AnnotationParsers/GFF3AnnotationParser.java:199-212 | forward exactly for a 7th column "+", reverse exactly for "-", unknown otherwise or with fewer than 7 columns |
| GffColumns.StrandRoundTrip | uk/ac/babraham/BamQC/AnnotationParsers/GFF3AnnotationParser.java:199-212 | writing a strand's symbol in column 7 reads the same strand back |
| GffColumns.KeyValueGff3 | uk/ac/babraham/BamQC/AnnotationParsers/GFF3AnnotationParser.java:229-232 | key=value splits at the first "=" into the key and the whole value |
| GffColumns.KeyValueGtf | uk/ac/babraham/BamQC/AnnotationParsers/GFF3AnnotationParser.java:233-240 | key "value" splits at the space-quote and drops the closing quote, giving key and value |
| GffColumns.Attributes | uk/ac/babraham/BamQC/AnnotationParsers/GFF3AnnotationParser.java:242-250 | every key of the attribute multimap has at least one value |
| GffColumns.AttributesCollect | uk/ac/babraham/BamQC/AnnotationParsers/GFF3AnnotationParser.java:242-250 | a key is in the multimap exactly when some token carries it, with all its values in token order |
| GffColumns.Undelimited | uk/ac/babraham/BamQC/AnnotationParsers/GFF3AnnotationParser.java:520-531 | the tokens reported without a delimiter are tokens of the column that fit neither form, and every such token is reported |
| GffColumns.UndelimitedAppend | uk/ac/babraham/BamQC/AnnotationParsers/GFF3AnnotationParser.java:520-531 | the warnings of a column split in two are those of the first part, then those of the second: they come in column order |
| GffColumns.ParseAttributes | uk/ac/babraham/BamQC/AnnotationParsers/GFF3AnnotationParser.java:223-258 | the attribute loop builds exactly the multimap Attributes and the list of tokens without a delimiter |
| GffLines.GroupKeys | uk/ac/babraham/BamQC/AnnotationParsers/GFF3AnnotationParser.java:274-285 | one group key type_id per parent id, in order |
| GffLines.DelimiterWarnings | uk/ac/babraham/BamQC/AnnotationParsers/GFF3AnnotationParser.java:528-530 | one "no key value delimiter" warning per token without a key, in token order |
| GffLines.Group | uk/ac/babraham/BamQC/AnnotationParsers/GFF3AnnotationParser.java:260-329 | the grouping decision: join groups exactly with Parent outside mRNA or with transcript_id; store a group exactly with ID otherwise; else add directly; the feature type carries the prefix and exon becomes mRNA when joining; attributes are copied and warnings raised on the genome path only |
| GffLines.ParentGroups | uk/ac/babraham/BamQC/AnnotationParsers/GFF3AnnotationParser.java:267-288 | with Parent outside mRNA, the line joins the groups type_id of every comma-separated id of the first Parent value |
| GffLines.TranscriptGroup | uk/ac/babraham/BamQC/AnnotationParsers/GFF3AnnotationParser.java:293-306 | otherwise, with transcript_id, the line joins the one group keyed by the first transcript_id |
| GffLines.ParseLine | uk/ac/babraham/BamQC/AnnotationParsers/GFF3AnnotationParser.java:158-329 | blank and comment lines are skipped; only the plain driver throws, exactly for fewer than 4 columns or 4 with an integer start (the end column is missing), and it never warns; on the genome path fewer than 7 columns give the not-enough-data warning; a non-integer start or end skips the line |
| GffLines.PlacedLine | uk/ac/babraham/BamQC/AnnotationParsers/GFF3AnnotationParser.java:187-219 | a placed line has integer positions, put in order and translated by the offset, the strand of column 7, and on the genome path an end within the chromosome |
| GffLines.GenomeChecks | uk/ac/babraham/BamQC/AnnotationParsers/GFF3AnnotationParser.java:434-492 | on the genome path an unknown chromosome and a translated end past the chromosome each give their warning and skip the line; otherwise the line is placed |
| GffLines.ColumnsReadBack | uk/ac/babraham/BamQC/AnnotationParsers/GFF3AnnotationParser.java:161-217 | without a genome, tab-joined columns with integer start and end are placed with those positions in order and the strand of column 7 |
| GffGroups.FinalLocation | uk/ac/babraham/BamQC/AnnotationParsers/GFF3AnnotationParser.java:717-728 | no sub-location keeps the stored location; otherwise the spans are the sub-locations in order, a single location exactly when there is one |
| GffGroups.FeatureGroup.constructor | uk/ac/babraham/BamQC/AnnotationParsers/GFF3AnnotationParser.java:698-701 | a new group holds the feature and the location and no sub-locations |
| GffGroups.FeatureGroup.AddSublocation | uk/ac/babraham/BamQC/AnnotationParsers/GFF3AnnotationParser.java:708-710 | the location is appended to the sub-locations |
| GffGroups.FeatureGroup.Finish | uk/ac/babraham/BamQC/AnnotationParsers/GFF3AnnotationParser.java:717-728 | the feature takes the final location of the group and is returned |
| GffGroups.StoreGroup | uk/ac/babraham/BamQC/AnnotationParsers/GFF3AnnotationParser.java:313-316 | a put: the key holds a fresh group without sub-locations, overwriting any old one; other keys are untouched |
| GffGroups.JoinAllGroups | uk/ac/babraham/BamQC/AnnotationParsers/GFF3AnnotationParser.java:274-287 | joining keys creates missing groups and appends the location once per occurrence of the key; other groups are untouched |
| GffGroups.JoinAllListed | uk/ac/babraham/BamQC/AnnotationParsers/GFF3AnnotationParser.java:280-284 | joining keeps every group listed once in first-put order |
| GffGroups.PlaceGroupsListed | uk/ac/babraham/BamQC/AnnotationParsers/GFF3AnnotationParser.java:267-329 | placing a line keeps every group listed once in first-put order |
| GffGroups.EveryGroupOnce | uk/ac/babraham/BamQC/AnnotationParsers/GFF3AnnotationParser.java:337-340 | the final pass adds every group exactly once, each finished |
| GffGroups.Emission | uk/ac/babraham/BamQC/AnnotationParsers/GFF3AnnotationParser.java:337-340 | the final pass gives one feature per listed group |
| GffGroups.EmissionAt | uk/ac/babraham/BamQC/AnnotationParsers/GFF3AnnotationParser.java:337-340 | the j-th feature of the final pass is the j-th listed group, finished |
| GffGroups.JoinedGroupSpans | uk/ac/babraham/BamQC/AnnotationParsers/GFF3AnnotationParser.java:274-287 | a group created by joining spans the joined location once per occurrence of its key and has the line's type |
| GffGroups.AddTo | uk/ac/babraham/BamQC/AnnotationParsers/GFF3AnnotationParser.java:285 | appending a sub-location changes only that group's sub-locations |
| GffGroups.JoinKey | uk/ac/babraham/BamQC/AnnotationParsers/GFF3AnnotationParser.java:280-285 | get-or-create then append for one key, on the FeatureGroup objects, equals the value-level step |
| GffGroups.JoinGroups | uk/ac/babraham/BamQC/AnnotationParsers/GFF3AnnotationParser.java:274-287 | the loop over the parent keys equals JoinAll on the groups' values |
| GffGroups.FinishGroups | uk/ac/babraham/BamQC/AnnotationParsers/GFF3AnnotationParser.java:337-340 | finishing the listed groups in order gives exactly the final pass Emission |
| GffDriver.Requested | uk/ac/babraham/BamQC/AnnotationParsers/GFF3AnnotationParser.java:219 | after getChromosome for each name, the factory holds the old chromosomes unchanged plus an empty one per new name |
| GffDriver.RunEnds | uk/ac/babraham/BamQC/AnnotationParsers/GFF3AnnotationParser.java:131-332 | a run fails only at a line that throws, is cancelled only when the flag is seen before the end, and otherwise read every line without a throw |
| GffDriver.ApplyParts | uk/ac/babraham/BamQC/AnnotationParsers/GFF3AnnotationParser.java:219-329 | one line adds its direct feature and its warnings, places its groups, and requests its chromosome on the plain path only |
| GffDriver.RunListed | uk/ac/babraham/BamQC/AnnotationParsers/GFF3AnnotationParser.java:122-340 | the groups stay listed once each in first-put order through the whole run |
| GffDriver.RunEmitted | uk/ac/babraham/BamQC/AnnotationParsers/GFF3AnnotationParser.java:319-330 | a completed run adds the features of ungrouped lines directly, in file order |
| GffDriver.RunWarned | uk/ac/babraham/BamQC/AnnotationParsers/GFF3AnnotationParser.java:391-634 | a completed run reports the warnings of every line, in file order |
| GffDriver.RunQuiet | uk/ac/babraham/BamQC/AnnotationParsers/GFF3AnnotationParser.java:131-332 | when no line warns the run warns nothing, however it ends |
| GffDriver.GenomeNeverRequests | uk/ac/babraham/BamQC/AnnotationParsers/GFF3AnnotationParser.java:475-482 | with a genome no chromosome is asked of the set's own factory |
| GffDriver.ParsedLines | uk/ac/babraham/BamQC/AnnotationParsers/GFF3AnnotationParser.java:367-646 | without a genome no line warns; with a genome no line throws |
| GffDriver.RunByContext | uk/ac/babraham/BamQC/AnnotationParsers/GFF3AnnotationParser.java:367-646 | the genome driver never fails and is cancelled exactly when the flag is seen before the end; the plain driver reports nothing |
| GffDriver.GroupLine | uk/ac/babraham/BamQC/AnnotationParsers/GFF3AnnotationParser.java:267-321 | the grouping of one line on the FeatureGroup objects equals PlaceGroups on their values |
| GffDriver.AnnotateLine | uk/ac/babraham/BamQC/AnnotationParsers/GFF3AnnotationParser.java:219-329 | the chromosome is requested (plain driver) and an ungrouped feature added to the set |
| GffDriver.PlaceLine | uk/ac/babraham/BamQC/AnnotationParsers/GFF3AnnotationParser.java:219-329 | a placed line updates the set and the groups exactly as the fold step Apply says |
| GffDriver.AddAll | uk/ac/babraham/BamQC/AnnotationParsers/GFF3AnnotationParser.java:337-340 | adding features one by one appends them to the set in order |
| GffDriver.TakeLine | uk/ac/babraham/BamQC/AnnotationParsers/GFF3AnnotationParser.java:131-332 | one line of the loop moves the set, the groups and the warnings from progress p to Apply(p, line) |
| GffDriver.ReadLines | uk/ac/babraham/BamQC/AnnotationParsers/GFF3AnnotationParser.java:131-332 | the line loop over the lines parsed in file order (Parsed, each line through ParseLine) ends as the fold RunFrom says, with the set, groups and warnings it describes |
| GffDriver.FinalPass | uk/ac/babraham/BamQC/AnnotationParsers/GFF3AnnotationParser.java:336-340 | every group, in first-put order, is finished and added to the set |
| GffDriver.ParseLines | uk/ac/babraham/BamQC/AnnotationParsers/GFF3AnnotationParser.java:131-340 | loop then final pass over Parsed, every line of the file through ParseLine in order: the set gains the direct features, then the finished groups only when every line was read |
| GffDriver.ParseAnnotation | uk/ac/babraham/BamQC/AnnotationParsers/GFF3AnnotationParser.java:118-349 | sets the file; throws exactly when a line throws, leaving the direct features added so far and no group |
| GffDriver.ParseAnnotationWithGenome | uk/ac/babraham/BamQC/AnnotationParsers/GFF3AnnotationParser.java:367-646 | returns no sets exactly when the flag is seen before the end, else the one set with every direct and grouped feature; the factory is untouched |
| AnnotationIndex.InsertSorted | uk/ac/babraham/BamQC/DataTypes/Genome/AnnotationSet.java:150 | inserting into a sorted list keeps it sorted under a total order |
| AnnotationIndex.SortReads | uk/ac/babraham/BamQC/DataTypes/Genome/AnnotationSet.java:150 | Collections.sort keeps the reads as a permutation |
| AnnotationIndex.SortReadsSorted | uk/ac/babraham/BamQC/DataTypes/Genome/AnnotationSet.java:150 | Collections.sort leaves the reads sorted under a total order |
| AnnotationIndex.FirstOfTypeIsEarliest | uk/ac/babraham/BamQC/DataTypes/Genome/AnnotationSet.java:102-105 | the first feature of a type is the earliest added of that type |
| AnnotationIndex.AddKeepsIndex | uk/ac/babraham/BamQC/DataTypes/Genome/AnnotationSet.java:96-115 | addFeature keeps the classes and allFeatures in agreement with the features added |
| AnnotationIndex.ForwardHeads | uk/ac/babraham/BamQC/DataTypes/Genome/AnnotationSet.java:102-106 | a feature opens a class and joins allFeatures exactly when its type is new |
| AnnotationIndex.DeliverToClasses | uk/ac/babraham/BamQC/DataTypes/Genome/AnnotationSet.java:169-171 | each captured feature class is given the read |
| AnnotationIndex.ReadsOnAbsent | uk/ac/babraham/BamQC/DataTypes/Genome/AnnotationSet.java:162-165 | a chromosome created after every processed read was routed holds no read |
| AnnotationIndex.ClassesAreAddedTypes | uk/ac/babraham/BamQC/DataTypes/Genome/AnnotationSet.java:124-130 | the registered types are exactly the types added, and there is one exactly when a feature was added |
| AnnotationIndex.HeadsAreFirsts | uk/ac/babraham/BamQC/DataTypes/Genome/AnnotationSet.java:102-119 | allFeatures holds exactly the first feature added of each type |
| Annotation.AnnotationSet.constructor | uk/ac/babraham/BamQC/DataTypes/Genome/AnnotationSet.java:50-62 | a new set has no file, chromosomes, classes, features, captured classes or cached reads |
| Annotation.AnnotationSet.SetFile | uk/ac/babraham/BamQC/DataTypes/Genome/AnnotationSet.java:88-90 | the file is set |
| Annotation.AnnotationSet.GetChromosome | uk/ac/babraham/BamQC/DataTypes/Genome/AnnotationSet.java:92-94 | the factory gets-or-creates the chromosome, leaving the others unchanged |
| Annotation.AnnotationSet.AddFeature | uk/ac/babraham/BamQC/DataTypes/Genome/AnnotationSet.java:96-115 | the feature is forwarded to its type's class, created when new, and only then added to allFeatures |
| Annotation.AnnotationSet.GetAllFeatures | uk/ac/babraham/BamQC/DataTypes/Genome/AnnotationSet.java:118-120 | exactly the first feature added of each type |
| Annotation.AnnotationSet.HasFeatures | uk/ac/babraham/BamQC/DataTypes/Genome/AnnotationSet.java:124-126 | true exactly when a feature was added |
| Annotation.AnnotationSet.ListFeatureTypes | uk/ac/babraham/BamQC/DataTypes/Genome/AnnotationSet.java:128-130 | exactly the types of the features added |
| Annotation.AnnotationSet.ProcessCachedSequence | uk/ac/babraham/BamQC/DataTypes/Genome/AnnotationSet.java:161-172 | a read not on "*" goes to its chromosome; the classes are captured on the first read and every captured class gets the read |
| AnnotationIndex.RouteAllGrows | uk/ac/babraham/BamQC/DataTypes/Genome/AnnotationSet.java:161-165 | routing reads never removes a chromosome, and every read not on "*" has its chromosome afterwards |
| AnnotationIndex.OfTypeFilters | uk/ac/babraham/BamQC/DataTypes/Genome/AnnotationSet.java:102-106 | the features of a class are exactly the added features of its type: each has the type and was added, and every added feature of the type is among them |
| Annotation.AnnotationSet.ProcessedKeepsConsistent | uk/ac/babraham/BamQC/DataTypes/Genome/AnnotationSet.java:161-172 | processing a read keeps the feature index and the read routing consistent |
| Annotation.AnnotationSet.ProcessSequenceNoCache | uk/ac/babraham/BamQC/DataTypes/Genome/AnnotationSet.java:137-140 | the read is processed at once: it is received and processed, goes to its chromosome unless it is on "*", the classes present are captured if none were yet, and every captured class is given the read |
| Annotation.AnnotationSet.ProcessInOrder | uk/ac/babraham/BamQC/DataTypes/Genome/AnnotationSet.java:152-154 | processing reads in order routes each to its chromosome, captures the classes on the first read (nothing changes when there are no reads) and gives every captured class the reads in that order |
| Annotation.AnnotationSet.Flush | uk/ac/babraham/BamQC/DataTypes/Genome/AnnotationSet.java:149-157 | the cache is processed in sorted order and emptied; chromosomes are routed every sorted read and none is lost; a non-empty cache captures the classes if none were yet, and the captured classes are given the sorted reads; an empty cache changes nothing else |
| Annotation.AnnotationSet.ProcessSequence | uk/ac/babraham/BamQC/DataTypes/Genome/AnnotationSet.java:143-159 | below the cache size the read is cached and chromosomes, captured classes and classes are unchanged; at the cache size the cache is sorted, processed (chromosomes routed, classes captured and given the sorted reads) and emptied and the read itself is dropped; the cache never exceeds its size |
| Annotation.AnnotationSet.CacheKeepsReads | uk/ac/babraham/BamQC/DataTypes/Genome/AnnotationSet.java:143-159 | every read received is processed, cached or dropped |
| Annotation.LostReadExample | uk/ac/babraham/BamQC/DataTypes/Genome/AnnotationSet.java:146-158 | with a cache of one, the second read is neither processed nor cached |
| Annotation.AnnotationSet.ProcessSequenceKeepingRead | uk/ac/babraham/BamQC/DataTypes/Genome/AnnotationSet.java:143-159 | the corrected cache step: the read is cached, leaving chromosomes and classes unchanged, and the cache is flushed, with the read, when it becomes full (chromosomes routed, classes captured and given the sorted reads); nothing is dropped |
| Annotation.AnnotationSet.NothingLost | uk/ac/babraham/BamQC/DataTypes/Genome/AnnotationSet.java:143-159 | when nothing was dropped every read received has been processed or is cached |
| Annotation.KeptReadExample | uk/ac/babraham/BamQC/DataTypes/Genome/AnnotationSet.java:143-159 | with a cache of one, the corrected step processes both reads |
| ManualGenomes.ManualGenomeChromosome.constructor | uk/ac/babraham/BamQC/Displays/ManualGenomeBuilder/ManualGenome.java:39 | a new chromosome carries its name |
| Vectors.IndexOf | uk/ac/babraham/BamQC/Displays/ManualGenomeBuilder/ManualGenome.java:64 | Vector.indexOf: the first position of the element, -1 exactly when absent |
| ManualGenomes.KeepIsWithout | uk/ac/babraham/BamQC/Displays/ManualGenomeBuilder/ManualGenome.java:68-70 | removing the positions of the deleted chromosomes is removing those chromosomes |
| ManualGenomes.KeepRemove | uk/ac/babraham/BamQC/Displays/ManualGenomeBuilder/ManualGenome.java:69 | removing one more position below the removed ones, from the back, removes that position of the original |
| ManualGenomes.SortInts | uk/ac/babraham/BamQC/Displays/ManualGenomeBuilder/ManualGenome.java:67 | Arrays.sort: ascending and a permutation |
| ManualGenomes.Insert | uk/ac/babraham/BamQC/Displays/ManualGenomeBuilder/ManualGenome.java:67 | inserting into an ascending list keeps it ascending and adds exactly the element |
| ManualGenomes.SortedDistinct | uk/ac/babraham/BamQC/Displays/ManualGenomeBuilder/ManualGenome.java:67 | sorting distinct indices gives a strictly ascending list of the same indices |
| ManualGenomes.ColumnName | uk/ac/babraham/BamQC/Displays/ManualGenomeBuilder/ManualGenome.java:153-165 | a name exactly for columns 0..4 |
| ManualGenomes.IsCellEditable | uk/ac/babraham/BamQC/Displays/ManualGenomeBuilder/ManualGenome.java:173-176 | editable exactly in the Length column |
| ManualGenomes.ManualGenome.constructor | uk/ac/babraham/BamQC/Displays/ManualGenomeBuilder/ManualGenome.java:33-35 | no chromosomes, no names, no pseudo-genome |
| ManualGenomes.ManualGenome.GetChromosome | uk/ac/babraham/BamQC/Displays/ManualGenomeBuilder/ManualGenome.java:37-47 | get-or-create: an existing name returns its chromosome and changes nothing; a new name appends a fresh chromosome to the list and the table |
| ManualGenomes.ManualGenome.ChromosomeAt | uk/ac/babraham/BamQC/Displays/ManualGenomeBuilder/ManualGenome.java:49-51 | the chromosome at a row is in the list and registered under its name |
| ManualGenomes.ManualGenome.RowCount | uk/ac/babraham/BamQC/Displays/ManualGenomeBuilder/ManualGenome.java:168-170 | the row count is the number of names registered |
| ManualGenomes.ManualGenome.NamesCount | uk/ac/babraham/BamQC/Displays/ManualGenomeBuilder/ManualGenome.java:168-170 | the list is exactly as long as the name table |
| ManualGenomes.ManualGenome.ValueAt | uk/ac/babraham/BamQC/Displays/ManualGenomeBuilder/ManualGenome.java:203-213 | a value exactly for columns 0..4; column 0 the name; column 4 "Yes" exactly when the chromosome has features, else "No" |
| ManualGenomes.ManualGenome.RemoveChromosome | uk/ac/babraham/BamQC/Displays/ManualGenomeBuilder/ManualGenome.java:53-59 | the chromosome leaves the list, the others keeping their order, and its name leaves the table |
| ManualGenomes.ManualGenome.RemoveChromosomes | uk/ac/babraham/BamQC/Displays/ManualGenomeBuilder/ManualGenome.java:61-74 | every given chromosome leaves the list, the survivors keeping their order, and their names leave the table; list and table stay in agreement |
| ManualGenomes.ManualGenome.LookUpRows | uk/ac/babraham/BamQC/Displays/ManualGenomeBuilder/ManualGenome.java:62-66 | each index is the row of the given chromosome, and its name is removed |
| ManualGenomes.ManualGenome.IndicesAreRows | uk/ac/babraham/BamQC/Displays/ManualGenomeBuilder/ManualGenome.java:63-64 | the indices are distinct rows, and a row is among them exactly when its chromosome is to be deleted |
| ManualGenomes.ManualGenome.SortedRows | uk/ac/babraham/BamQC/Displays/ManualGenomeBuilder/ManualGenome.java:67 | sorted indices are strictly ascending rows, the same set |
| ManualGenomes.ManualGenome.RemoveRows | uk/ac/babraham/BamQC/Displays/ManualGenomeBuilder/ManualGenome.java:68-70 | removing the sorted rows from the last down removes exactly those positions |
| ManualGenomes.ManualGenome.RemovedRows | uk/ac/babraham/BamQC/Displays/ManualGenomeBuilder/ManualGenome.java:68-70 | removing the rows is removing the chromosomes, and list and table stay in agreement |
| ManualGenomes.ManualGenome.RemovalKeepsValid | uk/ac/babraham/BamQC/Displays/ManualGenomeBuilder/ManualGenome.java:61-74 | removing present chromosomes and their names keeps list and table in agreement |
| ManualGenomes.ManualGenome.RemovePseudoGenome | uk/ac/babraham/BamQC/Displays/ManualGenomeBuilder/ManualGenome.java:126-134 | no-op without a pseudo-genome; otherwise it is dropped and every chromosome loses its pseudo-chromosome name and offset |
| ManualGenomes.ManualGenome.AddPseudoGenome | uk/ac/babraham/BamQC/Displays/ManualGenomeBuilder/ManualGenome.java:136-138 | a pseudo-genome of the given size is set |
| ManualGenomes.ManualGenome.UpdatePseudoGenome | uk/ac/babraham/BamQC/Displays/ManualGenomeBuilder/ManualGenome.java:140-144 | the pseudo-genome, if any, keeps its chromosome count |
| ProbeSets.ProbeSet.FromProbes | uk/ac/babraham/BamQC/DataTypes/Probes/ProbeSet.java:58-61 | named "All Probes", every probe numbered by its position, size the number of probes |
| ProbeSets.ProbeSet.Expecting | uk/ac/babraham/BamQC/DataTypes/Probes/ProbeSet.java:69-78 | named "All Probes", empty, reporting the expected size |
| ProbeSets.ProbeSet.AddProbe | uk/ac/babraham/BamQC/DataTypes/Probes/ProbeSet.java:84-99 | the probe gets the current counter as its index and the counter moves on; the reported size is unchanged |
| ProbeSets.ProbeSet.SetProbes | uk/ac/babraham/BamQC/DataTypes/Probes/ProbeSet.java:110-120 | the counter restarts, each probe gets its (last) position as index, and size becomes n |
| ProbeSets.LastAt | uk/ac/babraham/BamQC/DataTypes/Probes/ProbeSet.java:113-118 | the last position of an element before i, or -1 |
| ProbeSets.LastAtDistinct | uk/ac/babraham/BamQC/DataTypes/Probes/ProbeSet.java:113-118 | without repeats the probes are numbered 0..n-1 in order |
| ProbeSets.Unvalued | uk/ac/babraham/BamQC/DataTypes/Probes/ProbeSet.java:116-118 | setProbes hands on one value-less entry per probe |
| ProbeSets.UnvaluedEntries | uk/ac/babraham/BamQC/DataTypes/Probes/ProbeSet.java:116-118 | entry k of what setProbes hands on is probe k, with no value |
| ProbeSets.ProbeSet.Description | uk/ac/babraham/BamQC/DataTypes/Probes/ProbeSet.java:126-132 | the plain description, extended exactly when a quantitation is set, and always starting with the plain one |
| ProbeSets.ProbeSet.SetCurrentQuantitation | uk/ac/babraham/BamQC/DataTypes/Probes/ProbeSet.java:138-140 | the quantitation is set |
| ProbeSets.ProbeSet.SetActiveList | uk/ac/babraham/BamQC/DataTypes/Probes/ProbeSet.java:158-169 | the active list is set; null clears it so the whole set is active |
| ProbeSets.ProbeSet.GetActiveList | uk/ac/babraham/BamQC/DataTypes/Probes/ProbeSet.java:176-181 | the active list when one is set, else the set itself |
| ProbeSets.ProbeSet.AddProbeSetChangeListener | uk/ac/babraham/BamQC/DataTypes/Probes/ProbeSet.java:189-193 | null and present listeners are ignored, others appended; no listener twice |
| ProbeSets.ProbeSet.RemoveProbeSetChangeListener | uk/ac/babraham/BamQC/DataTypes/Probes/ProbeSet.java:200-204 | null ignored; the listener leaves the list, the others keep their order; no listener twice |
| Vectors.RemoveFirstWithout | uk/ac/babraham/BamQC/DataTypes/Probes/ProbeSet.java:202 | in a list without repeats, Vector.remove of an element is filtering it out |
| Vectors.WithoutDistinct | uk/ac/babraham/BamQC/DataTypes/Probes/ProbeSet.java:200-204 | removing listeners keeps the list without repeats |
| Vectors.WithoutMembers | uk/ac/babraham/BamQC/DataTypes/Probes/ProbeSet.java:200-204 | a listener remains exactly when it was present and not removed |
| ProbeSets.ProbeSet.SetCollection | uk/ac/babraham/BamQC/DataTypes/Probes/ProbeSet.java:101-103 | the collection is set |
| ProbeSets.ProbeSet.Delete | uk/ac/babraham/BamQC/DataTypes/Probes/ProbeSet.java:210-218 | no listeners remain and the collection is dropped |
| DataStores.DataStore.constructor | uk/ac/babraham/BamQC/DataTypes/DataStore.java:36-54 | the name is set, no values, size 0, no collection |
| DataStores.DataStore.ResetAllProbeValues | uk/ac/babraham/BamQC/DataTypes/DataStore.java:164-166 | the values are dropped |
| DataStores.DataStore.SetValueForProbe | uk/ac/babraham/BamQC/DataTypes/DataStore.java:174-179 | allocates a zeroed array of probeDataSize on first use; afterwards the probe's value reads back and every other entry is unchanged |
| DataStores.DataStore.HasValueForProbe | uk/ac/babraham/BamQC/DataTypes/DataStore.java:187-192 | true exactly when a lookup succeeds |
| DataStores.DataStore.GetValueForProbe | uk/ac/babraham/BamQC/DataTypes/DataStore.java:201-209 | no array gives the no-quantitation error, an index past the end the out-of-range error, else the stored value |
| DataStores.DataStore.ProbeSetReplaced | uk/ac/babraham/BamQC/DataTypes/DataStore.java:216-224 | the values are dropped and the next array takes the set's size, 0 without one |
| DataStores.DataStore.SetName | uk/ac/babraham/BamQC/DataTypes/DataStore.java:148-150 | the name is set |
| DataStores.DataStore.SetCollection | uk/ac/babraham/BamQC/DataTypes/DataStore.java:61-63 | the collection is set |
| DataStores.DataStore.CompareTo | uk/ac/babraham/BamQC/DataTypes/DataStore.java:238-241 | zero exactly when the lower-cased names agree |
| DataStores.StoresCompareAntisymmetric | uk/ac/babraham/BamQC/DataTypes/DataStore.java:238-241 | comparing two stores either way round gives opposite answers |
| DataStores.CaseBlindNames | uk/ac/babraham/BamQC/DataTypes/DataStore.java:238-241 | names that differ only in letter case compare equal |
| ProgressDialogs.Retained | uk/ac/babraham/BamQC/Dialogs/ProgressDialog.java:244-252 | the warnings kept are the first min(n, 5000) received, in arrival order |
| ProgressDialogs.RetainedAppend | uk/ac/babraham/BamQC/Dialogs/ProgressDialog.java:244-252 | one more warning is kept exactly while fewer than 5000 are |
| ProgressDialogs.ProgressDialog.constructor | uk/ac/babraham/BamQC/Dialogs/ProgressDialog.java:149-171 | empty label, progress 0 of 1, no warnings, not cancelled, no exception, shown |
| ProgressDialogs.ProgressDialog.SetIgnoreExceptions | uk/ac/babraham/BamQC/Dialogs/ProgressDialog.java:173-175 | the flag is set |
| ProgressDialogs.ProgressDialog.ProgressUpdated | uk/ac/babraham/BamQC/Dialogs/ProgressDialog.java:191-197 | the label and the counters take the given values |
| ProgressDialogs.ProgressDialog.ProgressExceptionReceived | uk/ac/babraham/BamQC/Dialogs/ProgressDialog.java:203-214 | the same exception again is ignored; another is recorded and closes the dialog |
| ProgressDialogs.ProgressDialog.ProgressCancelled | uk/ac/babraham/BamQC/Dialogs/ProgressDialog.java:221-224 | the dialog closes |
| ProgressDialogs.ProgressDialog.ProgressComplete | uk/ac/babraham/BamQC/Dialogs/ProgressDialog.java:230-238 | the dialog closes and shows the warnings, with their total count, exactly when any arrived |
| ProgressDialogs.ProgressDialog.ProgressWarningReceived | uk/ac/babraham/BamQC/Dialogs/ProgressDialog.java:244-252 | every warning is counted, and kept only while at most 5000 are counted |
| ProgressDialogs.ProgressDialog.ActionPerformed | uk/ac/babraham/BamQC/Dialogs/ProgressDialog.java:258-274 | the first press calls cancel() once and sets hasCancelled; later presses close the dialog and never call cancel() again |
| DownloadableGenomes.GenomeSpecies.constructor | uk/ac/babraham/BamQC/Network/DownloadableGenomes/GenomeSpecies.java:29-31 | the name is the argument, fixed for good; no assemblies |
| DownloadableGenomes.GenomeSpecies.AddAssembly | uk/ac/babraham/BamQC/Network/DownloadableGenomes/GenomeSpecies.java:42-46 | null is ignored; any other assembly is appended |
| DownloadableGenomes.GenomeSpecies.Assemblies | uk/ac/babraham/BamQC/Network/DownloadableGenomes/GenomeSpecies.java:48-50 | a fresh array of the assemblies in the order they were added |

## Left out

**Input, output and the UI**
- File and record I/O are left out. The BAM loop takes each file as a sequence of records. The GFF drivers take the file as a sequence of lines: `ParseLine` is pure, so `GffDriver.ReadLines` loops over the lines already parsed.
- The sampling in `setOptionsFromFile` is left out.
- Progress callbacks from the parsers (`progressUpdated`, the "Caching" messages) and log output are left out.
- All Swing parts of ProgressDialog are left out: layout, repaint, `dispose`, `printStackTrace`, the thread sleep, and the WarningDisplayDialog window itself. `ProgressComplete` returns what that window would show.
- `fireTable*` notifications in ManualGenome are left out.
- `writeGenomeFiles` (file output), `getColumnClass` and `setValueAt` are left out.
- `collection.activeProbeListChanged` and the listener broadcasts of ProbeSet are left out. They call into classes outside this model.

**External state and the environment**
- The cancel flag, set by another thread, is a parameter: the position at whose start the flag is first seen.
- The answer to the feature-prefix dialog is a parameter.
- The genome, the chromosome offsets (position is p + offset) and the ShortRead order are parameters.
- Java `HashMap`/`Hashtable` iteration order in the GFF final pass is modelled as the order in which keys were first put.
- Java `int` overflow is not modelled: integers are unbounded (read positions, `warningCount`, `indexCount`).
- `float` probe values are `real`; they are only stored and read back.

**Java text**
- JavaText.ParseInt: accepts ASCII digits only. Java's `Integer.parseInt` also accepts every other Unicode decimal digit (through `Character.digit`), so GFF columns 4 and 5 or CIGAR counts written in such digits parse in Java and fail in the model.
- JavaText.ToLower: lowers the ASCII letters A-Z only. Java's `toLowerCase` lowers every Unicode letter under the default locale.
- JavaText.CompareTo: compares Unicode scalar values, where Java compares UTF-16 code units. The sign differs between a character above U+FFFF and one in U+E000..U+FFFF.
- DataStores.DataStore.CompareTo: built on ToLower, so names that differ only in the case of a non-ASCII letter (say "Étude" and "étude") compare non-zero, where Java returns 0.
- DataStores.CaseBlindNames: "letter case" means ASCII case only, for the same reason.

**BAM import**
- HiC import (`isHiC`, `skipNext`, PairedDataSet) is left out.
- The reference-equality test on the mate reference name at BAMFileParser.java:203-210 is treated as never taken.
- BamImport.CancelKeepsPrefix: a flag raised after the last record of a file is never seen, because the loop ends first, so the lemma covers cancels before the end.
- CigarWalk.SplitReadIntronCount: one intron per N is proved only when no D and no count below 1 occur. Otherwise the cursor can reach 0 or below, and the code then skips the intron after that exon, so only "at most one intron per N" holds (`CigarWalk.WalkFromKeeps`).

**Annotation**
- The annotation-set rotation every 1,000,000 lines is left out. `AnnotationSet(genome, name)` and `finalise()` exist only in commented-out code, so the genome driver takes its set from the caller.
- FeatureClass, Chromosome and Feature internals are not part of this model. A class is the sequence of features and reads forwarded to it; a chromosome is the sequence of reads it was given.
- FeatureGroup's strand argument is not stored; the Java constructor ignores it too.
- Reads left in the cache at the end of a run stay there; nothing in the shown code flushes them.

**Containers**
- ManualGenomeChromosome, ManualPseudoGenome, ProbeList, Probe, DataCollection and GenomeAssembly are kept only as far as the core touches them.
  - `updatePseudoGenome` keeps only the chromosome count.
  - `setPseudoChromosome(null, 0)` is modelled as the two field writes.
- ManualGenomes.ManualGenome.RemoveChromosomes: requires that every given chromosome is present and that none is given twice. With an absent one, Java's `indexOf` gives -1 and `remove(-1)` throws. A chromosome given twice puts its row in the indices twice, so Java removes the row that follows it as well, or throws when it is the last row. The only caller, ManualGenomeBuilderPanel.java:213-221, passes the chromosomes of the selected table rows, which are present and distinct.
- ManualGenomes.ManualGenome.RemoveChromosome: list and table are proved to stay in agreement only when the chromosome is in the list or its name is absent. The Java removes the name even for a different chromosome of that name.
- DataStores.DataStore.SetValueForProbe: requires the probe index within the array, where Java would throw ArrayIndexOutOfBoundsException.
- ProgressDialogs.ProgressDialog.ActionPerformed: requires a Cancellable, because the button exists only with one.

## Findings

| source | as written | input that shows it | evidently intended | confidence | as-written member | corrected member |
|---|---|---|---|---|---|---|
| uk/ac/babraham/BamQC/DataTypes/Genome/AnnotationSet.java:146-158 | when the cache is full, the cache is sorted, processed and cleared, but the read that triggered the flush is neither cached nor processed | cache size 1, reads a then b: b is lost | every read is processed: the triggering read is cached before the flush, or processed with it | high; not executed | Annotation.AnnotationSet.ProcessSequence, Annotation.LostReadExample | Annotation.AnnotationSet.ProcessSequenceKeepingRead, Annotation.AnnotationSet.NothingLost, Annotation.KeptReadExample |

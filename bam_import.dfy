/**
 * The record loop of BAMFileParser.run(): each record goes through the
 * filter chain and, when admitted, to one of the three read builders; a
 * BamQCException becomes a warning and the loop moves on, while any other
 * exception ends the whole import.  The cancel flag is seen at the top of
 * each iteration, before the record is counted.
 */
module BamImport {
  import opened Results
  import opened JavaText
  import opened Locations
  import opened BamReads
  import opened CigarWalk

  /** What one record contributes to the import. */
  datatype RecordOutcome =
    | Skipped                       // dropped by the filter chain
    | Warned(warning: Warning)      // progressWarningReceived, then continue
    | Emitted(spans: seq<Read>)     // handed to DataSet.addData, in order
    | Fatal(badNumber: string)      // an uncaught NumberFormatException

  /** A read that lies within its chromosome. */
  predicate InBounds(x: Read)
  {
    1 <= x.start && x.end <= x.chromosome.length
  }

  /**
   * One iteration of the record loop: the filter chain, then the builder the
   * import options select (paired-end, else split, else single-end).
   */
  function ProcessRecord(r: SamRecord, o: ImportOptions, g: Genome): RecordOutcome
  {
    match Admit(r, o)
    case Dropped => Skipped
    case DroppedWithWarning(w) => Warned(w)
    case Admitted =>
      if PairedMode(o) then
        match PairedEndRead(r, o, g)
        case Built(x) => Emitted([x])
        case Rejected(w) => Warned(w)
        case Aborted(t) => Fatal(t)
      else if o.separateSplicedReads then
        match SplitRead(r, o, g)
        case Built(xs) => Emitted(xs)
        case Rejected(w) => Warned(w)
        case Aborted(t) => Fatal(t)
      else
        match SingleEndRead(r, o, g)
        case Built(x) => Emitted([x])
        case Rejected(w) => Warned(w)
        case Aborted(t) => Fatal(t)
  }


  /**
   * What one record can contribute: a dropped record nothing, an unpaired
   * record in a paired-end import a warning, an emitted read lies on the
   * record's chromosome (a single one, within bounds, outside split mode),
   * and a fatal outcome comes only from a count in the CIGAR of a split read.
   */
  lemma RecordOutcomes(r: SamRecord, o: ImportOptions, g: Genome)
    ensures (ProcessRecord(r, o, g).Emitted? || ProcessRecord(r, o, g).Fatal?) ==> Admit(r, o) == Admitted && r.referenceName in g
    ensures Admit(r, o).DroppedWithWarning? ==> ProcessRecord(r, o, g) == Warned(SingleEndedDuringPairedImport)
    ensures Admit(r, o) == Dropped ==> ProcessRecord(r, o, g) == Skipped
    ensures ProcessRecord(r, o, g).Fatal? ==> !PairedMode(o) && o.separateSplicedReads && 'N' in r.cigar && ProcessRecord(r, o, g).badNumber in Numbers(r.cigar)
    ensures ProcessRecord(r, o, g).Emitted? ==> forall k :: 0 <= k < |ProcessRecord(r, o, g).spans| ==> ProcessRecord(r, o, g).spans[k].chromosome == g[r.referenceName].chromosome
    ensures ProcessRecord(r, o, g).Emitted? && !o.separateSplicedReads ==> |ProcessRecord(r, o, g).spans| == 1 && InBounds(ProcessRecord(r, o, g).spans[0])
    ensures ProcessRecord(r, o, g).Emitted? && PairedMode(o) ==> r.readNegativeStrand && !r.mateNegativeStrand && r.referenceName == r.mateReferenceName
  {
    if Admit(r, o) == Admitted && !PairedMode(o) && o.separateSplicedReads {
      SplitReadShape(r, o, g);
    }
  }

  /** How the loop over one file ended. */
  datatype FileEnd = Done | Cancelled | Failed(badNumber: string)

  /** The reads added to the file's DataSet and the warnings reported, in order, and how the loop ended. */
  datatype FileImport = FileImport(added: seq<Read>, warnings: seq<Warning>, end: FileEnd)

  /** Puts reads and warnings reported earlier in front of a later part of the import. */
  function Prepend(added: seq<Read>, warnings: seq<Warning>, rest: FileImport): FileImport
  {
    FileImport(added + rest.added, warnings + rest.warnings, rest.end)
  }

  /** Prepending in two steps is prepending the concatenations. */
  lemma PrependTwice(a1: seq<Read>, a2: seq<Read>, w1: seq<Warning>, w2: seq<Warning>, rest: FileImport)
    ensures Prepend(a1, w1, Prepend(a2, w2, rest)) == Prepend(a1 + a2, w1 + w2, rest)
  {
    assert a1 + (a2 + rest.added) == (a1 + a2) + rest.added;
    assert w1 + (w2 + rest.warnings) == (w1 + w2) + rest.warnings;
  }

  /** Prepending nothing leaves the import as it was. */
  lemma PrependNothing(rest: FileImport)
    ensures Prepend([], [], rest) == rest
  {
    assert [] + rest.added == rest.added;
    assert [] + rest.warnings == rest.warnings;
  }

  /** One more warning, reported after the reads and warnings already collected. */
  lemma PrependWarning(added: seq<Read>, warnings: seq<Warning>, w: Warning, rest: FileImport)
    ensures Prepend(added, warnings, Prepend([], [w], rest)) == Prepend(added, warnings + [w], rest)
  {
    PrependTwice(added, [], warnings, [w], rest);
    assert added + [] == added;
  }

  /** More reads, added after the reads already collected. */
  lemma PrependReads(added: seq<Read>, warnings: seq<Warning>, xs: seq<Read>, rest: FileImport)
    ensures Prepend(added, warnings, Prepend(xs, [], rest)) == Prepend(added + xs, warnings, rest)
  {
    PrependTwice(added, xs, warnings, [], rest);
    assert warnings + [] == warnings;
  }

  /**
   * The loop over records[i..], the cancel flag being first seen at the top
   * of iteration stop (if ever).
   */
  function ImportFrom(records: seq<SamRecord>, i: nat, o: ImportOptions, g: Genome, stop: Option<nat>): FileImport
    requires i <= |records|
    decreases |records| - i
  {
    if i == |records| then FileImport([], [], Done)
    else if stop == Some(i) then FileImport([], [], Cancelled)
    else
      match ProcessRecord(records[i], o, g)
      case Skipped => ImportFrom(records, i + 1, o, g, stop)
      case Warned(w) => Prepend([], [w], ImportFrom(records, i + 1, o, g, stop))
      case Emitted(xs) => Prepend(xs, [], ImportFrom(records, i + 1, o, g, stop))
      case Fatal(t) => FileImport([], [], Failed(t))
  }

  /** The body of the record loop: the filter chain, then the selected builder. */
  method ImportRecord(r: SamRecord, o: ImportOptions, g: Genome) returns (outcome: RecordOutcome)
    ensures outcome == ProcessRecord(r, o, g)
  {
    match Admit(r, o) {
      case Dropped =>
        return Skipped;
      case DroppedWithWarning(w) =>
        return Warned(w);
      case Admitted =>
    }
    var built: Built<seq<Read>>;
    if PairedMode(o) {
      var b := PairedEndRead(r, o, g);
      built := if b.Built? then Built([b.value]) else Rejected(b.warning);
    } else if o.separateSplicedReads {
      built := GetSplitSingleEndRead(r, o, g);
    } else {
      var b := SingleEndRead(r, o, g);
      built := if b.Built? then Built([b.value]) else Rejected(b.warning);
    }
    outcome := match built
      case Built(xs) => Emitted(xs)
      case Rejected(w) => Warned(w)
      case Aborted(t) => Fatal(t);
  }

  /** The loop over the records of one file, as the parser runs it. */
  method ImportRecords(records: seq<SamRecord>, o: ImportOptions, g: Genome, stop: Option<nat>) returns (result: FileImport)
    ensures result == ImportFrom(records, 0, o, g, stop)
  {
    var added: seq<Read> := [];
    var warnings: seq<Warning> := [];
    var i := 0;
    PrependNothing(ImportFrom(records, 0, o, g, stop));
    while i < |records|
      invariant 0 <= i <= |records|
      invariant ImportFrom(records, 0, o, g, stop) == Prepend(added, warnings, ImportFrom(records, i, o, g, stop))
    {
      if stop == Some(i) {
        return FileImport(added, warnings, Cancelled);
      }
      var outcome := ImportRecord(records[i], o, g);
      ghost var rest := ImportFrom(records, i + 1, o, g, stop);
      match outcome {
        case Skipped =>
        case Warned(w) =>
          PrependWarning(added, warnings, w, rest);
          warnings := warnings + [w];
        case Emitted(xs) =>
          PrependReads(added, warnings, xs, rest);
          added := added + xs;
        case Fatal(t) =>
          return FileImport(added, warnings, Failed(t));
      }
      i := i + 1;
    }
    return FileImport(added, warnings, Done);
  }

  /**
   * Cancelling before record k reports exactly what importing the first k
   * records reports, and then stops, unless one of them already failed; a
   * flag raised after the last record is never seen.
   */
  lemma {:induction false} CancelKeepsPrefix(records: seq<SamRecord>, i: nat, k: nat, o: ImportOptions, g: Genome)
    requires i <= k <= |records|
    ensures var full, prefix := ImportFrom(records, i, o, g, Some(k)), ImportFrom(records[..k], i, o, g, None);
      && full.added == prefix.added && full.warnings == prefix.warnings
      && full.end == (if prefix.end == Done && k < |records| then Cancelled else prefix.end)
    decreases |records| - i
  {
    if i < k {
      assert records[..k][i] == records[i];
      CancelKeepsPrefix(records, i + 1, k, o, g);
    }
  }

  /**
   * The loop is compositional: importing a + b without a cancel is
   * importing a and then, if a completed, b.
   */
  lemma {:induction false} ImportAppend(a: seq<SamRecord>, b: seq<SamRecord>, i: nat, o: ImportOptions, g: Genome)
    requires i <= |a|
    ensures var whole, first := ImportFrom(a + b, i, o, g, None), ImportFrom(a, i, o, g, None);
      whole == if first.end == Done then Prepend(first.added, first.warnings, ImportFrom(b, 0, o, g, None)) else first
    decreases |a| - i
  {
    if i < |a| {
      assert (a + b)[i] == a[i];
      ImportAppend(a, b, i + 1, o, g);
      var rest := ImportFrom(a, i + 1, o, g, None);
      var tail := ImportFrom(b, 0, o, g, None);
      match ProcessRecord(a[i], o, g)
      case Skipped =>
      case Warned(w) =>
        PrependTwice([], rest.added, [w], rest.warnings, tail);
      case Emitted(xs) =>
        PrependTwice(xs, rest.added, [], rest.warnings, tail);
      case Fatal(t) =>
    } else {
      assert (a + b)[|a|..] == b;
      ImportShift(a, b, 0, o, g);
      PrependNothing(ImportFrom(b, 0, o, g, None));
    }
  }

  /** Importing a + b from position |a| + j is importing b from position j. */
  lemma {:induction false} ImportShift(a: seq<SamRecord>, b: seq<SamRecord>, j: nat, o: ImportOptions, g: Genome)
    requires j <= |b|
    ensures ImportFrom(a + b, |a| + j, o, g, None) == ImportFrom(b, j, o, g, None)
    decreases |b| - j
  {
    if j < |b| {
      assert (a + b)[|a| + j] == b[j];
      ImportShift(a, b, j + 1, o, g);
    }
  }

  /** A read on one of the genome's chromosomes, within it unless spliced reads are split. */
  predicate Placed(x: Read, o: ImportOptions, g: Genome)
  {
    && (exists name :: name in g && x.chromosome == g[name].chromosome)
    && (!o.separateSplicedReads ==> InBounds(x))
  }

  predicate AllPlaced(xs: seq<Read>, o: ImportOptions, g: Genome)
  {
    forall k :: 0 <= k < |xs| ==> Placed(xs[k], o, g)
  }

  /**
   * Every read the loop hands to the DataSet lies on a chromosome of the
   * genome and, outside split mode, within that chromosome.
   */
  lemma {:induction false} ImportedReadsPlaced(records: seq<SamRecord>, i: nat, o: ImportOptions, g: Genome, stop: Option<nat>)
    requires i <= |records|
    ensures AllPlaced(ImportFrom(records, i, o, g, stop).added, o, g)
    decreases |records| - i
  {
    if i < |records| && stop != Some(i) {
      ImportedReadsPlaced(records, i + 1, o, g, stop);
      var rest := ImportFrom(records, i + 1, o, g, stop);
      var f := ImportFrom(records, i, o, g, stop);
      var r := records[i];
      var out := ProcessRecord(r, o, g);
      RecordOutcomes(r, o, g);
      if out.Emitted? {
        var xs := out.spans;
        assert f.added == xs + rest.added;
        forall k | 0 <= k < |f.added|
          ensures Placed(f.added[k], o, g)
        {
          if k < |xs| {
            assert f.added[k] == xs[k];
            assert r.referenceName in g && xs[k].chromosome == g[r.referenceName].chromosome;
            if !o.separateSplicedReads {
              assert k == 0;
            }
          } else {
            assert f.added[k] == rest.added[k - |xs|];
            assert Placed(rest.added[k - |xs|], o, g);
          }
        }
      } else if !out.Fatal? {
        assert f.added == rest.added;
        forall k | 0 <= k < |f.added|
          ensures Placed(f.added[k], o, g)
        {
          assert f.added[k] == rest.added[k];
          assert Placed(rest.added[k], o, g);
        }
      }
    }
  }

  /** Without a cancel, a file completes exactly when none of its records throws a NumberFormatException. */
  lemma {:induction false} ImportDone(records: seq<SamRecord>, i: nat, o: ImportOptions, g: Genome)
    requires i <= |records|
    ensures ImportFrom(records, i, o, g, None).end == Done <==>
      forall j :: i <= j < |records| ==> !ProcessRecord(records[j], o, g).Fatal?
    ensures ImportFrom(records, i, o, g, None).end != Cancelled
    decreases |records| - i
  {
    if i < |records| {
      ImportDone(records, i + 1, o, g);
    }
  }

  /** How run() ends: processingFinished with one DataSet per file, progressCancelled, or progressExceptionReceived. */
  datatype RunStatus = Finished(dataSets: seq<seq<Read>>) | RunCancelled | RunFailed(badNumber: string)

  /** The end of run() and the warnings it reported on the way. */
  datatype RunResult = RunResult(status: RunStatus, warnings: seq<Warning>)

  /** The record of file f before which the cancel flag is first seen, if it is seen in that file. */
  function StopIn(cancel: Option<(nat, nat)>, f: nat): Option<nat>
  {
    if cancel.Some? && cancel.value.0 == f then Some(cancel.value.1) else None
  }

  /** Puts the data sets and warnings of earlier files in front of the rest of the run. */
  function PrependRun(dataSets: seq<seq<Read>>, warnings: seq<Warning>, rest: RunResult): RunResult
  {
    RunResult(if rest.status.Finished? then Finished(dataSets + rest.status.dataSets) else rest.status, warnings + rest.warnings)
  }

  /** Prepending in two steps is prepending the concatenations. */
  lemma PrependRunTwice(d1: seq<seq<Read>>, d2: seq<seq<Read>>, w1: seq<Warning>, w2: seq<Warning>, rest: RunResult)
    ensures PrependRun(d1, w1, PrependRun(d2, w2, rest)) == PrependRun(d1 + d2, w1 + w2, rest)
  {
    assert w1 + (w2 + rest.warnings) == (w1 + w2) + rest.warnings;
    if rest.status.Finished? {
      assert d1 + (d2 + rest.status.dataSets) == (d1 + d2) + rest.status.dataSets;
    }
  }

  /** run() from file f on: each file is read in turn; a cancel or a failure ends the run. */
  function RunFrom(files: seq<seq<SamRecord>>, f: nat, o: ImportOptions, g: Genome, cancel: Option<(nat, nat)>): RunResult
    requires f <= |files|
    decreases |files| - f
  {
    if f == |files| then RunResult(Finished([]), [])
    else
      var one := ImportFrom(files[f], 0, o, g, StopIn(cancel, f));
      match one.end
      case Done => PrependRun([one.added], one.warnings, RunFrom(files, f + 1, o, g, cancel))
      case Cancelled => RunResult(RunCancelled, one.warnings)
      case Failed(t) => RunResult(RunFailed(t), one.warnings)
  }

  /** BAMFileParser.run(), without the HiC data sets and the progress messages. */
  method Run(files: seq<seq<SamRecord>>, o: ImportOptions, g: Genome, cancel: Option<(nat, nat)>) returns (result: RunResult)
    ensures result == RunFrom(files, 0, o, g, cancel)
  {
    var newData: seq<seq<Read>> := [];
    var warnings: seq<Warning> := [];
    var f := 0;
    while f < |files|
      invariant 0 <= f <= |files|
      invariant RunFrom(files, 0, o, g, cancel) == PrependRun(newData, warnings, RunFrom(files, f, o, g, cancel))
    {
      var one := ImportRecords(files[f], o, g, StopIn(cancel, f));
      match one.end {
        case Done =>
        case Cancelled =>
          return RunResult(RunCancelled, warnings + one.warnings);
        case Failed(t) =>
          return RunResult(RunFailed(t), warnings + one.warnings);
      }
      PrependRunTwice(newData, [one.added], warnings, one.warnings, RunFrom(files, f + 1, o, g, cancel));
      warnings := warnings + one.warnings;
      newData := newData + [one.added];
      f := f + 1;
    }
    return RunResult(Finished(newData), warnings);
  }

  /**
   * Without a cancel, run() is never cancelled, and it finishes exactly when
   * no record of any file throws a NumberFormatException.
   */
  lemma {:induction false} RunFinishes(files: seq<seq<SamRecord>>, f: nat, o: ImportOptions, g: Genome)
    requires f <= |files|
    ensures var r := RunFrom(files, f, o, g, None);
      && (r.status.Finished? <==>
            forall h, j :: f <= h < |files| && 0 <= j < |files[h]| ==> !ProcessRecord(files[h][j], o, g).Fatal?)
      && !r.status.RunCancelled?
    decreases |files| - f
  {
    if f < |files| {
      ImportDone(files[f], 0, o, g);
      RunFinishes(files, f + 1, o, g);
      var r := RunFrom(files, f, o, g, None);
      if !r.status.Finished? {
        if ImportFrom(files[f], 0, o, g, None).end == Done {
          var h, j :| f + 1 <= h < |files| && 0 <= j < |files[h]| && ProcessRecord(files[h][j], o, g).Fatal?;
        } else {
          var j :| 0 <= j < |files[f]| && ProcessRecord(files[f][j], o, g).Fatal?;
        }
      }
    }
  }

  /** A finished run holds one data set per file: the reads imported from that file. */
  lemma {:induction false} RunDataSets(files: seq<seq<SamRecord>>, f: nat, o: ImportOptions, g: Genome)
    requires f <= |files|
    ensures var r := RunFrom(files, f, o, g, None);
      r.status.Finished? ==>
        && |r.status.dataSets| == |files| - f
        && forall h :: f <= h < |files| ==> r.status.dataSets[h - f] == ImportFrom(files[h], 0, o, g, None).added
    decreases |files| - f
  {
    if f < |files| {
      RunDataSets(files, f + 1, o, g);
      var rest := RunFrom(files, f + 1, o, g, None);
      var r := RunFrom(files, f, o, g, None);
      if r.status.Finished? {
        forall h | f <= h < |files|
          ensures r.status.dataSets[h - f] == ImportFrom(files[h], 0, o, g, None).added
        {
          if h > f {
            assert r.status.dataSets[h - f] == rest.status.dataSets[h - (f + 1)];
          }
        }
      }
    }
  }
}

/**
 * getSplitSingleEndRead: the builder used when spliced reads are split.  It
 * walks the CIGAR string with a cursor and turns one record into its exon
 * spans, or, when introns are imported, into the spans skipped between them.
 *
 * The arithmetic is the parser's own, not the SAM meaning of the operations:
 * M and I move the cursor forward by n-1, D moves it back by n-1, N closes a
 * span and moves the cursor forward by n+1, and every other operation leaves
 * the cursor where it is.
 */
module CigarWalk {
  import opened Results
  import opened JavaText
  import opened Locations
  import opened BamReads

  /**
   * The strand of a split read: the negative-strand flag, flipped for the
   * second read of a pair so that both reads give the fragment's strand.
   */
  function SplitStrand(r: SamRecord): (s: Strand)
    ensures s != Unknown
    ensures s == Reverse <==> r.readNegativeStrand != (r.readPaired && r.secondOfPair)
  {
    if r.readNegativeStrand then
      if r.readPaired && r.secondOfPair then Forward else Reverse
    else
      if r.readPaired && r.secondOfPair then Reverse else Forward
  }

  /** The operation tokens: the CIGAR split on runs of digits. */
  function Operations(cigar: string): seq<string> { Split(cigar, DigitRun) }

  /** The number tokens: the CIGAR split on the operation letters. */
  function Numbers(cigar: string): seq<string> { Split(cigar, CigarOperation) }

  /** The walker's variables: the cursor, the start of the open span, the end of the last exon, the reads so far. */
  datatype Walk = Walk(cursor: int, spanStart: int, lastEnd: int, emitted: seq<Read>)

  /** One loop iteration: the operation token op with its count token num. */
  function Step(op: string, num: string, w: Walk, introns: bool, c: Chromosome, strand: Strand): Built<Walk>
  {
    if op == "M" || op == "I" then
      match ParseInt(num)
      case None => Aborted(num)
      case Some(n) => Built(w.(cursor := w.cursor + n - 1))
    else if op == "D" then
      match ParseInt(num)
      case None => Aborted(num)
      case Some(n) => Built(w.(cursor := w.cursor - (n - 1)))
    else if op == "N" then
      if introns && w.lastEnd > 0 && w.spanStart > c.length then
        Rejected(BeyondEnd(w.spanStart - 1, (w.spanStart - 1) - c.length, c))
      else if !introns && w.cursor > c.length then
        Rejected(BeyondEnd(w.cursor, w.cursor - c.length, c))
      else
        var emitted :=
          if introns then
            if w.lastEnd > 0 then w.emitted + [Read(c, w.lastEnd + 1, w.spanStart - 1, strand)] else w.emitted
          else w.emitted + [Read(c, w.spanStart, w.cursor, strand)];
        var lastEnd := if introns then w.cursor else w.lastEnd;
        match ParseInt(num)
        case None => Aborted(num)
        case Some(n) => Built(Walk(w.cursor + n + 1, w.cursor + n + 1, lastEnd, emitted))
    else Built(w)
  }

  /** The loop from token position pos to the end. */
  function WalkFrom(ops: seq<string>, nums: seq<string>, pos: nat, w: Walk, introns: bool, c: Chromosome, strand: Strand): Built<Walk>
    requires |ops| == |nums| + 1 && pos <= |nums|
    decreases |nums| - pos
  {
    if pos == |nums| then Built(w)
    else
      match Step(ops[pos + 1], nums[pos], w, introns, c, strand)
      case Built(w') => WalkFrom(ops, nums, pos + 1, w', introns, c, strand)
      case Rejected(x) => Rejected(x)
      case Aborted(t) => Aborted(t)
  }

  /** One turn of the loop: a step that builds continues the walk, one that fails ends it with its own outcome. */
  lemma WalkFromStep(ops: seq<string>, nums: seq<string>, pos: nat, w: Walk, introns: bool, c: Chromosome, strand: Strand)
    requires |ops| == |nums| + 1 && pos < |nums|
    ensures var s := Step(ops[pos + 1], nums[pos], w, introns, c, strand);
      WalkFrom(ops, nums, pos, w, introns, c, strand) ==
        if s.Built? then WalkFrom(ops, nums, pos + 1, s.value, introns, c, strand) else s
  {
  }

  /** After the loop: the last intron, or the last exon, is emitted. */
  function Finish(w: Walk, introns: bool, c: Chromosome, strand: Strand): Built<seq<Read>>
  {
    if introns then
      if w.lastEnd > 0 then
        if w.spanStart > c.length then Rejected(BeyondEnd(w.spanStart - 1, (w.spanStart - 1) - c.length, c))
        else Built(w.emitted + [Read(c, w.lastEnd + 1, w.spanStart - 1, strand)])
      else Built(w.emitted)
    else
      if w.cursor > c.length then Rejected(BeyondEnd(w.cursor, w.cursor - c.length, c))
      else Built(w.emitted + [Read(c, w.spanStart, w.cursor, strand)])
  }

  /**
   * The reads getSplitSingleEndRead returns for a record, or the exception
   * it throws.
   */
  function SplitRead(r: SamRecord, o: ImportOptions, g: Genome): Built<seq<Read>>
  {
    var strand := SplitStrand(r);
    if r.referenceName !in g then Rejected(UnknownChromosome(r.referenceName))
    else
      var c := g[r.referenceName];
      var start := c.Position(r.alignmentStart);
      if start < 1 then Rejected(BeforeStart(start, c.chromosome))
      else if 'N' !in r.cigar then
        if !o.importIntrons then Built([Read(c.chromosome, start, c.Position(r.alignmentEnd), strand)])
        else Built([])
      else
        var ops, nums := Operations(r.cigar), Numbers(r.cigar);
        if |ops| != |nums| + 1 then Rejected(CigarUnparsable(r.cigar, |ops|, |nums|))
        else
          match WalkFrom(ops, nums, 0, Walk(start, start, -1, []), o.importIntrons, c.chromosome, strand)
          case Built(w) => Finish(w, o.importIntrons, c.chromosome, strand)
          case Rejected(x) => Rejected(x)
          case Aborted(t) => Aborted(t)
  }

  /** The body of the token loop: one operation applied to the walker's variables. */
  method WalkStep(op: string, num: string, w: Walk, introns: bool, c: Chromosome, strand: Strand) returns (result: Built<Walk>)
    ensures result == Step(op, num, w, introns, c, strand)
  {
    var currentPosition, start, lastEnd, newReads := w.cursor, w.spanStart, w.lastEnd, w.emitted;
    if op == "M" || op == "I" || op == "D" {
      var n := ParseInt(num);
      if n.None? {
        return Aborted(num);
      }
      if op == "D" {
        currentPosition := currentPosition - (n.value - 1);
      } else {
        currentPosition := currentPosition + n.value - 1;
      }
    } else if op == "N" {
      if introns {
        if lastEnd > 0 {
          if start > c.length {
            return Rejected(BeyondEnd(start - 1, (start - 1) - c.length, c));
          }
          newReads := newReads + [Read(c, lastEnd + 1, start - 1, strand)];
        }
        lastEnd := currentPosition;
      } else {
        if currentPosition > c.length {
          return Rejected(BeyondEnd(currentPosition, currentPosition - c.length, c));
        }
        newReads := newReads + [Read(c, start, currentPosition, strand)];
      }
      var n := ParseInt(num);
      if n.None? {
        return Aborted(num);
      }
      currentPosition := currentPosition + n.value + 1;
      start := currentPosition;
    }
    return Built(Walk(currentPosition, start, lastEnd, newReads));
  }

  /** getSplitSingleEndRead, as the loop the parser runs. */
  method GetSplitSingleEndRead(r: SamRecord, o: ImportOptions, g: Genome) returns (result: Built<seq<Read>>)
    ensures result == SplitRead(r, o, g)
  {
    var strand: Strand;
    if r.readNegativeStrand {
      if r.readPaired && r.secondOfPair {
        strand := Forward;
      } else {
        strand := Reverse;
      }
    } else {
      if r.readPaired && r.secondOfPair {
        strand := Reverse;
      } else {
        strand := Forward;
      }
    }
    if r.referenceName !in g {
      return Rejected(UnknownChromosome(r.referenceName));
    }
    var c := g[r.referenceName];
    var start := c.Position(r.alignmentStart);
    if start < 1 {
      return Rejected(BeforeStart(start, c.chromosome));
    }
    if 'N' !in r.cigar {
      if !o.importIntrons {
        var end := c.Position(r.alignmentEnd);
        return Built([Read(c.chromosome, start, end, strand)]);
      }
      return Built([]);
    }
    var cigarOperations := Split(r.cigar, DigitRun);
    var cigarNumbers := Split(r.cigar, CigarOperation);
    if |cigarOperations| != |cigarNumbers| + 1 {
      return Rejected(CigarUnparsable(r.cigar, |cigarOperations|, |cigarNumbers|));
    }
    ghost var walked := WalkFrom(cigarOperations, cigarNumbers, 0, Walk(start, start, -1, []), o.importIntrons, c.chromosome, strand);
    var w := Walk(start, start, -1, []);
    var pos := 0;
    while pos < |cigarNumbers|
      invariant 0 <= pos <= |cigarNumbers|
      invariant walked == WalkFrom(cigarOperations, cigarNumbers, pos, w, o.importIntrons, c.chromosome, strand)
    {
      var next := WalkStep(cigarOperations[pos + 1], cigarNumbers[pos], w, o.importIntrons, c.chromosome, strand);
      WalkFromStep(cigarOperations, cigarNumbers, pos, w, o.importIntrons, c.chromosome, strand);
      if !next.Built? {
        return if next.Rejected? then Rejected(next.warning) else Aborted(next.badNumber);
      }
      w := next.value;
      pos := pos + 1;
    }
    var length := c.chromosome.length;
    if o.importIntrons {
      if w.lastEnd > 0 {
        if w.spanStart > length {
          return Rejected(BeyondEnd(w.spanStart - 1, (w.spanStart - 1) - length, c.chromosome));
        }
        return Built(w.emitted + [Read(c.chromosome, w.lastEnd + 1, w.spanStart - 1, strand)]);
      }
      return Built(w.emitted);
    } else {
      if w.cursor > length {
        return Rejected(BeyondEnd(w.cursor, w.cursor - length, c.chromosome));
      }
      return Built(w.emitted + [Read(c.chromosome, w.spanStart, w.cursor, strand)]);
    }
  }

  /** The number of N operations among ops[pos+1..], the skips the walk still has to cross. */
  function SkipsFrom(ops: seq<string>, pos: nat): nat
    decreases |ops| - pos
  {
    if pos + 1 >= |ops| then 0
    else (if ops[pos + 1] == "N" then 1 else 0) + SkipsFrom(ops, pos + 1)
  }

  /**
   * Every read is on chromosome c and strand strand; an exon ends within the
   * chromosome, and an intron starts after the first base and ends before
   * the last one.
   */
  predicate WellPlaced(rs: seq<Read>, c: Chromosome, strand: Strand, introns: bool)
  {
    forall k :: 0 <= k < |rs| ==>
      && rs[k].chromosome == c && rs[k].strand == strand
      && (if introns then 2 <= rs[k].start && rs[k].end < c.length else rs[k].end <= c.length)
  }

  /** 1 when an exon has been closed whose following intron is still to be emitted. */
  function Pending(w: Walk): nat { if w.lastEnd > 0 then 1 else 0 }

  /**
   * One step keeps the reads well placed, emits one exon per N when exons
   * are imported, and at most one intron per N when introns are.
   */
  lemma StepKeeps(op: string, num: string, w: Walk, introns: bool, c: Chromosome, strand: Strand)
    requires WellPlaced(w.emitted, c, strand, introns)
    ensures var b := Step(op, num, w, introns, c, strand);
      && (b.Aborted? ==> b.badNumber == num)
      && (b.Built? ==>
        && WellPlaced(b.value.emitted, c, strand, introns)
        && (!introns ==> |b.value.emitted| == |w.emitted| + (if op == "N" then 1 else 0))
        && (introns ==> |b.value.emitted| + Pending(b.value) <= |w.emitted| + Pending(w) + (if op == "N" then 1 else 0)))
  {
  }

  /**
   * The loop from position pos keeps the reads well placed, emits one exon
   * per remaining N, at most one intron per remaining N, and can only fail
   * on one of the count tokens.
   */
  lemma {:induction false} WalkFromKeeps(ops: seq<string>, nums: seq<string>, pos: nat, w: Walk, introns: bool, c: Chromosome, strand: Strand)
    requires |ops| == |nums| + 1 && pos <= |nums|
    requires WellPlaced(w.emitted, c, strand, introns)
    ensures var b := WalkFrom(ops, nums, pos, w, introns, c, strand);
      && (b.Aborted? ==> b.badNumber in nums[pos..])
      && (b.Built? ==>
        && WellPlaced(b.value.emitted, c, strand, introns)
        && (!introns ==> |b.value.emitted| == |w.emitted| + SkipsFrom(ops, pos))
        && (introns ==> |b.value.emitted| + Pending(b.value) <= |w.emitted| + Pending(w) + SkipsFrom(ops, pos)))
    decreases |nums| - pos
  {
    if pos < |nums| {
      StepKeeps(ops[pos + 1], nums[pos], w, introns, c, strand);
      var s := Step(ops[pos + 1], nums[pos], w, introns, c, strand);
      if s.Built? {
        WalkFromKeeps(ops, nums, pos + 1, s.value, introns, c, strand);
        assert nums[pos..] == [nums[pos]] + nums[pos + 1..];
      }
    }
  }

  /**
   * What getSplitSingleEndRead returns: every read lies on the record's
   * chromosome and carries the fragment strand.  Without an N in the CIGAR
   * the record is one exon (taken as it stands, with no end check) or no
   * intron at all.  With an N, exons end within the chromosome and number
   * one more than the skips, introns lie strictly inside the chromosome and
   * number at most the skips, and a NumberFormatException can only come
   * from one of the count tokens.
   */
  lemma SplitReadShape(r: SamRecord, o: ImportOptions, g: Genome)
    ensures var b := SplitRead(r, o, g);
      && (r.referenceName !in g ==> b == Rejected(UnknownChromosome(r.referenceName)))
      && (r.referenceName in g && g[r.referenceName].Position(r.alignmentStart) < 1 ==>
            b == Rejected(BeforeStart(g[r.referenceName].Position(r.alignmentStart), g[r.referenceName].chromosome)))
      && (r.referenceName in g && g[r.referenceName].Position(r.alignmentStart) >= 1
          && 'N' in r.cigar && |Operations(r.cigar)| != |Numbers(r.cigar)| + 1 ==>
            b == Rejected(CigarUnparsable(r.cigar, |Operations(r.cigar)|, |Numbers(r.cigar)|)))
      && (b.Aborted? ==> 'N' in r.cigar && b.badNumber in Numbers(r.cigar))
      && (b.Built? ==>
        && r.referenceName in g
        && var c := g[r.referenceName];
        && (forall k :: 0 <= k < |b.value| ==> b.value[k].chromosome == c.chromosome && b.value[k].strand == SplitStrand(r))
        && ('N' !in r.cigar ==>
              b.value == if o.importIntrons then [] else [Read(c.chromosome, c.Position(r.alignmentStart), c.Position(r.alignmentEnd), SplitStrand(r))])
        && ('N' in r.cigar ==>
              && WellPlaced(b.value, c.chromosome, SplitStrand(r), o.importIntrons)
              && (!o.importIntrons ==> |b.value| == SkipsFrom(Operations(r.cigar), 0) + 1)
              && (o.importIntrons ==> |b.value| <= SkipsFrom(Operations(r.cigar), 0))))
  {
    if r.referenceName in g && 'N' in r.cigar {
      var c := g[r.referenceName];
      var ops, nums := Operations(r.cigar), Numbers(r.cigar);
      var start := c.Position(r.alignmentStart);
      if |ops| == |nums| + 1 && start >= 1 {
        var w0 := Walk(start, start, -1, []);
        WalkFromKeeps(ops, nums, 0, w0, o.importIntrons, c.chromosome, SplitStrand(r));
        assert nums[0..] == nums;
      }
    }
  }

  /** From position pos on, no operation is D and every count that parses is at least 1. */
  predicate ForwardOnly(ops: seq<string>, nums: seq<string>, pos: nat)
    requires |ops| == |nums| + 1
  {
    && (forall j :: pos < j < |ops| ==> ops[j] != "D")
    && (forall k :: pos <= k < |nums| ==> ParseInt(nums[k]).Some? ==> ParseInt(nums[k]).value >= 1)
  }

  /**
   * When the cursor never moves back, it stays positive, so every N sets a
   * positive lastEnd and the walk leaves exactly one intron per skip,
   * counting the one still pending.
   */
  lemma {:induction false} WalkFromCountsIntrons(ops: seq<string>, nums: seq<string>, pos: nat, w: Walk, c: Chromosome, strand: Strand)
    requires |ops| == |nums| + 1 && pos <= |nums|
    requires ForwardOnly(ops, nums, pos) && w.cursor >= 1
    ensures var b := WalkFrom(ops, nums, pos, w, true, c, strand);
      b.Built? ==> |b.value.emitted| + Pending(b.value) == |w.emitted| + Pending(w) + SkipsFrom(ops, pos)
    decreases |nums| - pos
  {
    if pos < |nums| {
      var s := Step(ops[pos + 1], nums[pos], w, true, c, strand);
      if s.Built? {
        assert ops[pos + 1] != "D";
        assert s.value.cursor >= 1;
        assert |s.value.emitted| + Pending(s.value) == |w.emitted| + Pending(w) + (if ops[pos + 1] == "N" then 1 else 0);
        WalkFromCountsIntrons(ops, nums, pos + 1, s.value, c, strand);
      }
    }
  }

  /**
   * Importing introns from a CIGAR with no D and no count below 1 gives
   * exactly one intron per N.
   */
  lemma SplitReadIntronCount(r: SamRecord, o: ImportOptions, g: Genome)
    requires o.importIntrons && 'N' in r.cigar
    requires |Operations(r.cigar)| == |Numbers(r.cigar)| + 1 && ForwardOnly(Operations(r.cigar), Numbers(r.cigar), 0)
    ensures SplitRead(r, o, g).Built? ==> |SplitRead(r, o, g).value| == SkipsFrom(Operations(r.cigar), 0)
  {
    if r.referenceName in g {
      var c := g[r.referenceName];
      var start := c.Position(r.alignmentStart);
      if start >= 1 {
        WalkFromCountsIntrons(Operations(r.cigar), Numbers(r.cigar), 0, Walk(start, start, -1, []), c.chromosome, SplitStrand(r));
      }
    }
  }

  /** The count an N token contributes to the skip lengths: its value, or nothing for another operation. */
  function StepCount(op: string, num: string): seq<int>
  {
    if op == "N" then [match ParseInt(num) case Some(n) => n case None => 0] else []
  }

  /** The counts of the N operations among ops[pos+1..], in order: the lengths of the skips still to cross. */
  function SkipCounts(ops: seq<string>, nums: seq<string>, pos: nat): seq<int>
    decreases |nums| - pos
  {
    if pos < |nums| && pos + 1 < |ops| then StepCount(ops[pos + 1], nums[pos]) + SkipCounts(ops, nums, pos + 1) else []
  }

  /**
   * The exons so far are separated by the skip counts: each one starts n+1
   * after the previous one ends, where n is the count of the N between them,
   * and the open span starts n+1 after the last one.
   */
  predicate Gapped(es: seq<Read>, counts: seq<int>, spanStart: int)
  {
    && |counts| == |es|
    && (forall k :: 0 <= k < |es| - 1 ==> es[k + 1].start == es[k].end + counts[k] + 1)
    && (es != [] ==> spanStart == es[|es| - 1].end + counts[|es| - 1] + 1)
  }

  /** One step of an exon walk keeps the exons separated by the counts of the N tokens crossed. */
  lemma StepGapped(op: string, num: string, w: Walk, c: Chromosome, strand: Strand, counts: seq<int>)
    requires Gapped(w.emitted, counts, w.spanStart)
    ensures var b := Step(op, num, w, false, c, strand);
      b.Built? ==> Gapped(b.value.emitted, counts + StepCount(op, num), b.value.spanStart)
  {
    var b := Step(op, num, w, false, c, strand);
    if b.Built? && op == "N" {
      var es, counts' := b.value.emitted, counts + StepCount(op, num);
      assert es == w.emitted + [Read(c, w.spanStart, w.cursor, strand)];
      assert counts' == counts + [ParseInt(num).value];
      forall k | 0 <= k < |es| - 1
        ensures es[k + 1].start == es[k].end + counts'[k] + 1
      {
        if k < |w.emitted| - 1 {
          assert es[k] == w.emitted[k] && es[k + 1] == w.emitted[k + 1] && counts'[k] == counts[k];
        }
      }
    }
  }

  /** The exon walk from pos on keeps the exons separated by the counts of the N tokens. */
  lemma {:induction false} WalkGapped(ops: seq<string>, nums: seq<string>, pos: nat, w: Walk, c: Chromosome, strand: Strand, counts: seq<int>)
    requires |ops| == |nums| + 1 && pos <= |nums|
    requires Gapped(w.emitted, counts, w.spanStart)
    ensures var b := WalkFrom(ops, nums, pos, w, false, c, strand);
      b.Built? ==> Gapped(b.value.emitted, counts + SkipCounts(ops, nums, pos), b.value.spanStart)
    decreases |nums| - pos
  {
    if pos == |nums| {
      assert counts + SkipCounts(ops, nums, pos) == counts;
    } else {
      StepGapped(ops[pos + 1], nums[pos], w, c, strand, counts);
      var s := Step(ops[pos + 1], nums[pos], w, false, c, strand);
      if s.Built? {
        var counts' := counts + StepCount(ops[pos + 1], nums[pos]);
        WalkGapped(ops, nums, pos + 1, s.value, c, strand, counts');
        assert counts' + SkipCounts(ops, nums, pos + 1) == counts + SkipCounts(ops, nums, pos);
      }
    }
  }

  /**
   * The exons of a spliced read are separated by the skips of its CIGAR:
   * there is one exon more than there are N operations, and exon k+1 starts
   * n+1 after exon k ends, where n is the count of the k-th N.
   */
  lemma SplitExonGaps(r: SamRecord, o: ImportOptions, g: Genome)
    requires !o.importIntrons && 'N' in r.cigar
    ensures var b, counts := SplitRead(r, o, g), SkipCounts(Operations(r.cigar), Numbers(r.cigar), 0);
      b.Built? ==>
        && |b.value| == |counts| + 1
        && forall k :: 0 <= k < |b.value| - 1 ==> b.value[k + 1].start == b.value[k].end + counts[k] + 1
  {
    var b := SplitRead(r, o, g);
    var ops, nums := Operations(r.cigar), Numbers(r.cigar);
    if b.Built? {
      var c := g[r.referenceName];
      var start := c.Position(r.alignmentStart);
      var strand := SplitStrand(r);
      WalkGapped(ops, nums, 0, Walk(start, start, -1, []), c.chromosome, strand, []);
      var w := WalkFrom(ops, nums, 0, Walk(start, start, -1, []), false, c.chromosome, strand).value;
      var counts := SkipCounts(ops, nums, 0);
      assert b.value == w.emitted + [Read(c.chromosome, w.spanStart, w.cursor, strand)];
      forall k | 0 <= k < |b.value| - 1
        ensures b.value[k + 1].start == b.value[k].end + counts[k] + 1
      {
        assert b.value[k] == w.emitted[k];
      }
    }
  }

  /**
   * An exon walk and an intron walk over the same tokens, side by side: the
   * same cursor and open span; an intron pending exactly when an exon has
   * been closed, ending where that exon ends; and every intron emitted lies
   * between two consecutive exons.
   */
  predicate Paired(we: Walk, wi: Walk, c: Chromosome, strand: Strand)
  {
    && we.cursor == wi.cursor && we.spanStart == wi.spanStart && wi.cursor >= 1
    && (wi.lastEnd > 0 <==> we.emitted != [])
    && (we.emitted == [] ==> wi.emitted == [])
    && (we.emitted != [] ==> wi.lastEnd == we.emitted[|we.emitted| - 1].end && |wi.emitted| == |we.emitted| - 1)
    && forall k :: 0 <= k < |wi.emitted| ==>
         wi.emitted[k] == Read(c, we.emitted[k].end + 1, we.emitted[k + 1].start - 1, strand)
  }

  /** One step taken by both walks keeps them paired, when it moves the cursor forward only. */
  lemma StepPaired(op: string, num: string, we: Walk, wi: Walk, c: Chromosome, strand: Strand)
    requires Paired(we, wi, c, strand)
    requires op != "D" && (ParseInt(num).Some? ==> ParseInt(num).value >= 1)
    ensures var se, si := Step(op, num, we, false, c, strand), Step(op, num, wi, true, c, strand);
      se.Built? && si.Built? ==> Paired(se.value, si.value, c, strand)
  {
    var se, si := Step(op, num, we, false, c, strand), Step(op, num, wi, true, c, strand);
    if se.Built? && si.Built? && op == "N" {
      var es, ins := se.value.emitted, si.value.emitted;
      assert es == we.emitted + [Read(c, we.spanStart, we.cursor, strand)];
      if we.emitted == [] {
        assert ins == [];
      } else {
        assert ins == wi.emitted + [Read(c, wi.lastEnd + 1, wi.spanStart - 1, strand)];
        forall k | 0 <= k < |ins|
          ensures ins[k] == Read(c, es[k].end + 1, es[k + 1].start - 1, strand)
        {
          if k < |wi.emitted| {
            assert es[k] == we.emitted[k] && es[k + 1] == we.emitted[k + 1];
          }
        }
      }
    }
  }

  /** Both walks, from pos on over tokens that never move the cursor back, stay paired. */
  lemma {:induction false} WalkPaired(ops: seq<string>, nums: seq<string>, pos: nat, we: Walk, wi: Walk, c: Chromosome, strand: Strand)
    requires |ops| == |nums| + 1 && pos <= |nums|
    requires ForwardOnly(ops, nums, pos) && Paired(we, wi, c, strand)
    ensures var be, bi := WalkFrom(ops, nums, pos, we, false, c, strand), WalkFrom(ops, nums, pos, wi, true, c, strand);
      be.Built? && bi.Built? ==> Paired(be.value, bi.value, c, strand)
    decreases |nums| - pos
  {
    if pos < |nums| {
      StepPaired(ops[pos + 1], nums[pos], we, wi, c, strand);
      var se, si := Step(ops[pos + 1], nums[pos], we, false, c, strand), Step(ops[pos + 1], nums[pos], wi, true, c, strand);
      if se.Built? && si.Built? {
        WalkPaired(ops, nums, pos + 1, se.value, si.value, c, strand);
      }
    }
  }

  /** The last exon and the last intron close the paired walks consistently. */
  lemma FinishPaired(we: Walk, wi: Walk, c: Chromosome, strand: Strand)
    requires Paired(we, wi, c, strand)
    ensures var fe, fi := Finish(we, false, c, strand), Finish(wi, true, c, strand);
      fe.Built? && fi.Built? ==>
        && |fe.value| == |fi.value| + 1
        && forall k :: 0 <= k < |fi.value| ==> fi.value[k] == Read(c, fe.value[k].end + 1, fe.value[k + 1].start - 1, strand)
  {
    var fe, fi := Finish(we, false, c, strand), Finish(wi, true, c, strand);
    if fe.Built? && fi.Built? {
      var es, ins := fe.value, fi.value;
      assert es == we.emitted + [Read(c, we.spanStart, we.cursor, strand)];
      if we.emitted != [] {
        assert ins == wi.emitted + [Read(c, wi.lastEnd + 1, wi.spanStart - 1, strand)];
        forall k | 0 <= k < |ins|
          ensures ins[k] == Read(c, es[k].end + 1, es[k + 1].start - 1, strand)
        {
          if k < |wi.emitted| {
            assert es[k] == we.emitted[k] && es[k + 1] == we.emitted[k + 1];
          }
        }
      }
    }
  }

  /**
   * The two import modes agree on a record whose CIGAR never moves the
   * cursor back: when both build, there is one intron fewer than exons, and
   * intron k covers exactly the bases between exon k and exon k+1.
   */
  lemma SplitIntronsBetweenExons(r: SamRecord, o: ImportOptions, g: Genome)
    requires |Operations(r.cigar)| == |Numbers(r.cigar)| + 1 ==> ForwardOnly(Operations(r.cigar), Numbers(r.cigar), 0)
    ensures var exons, introns := SplitRead(r, o.(importIntrons := false), g), SplitRead(r, o.(importIntrons := true), g);
      exons.Built? && introns.Built? ==>
        && |exons.value| == |introns.value| + 1
        && forall k :: 0 <= k < |introns.value| ==>
             introns.value[k] == Read(exons.value[k].chromosome, exons.value[k].end + 1, exons.value[k + 1].start - 1, exons.value[k].strand)
  {
    var oe, oi := o.(importIntrons := false), o.(importIntrons := true);
    var exons, introns := SplitRead(r, oe, g), SplitRead(r, oi, g);
    if exons.Built? && introns.Built? {
      var c := g[r.referenceName];
      var start := c.Position(r.alignmentStart);
      var strand := SplitStrand(r);
      SplitReadShape(r, oe, g);
      if 'N' in r.cigar {
        var ops, nums := Operations(r.cigar), Numbers(r.cigar);
        var w0 := Walk(start, start, -1, []);
        WalkPaired(ops, nums, 0, w0, w0, c.chromosome, strand);
        var we := WalkFrom(ops, nums, 0, w0, false, c.chromosome, strand).value;
        var wi := WalkFrom(ops, nums, 0, w0, true, c.chromosome, strand).value;
        FinishPaired(we, wi, c.chromosome, strand);
      }
    }
  }

  /** The operation tokens of 10M5N10M: "", M, N, M. */
  lemma ExampleOperations(s: string)
    requires s == "10M5N10M"
    ensures Operations(s) == ["", "M", "N", "M"]
  {
    var d := DigitRun;
    assert |s| == 8 && s[8..] == [];
    assert s[0] == '1' && s[1] == '0' && s[2] == 'M' && s[3] == '5' && s[4] == 'N' && s[5] == '1' && s[6] == '0' && s[7] == 'M';
    assert s[7..] == "M" && s[4..5] == "N" && s[2..3] == "M" && s[0..0] == "";
    assert DigitsFrom(s, 7) == 0 && DigitsFrom(s, 6) == 1 && DigitsFrom(s, 5) == 2;
    assert DigitsFrom(s, 4) == 0 && DigitsFrom(s, 3) == 1 && DigitsFrom(s, 2) == 0;
    assert DigitsFrom(s, 1) == 1 && DigitsFrom(s, 0) == 2;
    assert Pieces(s, d, 8, 7) == ["M"];
    assert Pieces(s, d, 7, 7) == ["M"];
    assert Pieces(s, d, 5, 4) == ["N", "M"];
    assert Pieces(s, d, 4, 4) == ["N", "M"];
    assert Pieces(s, d, 3, 2) == ["M", "N", "M"];
    assert Pieces(s, d, 2, 2) == ["M", "N", "M"];
    assert Pieces(s, d, 0, 0) == ["", "M", "N", "M"];
  }

  /** The count tokens of 10M5N10M: 10, 5, 10 (the empty piece after the last M is dropped). */
  lemma ExampleNumbers(s: string)
    requires s == "10M5N10M"
    ensures Numbers(s) == ["10", "5", "10"]
  {
    var d := CigarOperation;
    assert |s| == 8 && s[8..] == [];
    assert s[0] == '1' && s[1] == '0' && s[2] == 'M' && s[3] == '5' && s[4] == 'N' && s[5] == '1' && s[6] == '0' && s[7] == 'M';
    assert s[5..7] == "10" && s[3..4] == "5" && s[0..2] == "10";
    assert Pieces(s, d, 8, 8) == [""];
    assert Pieces(s, d, 7, 5) == ["10", ""];
    assert Pieces(s, d, 6, 5) == ["10", ""];
    assert Pieces(s, d, 5, 5) == ["10", ""];
    assert Pieces(s, d, 4, 3) == ["5", "10", ""];
    assert Pieces(s, d, 3, 3) == ["5", "10", ""];
    assert Pieces(s, d, 2, 0) == ["10", "5", "10", ""];
    assert Pieces(s, d, 1, 0) == ["10", "5", "10", ""];
    assert Pieces(s, d, 0, 0) == ["10", "5", "10", ""];
    var p: seq<string> := ["10", "5", "10", ""];
    assert p[..3] == ["10", "5", "10"];
  }

  /** The counts 10 and 5 parse as themselves. */
  lemma ExampleCounts()
    ensures ParseInt("10") == Some(10) && ParseInt("5") == Some(5)
  {
    assert DigitsValue("1") == 1 by { assert "1"[..0] == ""; }
    assert DigitsValue("10") == 10 by { assert "10"[..1] == "1"; }
    assert DigitsValue("5") == 5 by { assert "5"[..0] == ""; }
    assert forall k :: 0 <= k < |"10"| ==> IsDigit("10"[k]);
    assert forall k :: 0 <= k < |"5"| ==> IsDigit("5"[k]);
  }

  /** The walk over the tokens of 10M5N10M from position 100. */
  lemma ExampleWalk(ops: seq<string>, nums: seq<string>, c: Chromosome, introns: bool)
    requires ops == ["", "M", "N", "M"] && nums == ["10", "5", "10"]
    requires c.length >= 124
    ensures WalkFrom(ops, nums, 0, Walk(100, 100, -1, []), introns, c, Forward) ==
      if introns then Built(Walk(124, 115, 109, [])) else Built(Walk(124, 115, -1, [Read(c, 100, 109, Forward)]))
  {
    ExampleCounts();
    var w0 := Walk(100, 100, -1, []);
    var w1 := Walk(109, 100, -1, []);
    assert Step(ops[1], nums[0], w0, introns, c, Forward) == Built(w1);
    assert ParseInt(nums[1]) == Some(5);
    if introns {
      var w2 := Walk(115, 115, 109, []);
      assert ops[2] == "N" && !(ops[2] == "M" || ops[2] == "I") && ops[2] != "D";
      assert Step(ops[2], nums[1], w1, introns, c, Forward) == Built(w2);
      assert Step(ops[3], nums[2], w2, introns, c, Forward) == Built(w2.(cursor := 124));
      assert WalkFrom(ops, nums, 2, w2, introns, c, Forward) == Built(w2.(cursor := 124));
      assert WalkFrom(ops, nums, 1, w1, introns, c, Forward) == Built(w2.(cursor := 124));
    } else {
      var w2 := Walk(115, 115, -1, [Read(c, 100, 109, Forward)]);
      assert ops[2] == "N" && !(ops[2] == "M" || ops[2] == "I") && ops[2] != "D";
      assert w1.emitted + [Read(c, w1.spanStart, w1.cursor, Forward)] == w2.emitted;
      assert Step(ops[2], nums[1], w1, introns, c, Forward) == Built(w2);
      assert Step(ops[3], nums[2], w2, introns, c, Forward) == Built(w2.(cursor := 124));
      assert WalkFrom(ops, nums, 2, w2, introns, c, Forward) == Built(w2.(cursor := 124));
      assert WalkFrom(ops, nums, 1, w1, introns, c, Forward) == Built(w2.(cursor := 124));
    }
  }

  /**
   * A worked example: an unpaired forward read with CIGAR 10M5N10M aligned at 100 on
   * a chromosome of 1000 bases gives the exons [100, 109] and [115, 124], or
   * the intron [110, 114].
   */
  lemma SplicedExample(r: SamRecord, g: Genome, o: ImportOptions)
    requires r.cigar == "10M5N10M" && r.alignmentStart == 100 && !r.readNegativeStrand && !r.readPaired
    requires r.referenceName in g && g[r.referenceName] == ChromosomeWithOffset(Chromosome("chr1", 1000), 0)
    ensures var c := Chromosome("chr1", 1000);
      SplitRead(r, o, g) ==
        if o.importIntrons then Built([Read(c, 110, 114, Forward)])
        else Built([Read(c, 100, 109, Forward), Read(c, 115, 124, Forward)])
  {
    ExampleOperations(r.cigar);
    ExampleNumbers(r.cigar);
    assert 'N' in r.cigar by { assert r.cigar[4] == 'N'; }
    var c := Chromosome("chr1", 1000);
    ExampleWalk(Operations(r.cigar), Numbers(r.cigar), c, o.importIntrons);
    assert SplitStrand(r) == Forward;
    assert g[r.referenceName].Position(r.alignmentStart) == 100;
    assert |Operations(r.cigar)| == |Numbers(r.cigar)| + 1;
    if o.importIntrons {
      assert [] + [Read(c, 110, 114, Forward)] == [Read(c, 110, 114, Forward)];
      assert Finish(Walk(124, 115, 109, []), true, c, Forward) == Built([Read(c, 110, 114, Forward)]);
    } else {
      assert [Read(c, 100, 109, Forward)] + [Read(c, 115, 124, Forward)] == [Read(c, 100, 109, Forward), Read(c, 115, 124, Forward)];
      assert Finish(Walk(124, 115, -1, [Read(c, 100, 109, Forward)]), false, c, Forward)
        == Built([Read(c, 100, 109, Forward), Read(c, 115, 124, Forward)]);
    }
  }
}

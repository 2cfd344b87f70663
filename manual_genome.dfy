/**
 * ManualGenome: the table of a manually built genome. A list of chromosome
 * objects in row order is kept in step with a name-to-chromosome table;
 * chromosomes are created on first request by name and removed singly or
 * in batches, the batch removing rows by index from the highest down.
 */
module ManualGenomes {
  import opened Results
  import opened Vectors

  /** A ManualGenomeChromosome, as far as the genome table reads and writes it. */
  class ManualGenomeChromosome {
    const name: string
    var length: int
    var pseudoChromosomeName: Option<string>
    var pseudoChromosomeOffset: int
    var hasFeatures: bool

    /** new ManualGenomeChromosome(name, genome); the class itself is not part of this model, so only the name is known. */
    constructor(name: string)
      ensures this.name == name
    {
      this.name := name;
    }
  }

  /** A value of the table: text, a number, or the pseudo-chromosome name when there is one. */
  datatype Cell = Text(text: string) | Number(number: int) | PseudoName(pseudo: Option<string>)

  /** The elements of s from position i on whose positions are not in p. */
  function KeepFrom<T>(s: seq<T>, p: set<int>, i: nat): seq<T>
    requires i <= |s|
    decreases |s| - i
  {
    if i == |s| then [] else (if i in p then [] else [s[i]]) + KeepFrom(s, p, i + 1)
  }

  /** Keeping by position is removing by element, when the positions are those of the removed elements. */
  lemma {:induction false} KeepIsWithout<T>(s: seq<T>, p: set<int>, d: set<T>, i: nat)
    requires i <= |s|
    requires forall k :: i <= k < |s| ==> (k in p <==> s[k] in d)
    ensures KeepFrom(s, p, i) == Without(s[i..], d)
    decreases |s| - i
  {
    if i < |s| {
      KeepIsWithout(s, p, d, i + 1);
      assert s[i..][0] == s[i] && s[i..][1..] == s[i + 1..];
    }
  }

  lemma {:induction false} KeepPrefix<T>(s: seq<T>, p: set<int>, i: nat, k: nat)
    requires i <= k < |s|
    requires forall q :: q in p ==> q > k
    ensures KeepFrom(s, p, i) == s[i..k + 1] + KeepFrom(s, p, k + 1)
    decreases k - i
  {
    if i < k {
      KeepPrefix(s, p, i + 1, k);
      assert s[i..k + 1] == [s[i]] + s[i + 1..k + 1];
    }
  }

  lemma {:induction false} KeepNothing<T>(s: seq<T>, i: nat)
    requires i <= |s|
    ensures KeepFrom(s, {}, i) == s[i..]
    decreases |s| - i
  {
    if i < |s| {
      KeepNothing(s, i + 1);
      assert s[i..] == [s[i]] + s[i + 1..];
    }
  }

  lemma {:induction false} KeepAgree<T>(s: seq<T>, p: set<int>, q: set<int>, i: nat)
    requires i <= |s|
    requires forall k :: i <= k < |s| ==> (k in p <==> k in q)
    ensures KeepFrom(s, p, i) == KeepFrom(s, q, i)
    decreases |s| - i
  {
    if i < |s| {
      KeepAgree(s, p, q, i + 1);
    }
  }

  /** Removing position k, below every position already removed, is the same as keeping without k as well. */
  lemma KeepRemove<T>(s: seq<T>, p: set<int>, k: nat)
    requires k < |s| && forall q :: q in p ==> q > k
    ensures |KeepFrom(s, p, 0)| > k
    ensures RemoveAt(KeepFrom(s, p, 0), k) == KeepFrom(s, p + {k}, 0)
  {
    KeepPrefix(s, p, 0, k);
    KeepAgree(s, p, p + {k}, k + 1);
    var rest := KeepFrom(s, p, k + 1);
    assert KeepFrom(s, p + {k}, k) == rest;
    if k > 0 {
      KeepPrefix(s, p + {k}, 0, k - 1);
      assert s[..k] + rest == s[0..k - 1 + 1] + KeepFrom(s, p + {k}, k);
    }
    assert (s[..k + 1] + rest)[..k] == s[..k];
    assert (s[..k + 1] + rest)[k + 1..] == rest;
  }

  /** A row list and a name table that hold the same chromosomes, each once, each under its own name. */
  ghost predicate Consistent(list: seq<ManualGenomeChromosome>, names: map<string, ManualGenomeChromosome>)
  {
    && Distinct(list)
    && (forall i :: 0 <= i < |list| ==> list[i].name in names && names[list[i].name] == list[i])
    && (forall n :: n in names ==> names[n] in list && names[n].name == n)
  }

  /** The names of the given chromosomes. */
  ghost function NamesOf(s: seq<ManualGenomeChromosome>): set<string>
  {
    set c | c in s :: c.name
  }

  lemma NamesOfAppend(s: seq<ManualGenomeChromosome>, c: ManualGenomeChromosome)
    ensures NamesOf(s + [c]) == NamesOf(s) + {c.name}
  {
    assert forall x :: x in s + [c] <==> x in s || x == c;
  }

  ghost predicate Ascending(s: seq<int>)
  {
    forall i, j :: 0 <= i < j < |s| ==> s[i] <= s[j]
  }

  /** x put into its place in an ascending list. */
  function Insert(x: int, s: seq<int>): (r: seq<int>)
    requires Ascending(s)
    ensures Ascending(r) && multiset(r) == multiset(s) + multiset{x}
    ensures r[0] == x || (s != [] && r[0] == s[0])
  {
    if s == [] || x <= s[0] then [x] + s
    else
      assert s == [s[0]] + s[1..];
      [s[0]] + Insert(x, s[1..])
  }

  /** Arrays.sort on ints: the same numbers, ascending. */
  function SortInts(s: seq<int>): (r: seq<int>)
    ensures Ascending(r) && multiset(r) == multiset(s)
  {
    if s == [] then []
    else
      assert s == s[..|s| - 1] + [s[|s| - 1]];
      Insert(s[|s| - 1], SortInts(s[..|s| - 1]))
  }

  /** A list without repeats holds each number at most once. */
  lemma {:induction false} DistinctOnce(t: seq<int>)
    requires Distinct(t)
    ensures forall x :: multiset(t)[x] <= 1
  {
    if t != [] {
      var front := t[..|t| - 1];
      DistinctOnce(front);
      assert t == front + [t[|t| - 1]];
      assert t[|t| - 1] !in front by {
        forall k | 0 <= k < |front| ensures front[k] != t[|t| - 1] {
          assert front[k] == t[k];
        }
      }
    }
  }

  /** Sorting numbers without repeats gives a strictly ascending list of the same numbers. */
  lemma SortedDistinct(t: seq<int>)
    requires Distinct(t)
    ensures forall i, j :: 0 <= i < j < |SortInts(t)| ==> SortInts(t)[i] < SortInts(t)[j]
    ensures forall x :: x in SortInts(t) <==> x in t
  {
    var s := SortInts(t);
    DistinctOnce(t);
    forall x ensures x in s <==> x in t {
      assert x in s <==> x in multiset(s);
      assert x in t <==> x in multiset(t);
    }
    forall i, j | 0 <= i < j < |s|
      ensures s[i] < s[j]
    {
      if s[i] == s[j] {
        TwiceCounted(s, i, j);
      }
    }
  }

  lemma TwiceCounted(s: seq<int>, i: nat, j: nat)
    requires i < j < |s| && s[i] == s[j]
    ensures multiset(s)[s[i]] >= 2
  {
    assert s == s[..j] + s[j..];
    assert s[..j][i] == s[i] && s[j..][0] == s[j];
    assert multiset(s) == multiset(s[..j]) + multiset(s[j..]);
  }

  /** The table has five columns. */
  const ColumnCount := 5

  /** The column headings: one for each of the five columns, null past them. */
  function ColumnName(c: int): (n: Option<string>)
    ensures n.Some? <==> 0 <= c < ColumnCount
  {
    if c == 0 then Some("Region name")
    else if c == 1 then Some("Length")
    else if c == 2 then Some("Pseudo Chr Name")
    else if c == 3 then Some("Pseudo Chr Offset")
    else if c == 4 then Some("Features")
    else None
  }

  /** Only the length column can be edited. */
  function IsCellEditable(r: int, c: int): (editable: bool)
    ensures editable <==> ColumnName(c) == Some("Length")
  {
    c == 1
  }

  class ManualGenome {
    /** The chromosomes in row order. */
    var chrs: seq<ManualGenomeChromosome>
    /** Each chromosome under its name. */
    var chrNames: map<string, ManualGenomeChromosome>
    /** The pseudo-genome, by its number of chromosomes, when one is set. */
    var pseudoGenome: Option<nat>

    /** The list and the name table hold the same chromosomes, each once, each under its own name. */
    ghost predicate Valid()
      reads this
    {
      Consistent(chrs, chrNames)
    }

    constructor()
      ensures Valid() && chrs == [] && chrNames == map[] && pseudoGenome == None
    {
      chrs := [];
      chrNames := map[];
      pseudoGenome := None;
    }

    /** getChromosome(name): the chromosome of that name, created and appended as a new row when there is none. */
    method GetChromosome(name: string) returns (chr: ManualGenomeChromosome)
      requires Valid()
      modifies this`chrs, this`chrNames, this`pseudoGenome
      ensures Valid() && pseudoGenome == old(pseudoGenome)
      ensures chr.name == name && name in chrNames && chrNames[name] == chr
      ensures name in old(chrNames) ==> chr == old(chrNames)[name] && chrs == old(chrs) && chrNames == old(chrNames)
      ensures name !in old(chrNames) ==> fresh(chr) && chrs == old(chrs) + [chr] && chrNames == old(chrNames)[name := chr]
    {
      if name !in chrNames {
        var c := new ManualGenomeChromosome(name);
        chrs := chrs + [c];
        chrNames := chrNames[name := c];
        UpdatePseudoGenome();
      }
      chr := chrNames[name];
    }

    /** getChromosome(index): the chromosome of a row, which is the one the name table holds under its name. */
    function ChromosomeAt(index: int): (chr: ManualGenomeChromosome)
      reads this
      requires Valid() && 0 <= index < |chrs|
      ensures chr.name in chrNames && chrNames[chr.name] == chr && chr in chrs
    {
      chrs[index]
    }

    /** getRowCount: one row per chromosome, that is one per name. */
    function RowCount(): (n: nat)
      reads this
      requires Valid()
      ensures n == |chrNames.Keys|
    {
      NamesCount();
      |chrs|
    }

    lemma NamesCount()
      requires Valid()
      ensures |chrs| == |chrNames.Keys|
    {
      NamesOfDistinct(chrs, chrNames, |chrs|);
      var names := set i | 0 <= i < |chrs| :: chrs[i].name;
      assert names == chrNames.Keys by {
        forall n | n in chrNames
          ensures n in names
        {
          var i :| 0 <= i < |chrs| && chrs[i] == chrNames[n];
        }
      }
    }

    /** The names of the first k chromosomes number k, as no two chromosomes of the table share a name. */
    static lemma {:induction false} NamesOfDistinct(s: seq<ManualGenomeChromosome>, names: map<string, ManualGenomeChromosome>, k: nat)
      requires Consistent(s, names) && k <= |s|
      ensures |set i | 0 <= i < k :: s[i].name| == k
    {
      if k > 0 {
        NamesOfDistinct(s, names, k - 1);
        var before := set i | 0 <= i < k - 1 :: s[i].name;
        assert (set i | 0 <= i < k :: s[i].name) == before + {s[k - 1].name};
        forall i | 0 <= i < k - 1
          ensures s[i].name != s[k - 1].name
        {
          assert names[s[i].name] == s[i];
          assert names[s[k - 1].name] == s[k - 1];
          assert s[i] != s[k - 1];
        }
      }
    }

    /** getValueAt(r, c): the row's name, length, pseudo-chromosome name and offset, and "Yes" or "No" for features; null past column 4. */
    function ValueAt(r: int, c: int): (v: Option<Cell>)
      reads this, chrs
      requires 0 <= c < 5 ==> 0 <= r < |chrs|
      ensures v.Some? <==> 0 <= c < 5
      ensures c == 4 ==> v == Some(Text(if chrs[r].hasFeatures then "Yes" else "No"))
      ensures c == 0 ==> v == Some(Text(chrs[r].name))
    {
      if c == 0 then Some(Text(chrs[r].name))
      else if c == 1 then Some(Number(chrs[r].length))
      else if c == 2 then Some(PseudoName(chrs[r].pseudoChromosomeName))
      else if c == 3 then Some(Number(chrs[r].pseudoChromosomeOffset))
      else if c == 4 then Some(Text(if chrs[r].hasFeatures then "Yes" else "No"))
      else None
    }

    /** removeChromosome(chr): the chromosome leaves both the list and the name table; the other rows keep their order. */
    method RemoveChromosome(chr: ManualGenomeChromosome)
      requires Valid()
      modifies this`chrs, this`chrNames, this`pseudoGenome
      ensures pseudoGenome == old(pseudoGenome)
      ensures chrs == Without(old(chrs), {chr})
      ensures chrNames == old(chrNames) - {chr.name}
      ensures old(chr in chrs || chr.name !in chrNames) ==> Valid()
    {
      RemoveFirstWithout(chrs, chr);
      chrs := RemoveFirst(chrs, chr);
      chrNames := chrNames - {chr.name};
      UpdatePseudoGenome();
      forall x ensures x in chrs <==> x in old(chrs) && x != chr {
        WithoutMembers(old(chrs), {chr}, x);
      }
      WithoutDistinct(old(chrs), {chr});
    }

    /**
     * removeChromosome(chrsToDelete): the row of each chromosome is looked
     * up and its name dropped from the table; the rows are then sorted and
     * removed from the highest down, so each index still points at its row.
     * Every given chromosome leaves both, and the others keep their order.
     */
    method RemoveChromosomes(chrsToDelete: seq<ManualGenomeChromosome>)
      requires Valid()
      requires forall c :: 0 <= c < |chrsToDelete| ==> chrsToDelete[c] in chrs
      requires Distinct(chrsToDelete)
      modifies this`chrs, this`chrNames, this`pseudoGenome
      ensures Valid() && pseudoGenome == old(pseudoGenome)
      ensures chrs == Without(old(chrs), set c | c in chrsToDelete)
      ensures chrNames == old(chrNames) - NamesOf(chrsToDelete)
    {
      var indices := LookUpRows(chrsToDelete);
      IndicesAreRows(chrs, chrsToDelete, indices[..]);
      var sorted := SortInts(indices[..]);
      SortedRows(indices[..], |chrs|);
      RemoveRows(sorted);
      RemovedRows(old(chrs), old(chrNames), chrsToDelete, indices[..], sorted, chrs, chrNames);
      UpdatePseudoGenome();
    }

    /** The first loop of the batch removal: each chromosome's row, with its name dropped from the table. */
    method LookUpRows(chrsToDelete: seq<ManualGenomeChromosome>) returns (indices: array<int>)
      modifies this`chrNames
      ensures fresh(indices) && indices.Length == |chrsToDelete|
      ensures chrNames == old(chrNames) - NamesOf(chrsToDelete)
      ensures forall k :: 0 <= k < |chrsToDelete| ==> indices[k] == IndexOf(chrs, chrsToDelete[k])
    {
      indices := new int[|chrsToDelete|];
      var c := 0;
      while c < |chrsToDelete|
        invariant 0 <= c <= |chrsToDelete|
        invariant forall k :: 0 <= k < c ==> indices[k] == IndexOf(chrs, chrsToDelete[k])
        invariant chrNames == old(chrNames) - NamesOf(chrsToDelete[..c])
      {
        indices[c] := IndexOf(chrs, chrsToDelete[c]);
        NamesOfAppend(chrsToDelete[..c], chrsToDelete[c]);
        assert chrsToDelete[..c + 1] == chrsToDelete[..c] + [chrsToDelete[c]];
        chrNames := chrNames - {chrsToDelete[c].name};
        c := c + 1;
      }
      assert chrsToDelete[..c] == chrsToDelete;
    }

    /** The rows of the chromosomes to delete: no two alike, and exactly the rows holding those chromosomes. */
    static lemma IndicesAreRows(s: seq<ManualGenomeChromosome>, del: seq<ManualGenomeChromosome>, indices: seq<int>)
      requires Distinct(s) && Distinct(del) && |indices| == |del|
      requires forall c :: 0 <= c < |del| ==> del[c] in s
      requires forall k :: 0 <= k < |del| ==> indices[k] == IndexOf(s, del[k])
      ensures Distinct(indices)
      ensures forall k :: 0 <= k < |indices| ==> 0 <= indices[k] < |s|
      ensures forall k :: 0 <= k < |s| ==> (k in indices <==> s[k] in del)
    {
      forall k | 0 <= k < |s| && s[k] in del
        ensures k in indices
      {
        var a :| 0 <= a < |del| && del[a] == s[k];
        var j := IndexOf(s, del[a]);
        assert s[j] == s[k];
        assert indices[a] == k;
      }
    }

    /** Arrays.sort on distinct rows: strictly ascending, the same rows. */
    static lemma SortedRows(indices: seq<int>, n: nat)
      requires Distinct(indices) && forall k :: 0 <= k < |indices| ==> 0 <= indices[k] < n
      ensures forall i, j :: 0 <= i < j < |SortInts(indices)| ==> SortInts(indices)[i] < SortInts(indices)[j]
      ensures forall k :: 0 <= k < |SortInts(indices)| ==> 0 <= SortInts(indices)[k] < n
      ensures forall x :: x in SortInts(indices) <==> x in indices
    {
      SortedDistinct(indices);
      var s := SortInts(indices);
      forall k | 0 <= k < |s| ensures 0 <= s[k] < n {
        assert s[k] in s;
      }
    }

    /** After the removal loop the list is the old one without the given chromosomes, and it agrees with the table. */
    static lemma RemovedRows(s0: seq<ManualGenomeChromosome>, names0: map<string, ManualGenomeChromosome>,
                             del: seq<ManualGenomeChromosome>, indices: seq<int>, sorted: seq<int>,
                             s1: seq<ManualGenomeChromosome>, names1: map<string, ManualGenomeChromosome>)
      requires Consistent(s0, names0) && forall c :: 0 <= c < |del| ==> del[c] in s0
      requires forall k :: 0 <= k < |s0| ==> (k in indices <==> s0[k] in del)
      requires forall x :: x in sorted <==> x in indices
      requires s1 == KeepFrom(s0, set j | 0 <= j < |sorted| :: sorted[j], 0)
      requires names1 == names0 - (set c | c in del :: c.name)
      ensures s1 == Without(s0, set c | c in del)
      ensures Consistent(s1, names1)
    {
      var d := set x | x in del;
      var rows := set j | 0 <= j < |sorted| :: sorted[j];
      forall k | 0 <= k < |s0|
        ensures k in rows <==> s0[k] in d
      {
        assert k in rows <==> k in sorted;
      }
      KeepIsWithout(s0, rows, d, 0);
      assert (set c | c in del :: c.name) == set c | c in d :: c.name;
      RemovalKeepsValid(s0, names0, d, s1, names1);
    }

    /** The removal loop: rows taken out from the highest down, each index still naming its original row. */
    method RemoveRows(rows: seq<int>)
      requires forall i, j :: 0 <= i < j < |rows| ==> rows[i] < rows[j]
      requires forall k :: 0 <= k < |rows| ==> 0 <= rows[k] < |chrs|
      modifies this`chrs
      ensures chrs == KeepFrom(old(chrs), set j | 0 <= j < |rows| :: rows[j], 0)
    {
      var i := |rows| - 1;
      assert (set j | i < j < |rows| :: rows[j]) == {};
      KeepNothing(chrs, 0);
      while i >= 0
        invariant -1 <= i < |rows|
        invariant chrs == KeepFrom(old(chrs), set j | i < j < |rows| :: rows[j], 0)
      {
        KeepRemove(old(chrs), set j | i < j < |rows| :: rows[j], rows[i]);
        chrs := RemoveAt(chrs, rows[i]);
        assert (set j | i - 1 < j < |rows| :: rows[j]) == (set j | i < j < |rows| :: rows[j]) + {rows[i]};
        i := i - 1;
      }
      assert (set j | i < j < |rows| :: rows[j]) == set j | 0 <= j < |rows| :: rows[j];
    }

    /** Dropping a set of the list's chromosomes from the list, and their names from the table, keeps the two in step. */
    static lemma RemovalKeepsValid(s0: seq<ManualGenomeChromosome>, names0: map<string, ManualGenomeChromosome>, d: set<ManualGenomeChromosome>,
                                   s1: seq<ManualGenomeChromosome>, names1: map<string, ManualGenomeChromosome>)
      requires Consistent(s0, names0) && forall c :: c in d ==> c in s0
      requires s1 == Without(s0, d) && names1 == names0 - (set c | c in d :: c.name)
      ensures Consistent(s1, names1)
    {
      WithoutDistinct(s0, d);
      forall x ensures x in s1 <==> x in s0 && x !in d {
        WithoutMembers(s0, d, x);
      }
      forall i | 0 <= i < |s1|
        ensures s1[i].name in names1 && names1[s1[i].name] == s1[i]
      {
        var x := s1[i];
        assert x in s1;
        forall y | y in d
          ensures y.name != x.name
        {
          assert names0[y.name] == y;
          assert names0[x.name] == x;
        }
      }
    }

    /** removePseudoGenome: when a pseudo-genome is set, clears it and every chromosome's pseudo-chromosome; otherwise does nothing. */
    method RemovePseudoGenome()
      requires Valid()
      modifies this`pseudoGenome, chrs
      ensures Valid() && pseudoGenome == None
      ensures old(pseudoGenome).None? ==> forall c :: c in chrs ==> unchanged(c)
      ensures old(pseudoGenome).Some? ==> forall c :: c in chrs ==> c.pseudoChromosomeName == None && c.pseudoChromosomeOffset == 0
      ensures forall c :: c in chrs ==> c.length == old(c.length) && c.hasFeatures == old(c.hasFeatures)
    {
      if pseudoGenome.Some? {
        pseudoGenome := None;
        var i := 0;
        while i < |chrs|
          invariant 0 <= i <= |chrs| && pseudoGenome == None
          invariant forall k :: 0 <= k < i ==> chrs[k].pseudoChromosomeName == None && chrs[k].pseudoChromosomeOffset == 0
          invariant forall c :: c in chrs ==> c.length == old(c.length) && c.hasFeatures == old(c.hasFeatures)
        {
          var chr := chrs[i];
          chr.pseudoChromosomeName, chr.pseudoChromosomeOffset := None, 0;
          i := i + 1;
        }
      }
    }

    /** addPseudoGenome(n): a pseudo-genome of n chromosomes. */
    method AddPseudoGenome(n: nat)
      modifies this`pseudoGenome
      ensures pseudoGenome == Some(n)
    {
      pseudoGenome := Some(n);
    }

    /** updatePseudoGenome: rebuilds the pseudo-genome with the same number of chromosomes. */
    method UpdatePseudoGenome()
      modifies this`pseudoGenome
      ensures pseudoGenome == old(pseudoGenome)
    {
      if pseudoGenome.Some? {
        pseudoGenome := Some(pseudoGenome.value);
      }
    }
  }
}

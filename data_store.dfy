/**
 * DataStore: a named set of data with one quantitation value per probe.
 * The value array is allocated on the first value stored, at the size of
 * the current probe set, and dropped when the values are reset or the
 * probe set is replaced.
 */
module DataStores {
  import opened Results
  import opened JavaText
  import opened ProbeSets

  /** The BamQCException a value lookup can throw. */
  datatype StoreError =
    | NoQuantitation(store: string)  // no value array: "No quantitation for probe ... in <name>"
    | IndexOutOfRange                // "Probe data index out of range"

  class DataStore {
    var name: string
    /** The per-probe values (float), null until the first one is stored. */
    var probeData: array?<real>
    /** The length the value array is given when it is allocated. */
    var probeDataSize: int
    var collection: DataCollection?

    constructor(name: string)
      ensures this.name == name && probeData == null && probeDataSize == 0 && collection == null
    {
      this.name := name;
      probeData := null;
      probeDataSize := 0;
      collection := null;
    }

    /** isQuantitated: a value array is allocated. */
    predicate IsQuantitated()
      reads this
    {
      probeData != null
    }

    /** resetAllProbeValues: the value array is dropped. */
    method ResetAllProbeValues()
      modifies this`probeData
      ensures !IsQuantitated()
    {
      probeData := null;
    }

    /**
     * setValueForProbe: allocates a zero-filled array of probeDataSize on
     * first use, then stores the value at the probe's index, which must lie
     * inside the array (Java throws otherwise).
     */
    method SetValueForProbe(p: Probe, f: real)
      requires probeData == null ==> p.index < probeDataSize
      requires probeData != null ==> p.index < probeData.Length
      modifies this`probeData, probeData
      ensures IsQuantitated() && GetValueForProbe(p) == Ok(f)
      ensures old(probeData) == null ==> fresh(probeData) && probeData.Length == probeDataSize
      ensures old(probeData) == null ==> forall k :: 0 <= k < probeData.Length && k != p.index ==> probeData[k] == 0.0
      ensures old(probeData) != null ==> probeData == old(probeData)
      ensures old(probeData) != null ==> forall k :: 0 <= k < probeData.Length && k != p.index ==> probeData[k] == old(probeData[k])
    {
      if probeData == null {
        probeData := new real[probeDataSize](_ => 0.0);
      }
      probeData[p.index] := f;
    }

    /** hasValueForProbe: the array is allocated and reaches the probe's index, which is exactly when a lookup succeeds. */
    function HasValueForProbe(p: Probe): (has: bool)
      reads this, p, probeData
      ensures has <==> GetValueForProbe(p).Ok?
    {
      probeData != null && probeData.Length > p.index
    }

    /** getValueForProbe: the stored value, or the error for a missing array or an index past its end. */
    function GetValueForProbe(p: Probe): (r: Result<real, StoreError>)
      reads this, p, probeData
      ensures r.Ok? ==> IsQuantitated() && p.index < probeData.Length && r.value == probeData[p.index]
      ensures r.Err? ==> (r.error == IndexOutOfRange <==> IsQuantitated())
    {
      if probeData == null then Err(NoQuantitation(name))
      else if p.index >= probeData.Length then Err(IndexOutOfRange)
      else Ok(probeData[p.index])
    }

    /** probeSetReplaced: the values are dropped and the next array takes the new set's size, or 0 without one. */
    method ProbeSetReplaced(probes: ProbeSet?)
      modifies this`probeData, this`probeDataSize
      ensures !IsQuantitated()
      ensures probeDataSize == if probes == null then 0 else probes.Size()
    {
      probeData := null;
      if probes != null {
        probeDataSize := probes.Size();
      } else {
        probeDataSize := 0;
      }
    }

    method SetName(name: string)
      modifies this`name
      ensures this.name == name
    {
      this.name := name;
    }

    method SetCollection(c: DataCollection?)
      modifies this`collection
      ensures collection == c
    {
      collection := c;
    }

    /** compareTo: alphabetical order of the lower-cased names; zero exactly when they agree. */
    function CompareTo(s: DataStore): (c: int)
      reads this, s
      ensures c == 0 <==> ToLower(name) == ToLower(s.name)
    {
      CompareToZero(ToLower(name), ToLower(s.name));
      JavaText.CompareTo(ToLower(name), ToLower(s.name))
    }
  }

  /** Comparing two stores either way round gives opposite answers. */
  lemma StoresCompareAntisymmetric(a: DataStore, b: DataStore)
    ensures a.CompareTo(b) == -b.CompareTo(a)
  {
    CompareToAntisymmetric(ToLower(a.name), ToLower(b.name));
  }

  /** Two stores whose names differ only in letter case compare equal. */
  lemma CaseBlindNames(a: DataStore, b: DataStore)
    requires |a.name| == |b.name|
    requires forall k :: 0 <= k < |a.name| ==> LowerChar(a.name[k]) == LowerChar(b.name[k])
    ensures a.CompareTo(b) == 0
  {
    assert ToLower(a.name) == ToLower(b.name);
  }
}

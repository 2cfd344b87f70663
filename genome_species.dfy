/**
 * GenomeSpecies: one species of the downloadable genome list, with the
 * assemblies offered for it in the order they were added.
 */
module DownloadableGenomes {

  /** One downloadable assembly; GenomeAssembly itself is not part of this model. */
  class GenomeAssembly {
    constructor() {}
  }

  class GenomeSpecies {
    const name: string
    var assemblies: seq<GenomeAssembly>

    constructor(name: string)
      ensures this.name == name && assemblies == []
    {
      this.name := name;
      assemblies := [];
    }

    /** addAssembly: appends the assembly; null is ignored. */
    method AddAssembly(assembly: GenomeAssembly?)
      modifies this`assemblies
      ensures assembly == null ==> assemblies == old(assemblies)
      ensures assembly != null ==> assemblies == old(assemblies) + [assembly]
    {
      if assembly != null {
        assemblies := assemblies + [assembly];
      }
    }

    /** assemblies(): a new array holding the assemblies in the order they were added. */
    method Assemblies() returns (r: array<GenomeAssembly>)
      ensures fresh(r) && r[..] == assemblies
    {
      var a := assemblies;
      r := new GenomeAssembly[|a|](i requires 0 <= i < |a| => a[i]);
    }
  }
}

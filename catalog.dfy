/** The module catalog (`pack._modules`): an ordered list of module names whose
    positions are the canonical bundle order. */
module Catalog {

  datatype Option<+T> = None | Some(value: T)

  /** The name of the bootstrap module that always takes slot 0 of a bundle. */
  const BOOTSTRAP := "async-core"

  /** Catalog names are unique, as the package's module list is. */
  predicate Unique(c: seq<string>) {
    forall i, j :: 0 <= i < j < |c| ==> c[i] != c[j]
  }

  /** The index that a `forEach` over the catalog leaves behind when it records
      every position whose name matches: the last one, or nothing. */
  function Find(c: seq<string>, name: string): (r: Option<nat>)
    ensures r.None? <==> name !in c
    ensures r.Some? ==> r.value < |c| && c[r.value] == name
    ensures r.Some? ==> forall j :: r.value < j < |c| ==> c[j] != name
  {
    if c == [] then None
    else if c[|c| - 1] == name then Some(|c| - 1)
    else Find(c[..|c| - 1], name)
  }

  /** The slot `add_module` writes `name` to: its catalog index, or 0 for a name
      the catalog does not list. */
  function Position(c: seq<string>, name: string): nat {
    match Find(c, name)
    case Some(i) => i
    case None => 0
  }

  lemma PositionOfListed(c: seq<string>, i: nat)
    requires Unique(c) && i < |c|
    ensures Find(c, c[i]) == Some(i) && Position(c, c[i]) == i
  {
  }
}

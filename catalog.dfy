/** The static package catalog of the package selector and the
    "is this the selected package" comparison its buttons use. */
module Catalog {
  import opened Wrappers

  /** A wash package: `washes` washes to be used within `duration` days. */
  datatype Package = Package(name: string, duration: nat, washes: nat)

  /** The catalog, in display order. */
  const Packages: seq<Package> := [
    Package("90 Days - 12 Washes", 90, 12),
    Package("60 Days - 8 Washes", 60, 8),
    Package("30 Days - 4 Washes", 30, 4)
  ]

  /** The three entries, as (duration, washes) pairs in display order. */
  lemma CatalogEntries()
    ensures |Packages| == 3
    ensures Packages[0].duration == 90 && Packages[0].washes == 12
    ensures Packages[1].duration == 60 && Packages[1].washes == 8
    ensures Packages[2].duration == 30 && Packages[2].washes == 4
  {
  }

  /** Every entry offers at least one wash over at least one day. */
  lemma CatalogPositive(i: int)
    requires 0 <= i < |Packages|
    ensures Packages[i].duration > 0 && Packages[i].washes > 0
  {
  }

  /** The button of `pkg` is highlighted when the selected package has its name. */
  function IsHighlighted(selected: Option<Package>, pkg: Package): (b: bool)
    ensures selected == Some(pkg) ==> b
    ensures selected.None? ==> !b
  {
    selected.Some? && selected.value.name == pkg.name
  }

  /** Catalog names are pairwise distinct, so a selection highlights at most one
      button, and a selected catalog entry highlights exactly its own. */
  lemma HighlightIdentifiesEntry(selected: Option<Package>, i: int, j: int)
    requires 0 <= i < |Packages| && 0 <= j < |Packages|
    requires IsHighlighted(selected, Packages[i]) && IsHighlighted(selected, Packages[j])
    ensures i == j
  {
  }
}

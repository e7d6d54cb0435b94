/**
 * The European roulette tables every tool of the repository repeats:
 * the red and black numbers, the three wheel sectors (Voisins du Zero,
 * Orphelins, Tiers du Cylindre), the colour and sector names given to a
 * number, and the dozen counts.
 */
module Roulette {

  /** A spin outcome. */
  predicate IsSpin(n: int) {
    0 <= n <= 36
  }

  const RedNumbers: set<int> := {1, 3, 5, 7, 9, 12, 14, 16, 18, 19, 21, 23, 25, 27, 30, 32, 34, 36}
  const BlackNumbers: set<int> := {2, 4, 6, 8, 10, 11, 13, 15, 17, 20, 22, 24, 26, 28, 29, 31, 33, 35}

  /** The sectors in the order the lists are written (this order matters where lists are concatenated). */
  const VoisinsList: seq<int> := [22, 18, 29, 7, 28, 12, 35, 3, 26, 0, 32, 15, 19, 4, 21, 2, 25]
  const OrphelinsList: seq<int> := [1, 20, 14, 31, 9, 17, 34, 6]
  const TiersList: seq<int> := [27, 13, 36, 11, 30, 8, 23, 10, 5, 24, 16, 33]

  const Voisins: set<int> := set n | n in VoisinsList
  const Orphelins: set<int> := set n | n in OrphelinsList
  const Tiers: set<int> := set n | n in TiersList

  /** A named list of numbers: one entry of a Python dict from names to number lists. */
  datatype NamedList = NamedList(name: string, numbers: seq<int>)

  /** The sectors under the class names "Big", "Orph" and "Small", in dict order. */
  const ClassLists: seq<NamedList> :=
    [NamedList("Big", VoisinsList), NamedList("Orph", OrphelinsList), NamedList("Small", TiersList)]

  /** No number is both red and black. */
  lemma ColoursDisjoint()
    ensures RedNumbers !! BlackNumbers
  {
  }

  /** The red and the black numbers together are 1..36. */
  lemma ColoursCover()
    ensures forall n :: n in RedNumbers || n in BlackNumbers <==> 1 <= n <= 36
  {
  }

  /** Red and black split the numbers 1..36 between them. */
  lemma ColoursPartition()
    ensures RedNumbers !! BlackNumbers
    ensures forall n :: n in RedNumbers || n in BlackNumbers <==> 1 <= n <= 36
  {
    ColoursDisjoint();
    ColoursCover();
  }

  /** No number is both in Voisins and in Orphelins. */
  lemma VoisinsOrphelins()
    ensures Voisins !! Orphelins
  {
    assert forall n :: n in OrphelinsList ==> n !in VoisinsList;
  }

  /** No number is both in Voisins and in Tiers. */
  lemma VoisinsTiers()
    ensures Voisins !! Tiers
  {
    assert forall n :: n in TiersList ==> n !in VoisinsList;
  }

  /** No number is both in Orphelins and in Tiers. */
  lemma OrphelinsTiers()
    ensures Orphelins !! Tiers
  {
    assert forall n :: n in OrphelinsList ==> n !in TiersList;
  }

  /** The sectors together hold exactly the spins. */
  lemma SectorsCover()
    ensures forall n :: n in Voisins || n in Orphelins || n in Tiers <==> IsSpin(n)
  {
    assert forall n :: 0 <= n <= 36 <==> n in VoisinsList || n in OrphelinsList || n in TiersList;
  }

  /** The three sectors split the spins 0..36 between them. */
  lemma SectorsPartition()
    ensures Voisins !! Orphelins && Voisins !! Tiers && Orphelins !! Tiers
    ensures forall n :: n in Voisins || n in Orphelins || n in Tiers <==> IsSpin(n)
  {
    VoisinsOrphelins();
    VoisinsTiers();
    OrphelinsTiers();
    SectorsCover();
  }

  /** The colour name of a number: green for 0, red for the red numbers, black otherwise. */
  function ColorName(num: int): (c: string)
    ensures c == "green" || c == "red" || c == "black"
  {
    if num == 0 then "green" else if num in RedNumbers then "red" else "black"
  }

  /** On a spin, the colour name agrees with the red and black tables. */
  lemma ColorNameOfSpin(num: int)
    requires IsSpin(num)
    ensures ColorName(num) == "green" <==> num == 0
    ensures ColorName(num) == "red" <==> num in RedNumbers
    ensures ColorName(num) == "black" <==> num in BlackNumbers
  {
    ColoursPartition();
  }

  /** The sector name of a number: green for Voisins, then blue for Orphelins, orange otherwise. */
  function SectorName(num: int): (c: string)
    ensures c == "green" || c == "blue" || c == "orange"
  {
    if num in Voisins then "green" else if num in Orphelins then "blue" else "orange"
  }

  /** On a spin, the sector name identifies its sector; any other number falls back to orange. */
  lemma SectorNameOfSpin(num: int)
    ensures IsSpin(num) ==> (SectorName(num) == "green" <==> num in Voisins)
    ensures IsSpin(num) ==> (SectorName(num) == "blue" <==> num in Orphelins)
    ensures IsSpin(num) ==> (SectorName(num) == "orange" <==> num in Tiers)
    ensures !IsSpin(num) ==> SectorName(num) == "orange"
  {
    SectorsPartition();
  }

  /** The number of entries n with start <= n <= end. */
  function DozenCount(numbers: seq<int>, start: int, end: int): (r: nat)
    ensures r <= |numbers|
  {
    if numbers == [] then 0
    else
      var last := numbers[|numbers| - 1];
      DozenCount(numbers[..|numbers| - 1], start, end) + (if start <= last <= end then 1 else 0)
  }

  /** The three dozens and the zeros account for every spin exactly once. */
  lemma {:induction false} DozensPartition(numbers: seq<int>)
    requires forall i :: 0 <= i < |numbers| ==> IsSpin(numbers[i])
    ensures DozenCount(numbers, 1, 12) + DozenCount(numbers, 13, 24) + DozenCount(numbers, 25, 36)
            + DozenCount(numbers, 0, 0) == |numbers|
  {
    if numbers != [] {
      DozensPartition(numbers[..|numbers| - 1]);
    }
  }
}

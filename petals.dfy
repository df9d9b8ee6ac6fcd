/** How many petals fall (src/components/ui/PetalsFalling.tsx). */
module Petals {

  /** `Math.min(Math.max(15, Math.floor(window.innerWidth / 50)), 30)`. */
  function PetalCount(innerWidth: nat): (count: nat)
    ensures 15 <= count <= 30
    ensures 15 <= innerWidth / 50 <= 30 ==> count == innerWidth / 50
    ensures innerWidth / 50 < 15 ==> count == 15
    ensures innerWidth / 50 > 30 ==> count == 30
  {
    var perWidth := innerWidth / 50;
    if perWidth > 30 then 30 else if perWidth < 15 then 15 else perWidth
  }

  /** `Array.from({ length: count }, (_, i) => i)`. */
  function PetalIndices(count: nat): (petals: seq<nat>)
    ensures |petals| == count
    ensures forall i :: 0 <= i < count ==> petals[i] == i
  {
    seq(count, i requires 0 <= i < count => i)
  }

  /** The `petals` state after mounting or after a resize to `innerWidth`: both compute it
      the same way. */
  function PetalsFor(innerWidth: nat): (petals: seq<nat>)
    ensures 15 <= |petals| <= 30
    ensures forall i :: 0 <= i < |petals| ==> petals[i] == i
  {
    PetalIndices(PetalCount(innerWidth))
  }

  /** A wider window never has fewer petals. */
  lemma PetalCountMonotone(narrow: nat, wide: nat)
    requires narrow <= wide
    ensures PetalCount(narrow) <= PetalCount(wide)
  {
    assert narrow / 50 <= wide / 50;
  }
}

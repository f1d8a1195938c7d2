/**
 The protocol of the shared page between geistd and the app: a sequence number that is odd while cells are
 written. Every atomic access is one step, so writers and readers interleave in any way.

 Sources: src/lifecycle.c and src/resource_sampler.c. Accesses are sequentially consistent and the sequence
 number is unbounded. The laws here are shared by the memory sample and the load phases.
 */
module Seqlock {

  /** The number, the cells, and (for the statements only) the cells as they were at each even number. */
  datatype Channel = Channel(number: nat, cells: seq<nat>, versions: seq<seq<nat>>)

  /** atomic_fetch_add of one. */
  function Bump(c: Channel): Channel {
    if c.number % 2 == 1 then c.(number := c.number + 1, versions := c.versions + [c.cells])
    else c.(number := c.number + 1)
  }

  function Put(c: Channel, cell: nat, value: nat): Channel
    requires cell < |c.cells|
  {
    c.(cells := c.cells[cell := value])
  }

  /** Between two writes the cells are the last version. */
  ghost predicate Sane(c: Channel, width: nat) {
    && |c.cells| == width && |c.versions| == c.number / 2 + 1
    && (c.number % 2 == 0 ==> c.cells == c.versions[c.number / 2])
    && forall j :: 0 <= j < |c.versions| ==> |c.versions[j]| == width
  }

  /** One attempt of a reader: the number it saw first and the cells loaded since. */
  datatype Reader = Resting | Loading(number: nat, got: seq<nat>)

  /** What a reader has loaded is one version, as long as the number it saw still stands. */
  ghost predicate Follows(c: Channel, r: Reader) {
    r.Loading? ==>
      && r.number % 2 == 0 && r.number <= c.number && |r.got| <= |c.cells|
      && (r.number == c.number ==> r.got == c.cells[..|r.got|])
  }

  lemma BumpKeeps(c: Channel, width: nat, r: Reader)
    requires Sane(c, width) && Follows(c, r)
    ensures Sane(Bump(c), width) && Follows(Bump(c), r) && c.versions <= Bump(c).versions
  {
  }

  lemma PutKeeps(c: Channel, width: nat, cell: nat, value: nat, r: Reader)
    requires Sane(c, width) && Follows(c, r) && cell < width && c.number % 2 == 1
    ensures Sane(Put(c, cell, value), width) && Follows(Put(c, cell, value), r)
  {
  }

  lemma LoadKeeps(c: Channel, width: nat, r: Reader)
    requires Sane(c, width) && Follows(c, r) && r.Loading? && |r.got| < width
    ensures Follows(c, r.(got := r.got + [c.cells[|r.got|]]))
  {
  }

  /** The reader's last comparison: an unchanged number means one whole version. */
  lemma WholeVersion(c: Channel, width: nat, r: Reader)
    requires Sane(c, width) && Follows(c, r) && r.Loading? && |r.got| == width && r.number == c.number
    ensures r.got == c.versions[r.number / 2]
  {
  }
}

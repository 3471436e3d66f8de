/**
 * The placed objects ("blocks"), the object-type catalog, and the linear
 * occupancy scans the editor uses to refuse overlapping placements.
 */
module World {
  import opened Optional
  import opened Grid

  /**
   * A catalog entry. `unique` is carried but never consulted by placement:
   * the box between the two clicks is always used.
   */
  datatype ObjectType = ObjectType(id: string, color: string, component: string, height: real, unique: bool)

  const POOL := ObjectType("pool", "#00CED1", "Water", 0.5, false)
  const TREE := ObjectType("tree", "#228B22", "Tree", 2.0, true)
  const FENCE := ObjectType("fence", "#8B4513", "Block", 1.0, false)
  const TERRAIN := ObjectType("terrain", "#DEB887", "Block", 1.0, false)
  const PATH := ObjectType("path", "#696969", "Block", 1.0, false)
  const BLOCK := ObjectType("block", "#4a90e2", "Block", 1.0, false)

  /**
   * The environment-supplied part of a new block: its creation time and
   * the random id suffix. Both come from the clock and a random source, so
   * the model takes them as given.
   */
  datatype Stamp = Stamp(createdAt: int, suffix: string)

  /** A placed object: the cells it covers, the two corners, its type and stamp. */
  datatype Block = Block(positions: seq<Pos>, start: Pos, end: Pos, objType: ObjectType, stamp: Stamp)

  /** Component-wise equality of two possibly-null vectors; null equals nothing. */
  function VectorsEqual(v1: Option<Pos>, v2: Option<Pos>): (r: bool)
    ensures r <==> v1.Some? && v1 == v2
  {
    if v1.None? || v2.None? then false
    else v1.value.x == v2.value.x && v1.value.y == v2.value.y && v1.value.z == v2.value.z
  }

  /** Some block of `blocks` covers `p`. */
  ghost predicate Occupies(blocks: seq<Block>, p: Pos) {
    exists i :: 0 <= i < |blocks| && p in blocks[i].positions
  }

  /** The inner scan: does some cell of one block equal `p`? */
  function BlockCovers(cells: seq<Pos>, p: Pos): (r: bool)
    ensures r <==> p in cells
  {
    if |cells| == 0 then false
    else VectorsEqual(Some(cells[0]), Some(p)) || BlockCovers(cells[1..], p)
  }

  /** The outer scan over all placed blocks. */
  function IsPositionOccupied(p: Pos, blocks: seq<Block>): (r: bool)
    ensures r <==> Occupies(blocks, p)
  {
    if |blocks| == 0 then false
    else if BlockCovers(blocks[0].positions, p) then true
    else
      var rest := IsPositionOccupied(p, blocks[1..]);
      assert Occupies(blocks[1..], p) <==> exists i :: 1 <= i < |blocks| && p in blocks[i].positions by {
        if Occupies(blocks[1..], p) {
          var k :| 0 <= k < |blocks[1..]| && p in blocks[1..][k].positions;
          assert p in blocks[k + 1].positions;
        }
      }
      rest
  }

  /** Is any of `cells` already covered by a placed block? */
  function AnyOccupied(cells: seq<Pos>, blocks: seq<Block>): (r: bool)
    ensures r <==> exists p :: p in cells && Occupies(blocks, p)
  {
    if |cells| == 0 then false
    else IsPositionOccupied(cells[0], blocks) || AnyOccupied(cells[1..], blocks)
  }

  /** Would the box between `start` and `end` share a cell with a placed block? */
  function WouldCauseOverlap(start: Pos, end: Pos, blocks: seq<Block>): (r: bool)
    ensures r <==> exists p :: InBox(p, start, end) && Occupies(blocks, p)
  {
    AnyOccupied(GenerateBlockPositions(start, end), blocks)
  }

  /** All cells of all blocks, in placement order. */
  function Flatten(blocks: seq<Block>): (r: seq<Pos>)
    ensures forall p :: p in r <==> Occupies(blocks, p)
  {
    if |blocks| == 0 then []
    else
      var init := blocks[..|blocks| - 1];
      var r := Flatten(init) + blocks[|blocks| - 1].positions;
      assert forall p :: Occupies(blocks, p) <==> Occupies(init, p) || p in blocks[|blocks| - 1].positions by {
        forall p | Occupies(blocks, p) && !(p in blocks[|blocks| - 1].positions)
          ensures Occupies(init, p)
        {
          var k :| 0 <= k < |blocks| && p in blocks[k].positions;
          assert init[k] == blocks[k];
        }
        forall p | Occupies(init, p) ensures Occupies(blocks, p) {
          var k :| 0 <= k < |init| && p in init[k].positions;
          assert init[k] == blocks[k];
        }
      }
      r
  }

  /** The world invariant: no cell is claimed twice, across or within blocks. */
  ghost predicate NoOverlap(blocks: seq<Block>) {
    Distinct(Flatten(blocks))
  }

  /** NoOverlap in the pairwise reading: no cell in two blocks, and no cell twice in one block. */
  lemma {:induction false} NoOverlapPairwise(blocks: seq<Block>, i: int, j: int)
    requires NoOverlap(blocks)
    requires 0 <= i < |blocks| && 0 <= j < |blocks|
    ensures Distinct(blocks[i].positions)
    ensures i != j ==> forall p :: p in blocks[i].positions ==> p !in blocks[j].positions
  {
    var n := |blocks| - 1;
    var init := blocks[..n];
    DistinctSplit(Flatten(init), blocks[n].positions);
    if i < n && j < n {
      assert init[i] == blocks[i] && init[j] == blocks[j];
      NoOverlapPairwise(init, i, j);
    } else if i != j {
      var k := if i < n then i else j;
      assert init[k] == blocks[k];
      NoOverlapPairwise(init, k, k);
      forall p | p in blocks[k].positions ensures p !in blocks[n].positions {
        assert Occupies(init, p);
      }
    }
  }

  /** The cells covered after an append are the old ones and the new block's. */
  lemma OccupiesAppend(blocks: seq<Block>, b: Block, p: Pos)
    ensures Occupies(blocks + [b], p) <==> Occupies(blocks, p) || p in b.positions
  {
    if Occupies(blocks + [b], p) && !(p in b.positions) {
      var k :| 0 <= k < |blocks + [b]| && p in (blocks + [b])[k].positions;
      assert k < |blocks| && (blocks + [b])[k] == blocks[k];
    }
    if Occupies(blocks, p) {
      var k :| 0 <= k < |blocks| && p in blocks[k].positions;
      assert (blocks + [b])[k] == blocks[k];
    }
    if p in b.positions {
      assert (blocks + [b])[|blocks|] == b;
    }
  }

  /** Appending a duplicate-free block whose cells are all free keeps NoOverlap. */
  lemma AppendPreservesNoOverlap(blocks: seq<Block>, b: Block)
    requires NoOverlap(blocks)
    requires Distinct(b.positions)
    requires forall p :: p in b.positions ==> !Occupies(blocks, p)
    ensures NoOverlap(blocks + [b])
  {
    assert (blocks + [b])[..|blocks|] == blocks;
    assert Flatten(blocks + [b]) == Flatten(blocks) + b.positions;
    DistinctConcat(Flatten(blocks), b.positions);
  }
}

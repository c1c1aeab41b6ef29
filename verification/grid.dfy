/** The block grid as a sequence of blocks, and its refresh from a list of blocks:
    each listed block overwrites the contents of the grid entry its id points at. The
    grid is changed in place as the list is walked, so an id past the end raises
    after the blocks before it have already been copied in. */
module Grid {
  import opened PyOps
  import opened Blocks

  /** The grid after a refresh, and the exception that stopped it, if any. */
  datatype Refreshed = Refreshed(blocks: seq<Block>, raised: Option<PyError>)

  /** True when every update names an entry of a grid of `size` blocks. */
  predicate AllInGrid(updates: seq<Block>, size: int)
  {
    forall i :: 0 <= i < |updates| ==> updates[i].id < size
  }

  /** True when every update the refresh reaches, that is every one before the first
      id past the end, has a non-negative id. Python would count a negative id from
      the end of the list. */
  predicate ReachedIdsNonNegative(updates: seq<Block>, size: int)
  {
    forall i :: 0 <= i < |updates| && AllInGrid(updates[..i], size) ==> 0 <= updates[i].id
  }

  /** Dropping the last update keeps the condition. */
  lemma ReachedIdsNonNegativeInit(updates: seq<Block>, size: int)
    requires |updates| > 0
    requires ReachedIdsNonNegative(updates, size)
    ensures ReachedIdsNonNegative(updates[..|updates| - 1], size)
  {
    var init := updates[..|updates| - 1];
    forall i | 0 <= i < |init| && AllInGrid(init[..i], size) ensures 0 <= init[i].id {
      assert init[..i] == updates[..i];
      assert init[i] == updates[i];
    }
  }

  /** Copies `updates` into `grid` in list order. */
  function RefreshBlocksFrom(grid: seq<Block>, updates: seq<Block>): (r: Refreshed)
    requires ReachedIdsNonNegative(updates, |grid|)
    decreases |updates|
    ensures |r.blocks| == |grid|
    ensures forall p :: 0 <= p < |grid| ==> r.blocks[p].id == grid[p].id
    ensures r.raised == None <==> AllInGrid(updates, |grid|)
    ensures r.raised == None || r.raised == Some(IndexError)
  {
    if |updates| == 0 then Refreshed(grid, None)
    else
      var init := updates[..|updates| - 1];
      ReachedIdsNonNegativeInit(updates, |grid|);
      var prev := RefreshBlocksFrom(grid, init);
      var u := updates[|updates| - 1];
      if prev.raised.Some? then prev
      else if u.id >= |prev.blocks| then Refreshed(prev.blocks, Some(IndexError))
      else Refreshed(prev.blocks[u.id := UpdateFrom(prev.blocks[u.id], u)], None)
  }

  /** The last of `updates` aimed at entry `p`, if any. */
  function LastFor(updates: seq<Block>, p: int): (r: Option<Block>)
    decreases |updates|
    ensures r == None <==> forall i :: 0 <= i < |updates| ==> updates[i].id != p
    ensures r.Some? ==> r.value in updates && r.value.id == p
  {
    if |updates| == 0 then None
    else if updates[|updates| - 1].id == p then Some(updates[|updates| - 1])
    else LastFor(updates[..|updates| - 1], p)
  }

  /** What a refresh leaves in one entry: its own block, or that block with the
      contents of the last update aimed at it. */
  function Settle(b: Block, last: Option<Block>): Block
  {
    match last
    case None => b
    case Some(u) => UpdateFrom(b, u)
  }

  /** A completed refresh changes each entry as the last update aimed at it says and
      leaves every other entry as it was; repeated ids resolve to the later block. */
  lemma {:induction false} RefreshPointwise(grid: seq<Block>, updates: seq<Block>, p: int)
    requires ReachedIdsNonNegative(updates, |grid|)
    requires AllInGrid(updates, |grid|)
    requires 0 <= p < |grid|
    decreases |updates|
    ensures RefreshBlocksFrom(grid, updates).blocks[p] == Settle(grid[p], LastFor(updates, p))
  {
    if |updates| > 0 {
      var init := updates[..|updates| - 1];
      var u := updates[|updates| - 1];
      assert AllInGrid(init, |grid|) by {
        forall i | 0 <= i < |init| ensures init[i].id < |grid| {
          assert init[i] == updates[i];
        }
      }
      ReachedIdsNonNegativeInit(updates, |grid|);
      RefreshPointwise(grid, init, p);
      if u.id == p {
        UpdateFromLaws(grid[p], Settle(grid[p], LastFor(init, p)), u);
        match LastFor(init, p)
        case None =>
        case Some(v) => UpdateFromLaws(grid[p], v, u);
      }
    }
  }

  /** An id past the end stops the refresh at the first such block: the blocks before
      it are copied in, the ones after it are not looked at. */
  lemma {:induction false} RefreshStopsAtFirstBadId(grid: seq<Block>, updates: seq<Block>, j: int)
    requires ReachedIdsNonNegative(updates, |grid|)
    requires 0 <= j < |updates|
    requires updates[j].id >= |grid|
    requires AllInGrid(updates[..j], |grid|)
    decreases |updates|
    ensures RefreshBlocksFrom(grid, updates)
      == Refreshed(RefreshBlocksFrom(grid, updates[..j]).blocks, Some(IndexError))
  {
    var init := updates[..|updates| - 1];
    if j < |updates| - 1 {
      assert init[..j] == updates[..j];
      ReachedIdsNonNegativeInit(updates, |grid|);
      RefreshStopsAtFirstBadId(grid, init, j);
    } else {
      assert init == updates[..j];
    }
  }
}

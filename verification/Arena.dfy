// The arena allocator of lcc (lcc/src/alloc.c).

module Arena {
  import opened Words

  const ARENAS := 3
  const ALIGN := 8    // sizeof (union align)
  const HEADER := 24  // sizeof (union header)
  const NULL := -1

  /** The bytes asked of malloc for an allocation of n, rounded up. */
  function BlockSize(n: nat): nat {
    HEADER + n + RoundUp(10 * 1024, ALIGN)
  }

  /** A block by number; 0 to 2 are the empty first blocks. next is a block number or NULL. */
  datatype Block = Block(next: int, limit: int, avail: int)

  /** An allocation that has not been given back. */
  datatype Region = Region(addr: int, size: nat, block: int)

  // ----- lists -----

  function After(chain: seq<int>, k: nat): int {
    if k + 1 < |chain| then chain[k + 1] else NULL
  }

  ghost predicate Leads(blocks: seq<Block>, chain: seq<int>, k: nat)
    requires k < |chain|
  {
    0 <= chain[k] < |blocks| && blocks[chain[k]].next == After(chain, k)
  }

  /** chain is the list that the next fields spell. */
  ghost predicate Spells(blocks: seq<Block>, chain: seq<int>) {
    forall k :: 0 <= k < |chain| ==> Leads(blocks, chain, k)
  }

  ghost predicate Owned(owner: seq<int>, chain: seq<int>, a: int) {
    && (forall k :: 0 <= k < |chain| ==> 0 <= chain[k] < |owner| && owner[chain[k]] == a)
    && (forall j, k :: 0 <= j < k < |chain| ==> chain[j] != chain[k])
  }

  /** A list, and whose it is, do not depend on what is not in it. */
  lemma Kept(blocks: seq<Block>, owner: seq<int>, blocks': seq<Block>, owner': seq<int>, chain: seq<int>, a: int)
    requires Spells(blocks, chain) && Owned(owner, chain, a) && |blocks| <= |blocks'| && |owner| <= |owner'|
    requires forall k :: 0 <= k < |chain| && Leads(blocks, chain, k) && 0 <= chain[k] < |owner| ==>
      blocks'[chain[k]] == blocks[chain[k]] && owner'[chain[k]] == a
    ensures Spells(blocks', chain) && Owned(owner', chain, a)
  {
  }

  /** A block linked behind the end of a list. */
  lemma SpellsAppended(blocks: seq<Block>, chain: seq<int>, b: int)
    requires chain != [] && Spells(blocks, chain) && 0 <= b < |blocks| && b !in chain && blocks[b].next == NULL
    requires forall j, k :: 0 <= j < k < |chain| ==> chain[j] != chain[k]
    ensures
      var last := chain[|chain| - 1];
      0 <= last < |blocks| && Spells(blocks[last := blocks[last].(next := b)], chain + [b])
  {
    var last := chain[|chain| - 1];
    assert Leads(blocks, chain, |chain| - 1);
    var blocks' := blocks[last := blocks[last].(next := b)];
    forall k | 0 <= k < |chain + [b]| ensures Leads(blocks', chain + [b], k) {
      if k < |chain| { assert Leads(blocks, chain, k); }
    }
  }

  /** Two lists linked one behind the other. */
  lemma SpellsJoined(blocks: seq<Block>, a: seq<int>, b: seq<int>)
    requires a != [] && Spells(blocks, a) && Spells(blocks, b)
    requires forall j, k :: 0 <= j < k < |a| ==> a[j] != a[k]
    requires forall j, k :: 0 <= j < |a| && 0 <= k < |b| ==> a[j] != b[k]
    ensures
      var last := a[|a| - 1];
      0 <= last < |blocks| && Spells(blocks[last := blocks[last].(next := if b == [] then NULL else b[0])], a + b)
  {
    var chain, last := a + b, a[|a| - 1];
    assert Leads(blocks, a, |a| - 1);
    var blocks' := blocks[last := blocks[last].(next := if b == [] then NULL else b[0])];
    forall k | 0 <= k < |chain| ensures Leads(blocks', chain, k) {
      if k < |a| { assert Leads(blocks, a, k); } else { assert Leads(blocks, b, k - |a|); }
    }
  }

  // ----- the heap -----

  /** The blocks, who has them, where they start, and the allocations still in use. */
  datatype Heap = Heap(blocks: seq<Block>, owner: seq<int>, base: seq<int>, live: seq<seq<Region>>)

  ghost predicate BlockOk(b: Block, base: int) {
    0 < base && base % ALIGN == 0 && b.avail % ALIGN == 0 && base + HEADER <= b.avail <= b.limit
  }

  ghost predicate BlocksOk(h: Heap) {
    && ARENAS <= |h.blocks| == |h.owner| == |h.base| && |h.live| == ARENAS
    && (forall i :: 0 <= i < ARENAS ==> h.blocks[i].limit == 0 && h.blocks[i].avail == 0)
    && (forall i :: ARENAS <= i < |h.blocks| ==> BlockOk(h.blocks[i], h.base[i]))
    && (forall i, j :: ARENAS <= i < |h.blocks| && ARENAS <= j < |h.blocks| && i != j ==>
          h.blocks[i].limit <= h.base[j] || h.blocks[j].limit <= h.base[i])
  }

  ghost predicate RegionOk(h: Heap, a: int, r: Region)
    requires BlocksOk(h)
  {
    && ARENAS <= r.block < |h.blocks| && h.owner[r.block] == a && r.size > 0
    && h.base[r.block] + HEADER <= r.addr && r.addr + r.size <= h.blocks[r.block].avail
  }

  ghost predicate LiveOk(h: Heap, a: int)
    requires BlocksOk(h) && 0 <= a < ARENAS
  {
    && (forall k :: 0 <= k < |h.live[a]| ==> RegionOk(h, a, h.live[a][k]))
    && (forall j, k :: 0 <= j < k < |h.live[a]| && h.live[a][j].block == h.live[a][k].block ==>
          h.live[a][j].addr + h.live[a][j].size <= h.live[a][k].addr)
  }

  ghost predicate HeapOk(h: Heap) {
    BlocksOk(h) && forall a :: 0 <= a < ARENAS ==> LiveOk(h, a)
  }

  predicate Apart(r: Region, s: Region) {
    r.addr + r.size <= s.addr || s.addr + s.size <= r.addr
  }

  /** Live allocations never overlap, whichever arenas they are from, and lie inside their blocks. */
  lemma LiveApart(h: Heap, a: int, j: nat, b: int, k: nat)
    requires HeapOk(h) && 0 <= a < ARENAS && 0 <= b < ARENAS && j < |h.live[a]| && k < |h.live[b]|
    requires a != b || j != k
    ensures Apart(h.live[a][j], h.live[b][k])
    ensures
      var r := h.live[a][j];
      0 <= r.block < |h.base| && h.base[r.block] + HEADER <= r.addr && r.addr + r.size <= h.blocks[r.block].limit
  {
    assert LiveOk(h, a) && LiveOk(h, b);
    var r, s := h.live[a][j], h.live[b][k];
    assert RegionOk(h, a, r) && RegionOk(h, b, s);
    assert BlockOk(h.blocks[r.block], h.base[r.block]) && BlockOk(h.blocks[s.block], h.base[s.block]);
    if r.block == s.block && j != k { assert if j < k then r.addr + r.size <= s.addr else s.addr + s.size <= r.addr; }
  }

  /** next fields do not matter to the heap. */
  lemma LinkHeap(h: Heap, b: int, next: int)
    requires HeapOk(h) && 0 <= b < |h.blocks|
    ensures HeapOk(h.(blocks := h.blocks[b := h.blocks[b].(next := next)]))
  {
    var h' := h.(blocks := h.blocks[b := h.blocks[b].(next := next)]);
    forall i | ARENAS <= i < |h.blocks| ensures BlockOk(h'.blocks[i], h'.base[i]) {
      assert BlockOk(h.blocks[i], h.base[i]);
    }
    assert BlocksOk(h');
    forall a | 0 <= a < ARENAS ensures LiveOk(h', a) {
      assert LiveOk(h, a);
      forall k | 0 <= k < |h.live[a]| ensures RegionOk(h', a, h.live[a][k]) {
        assert RegionOk(h, a, h.live[a][k]);
      }
    }
  }

  /** A free block emptied and given to arena a. */
  lemma TakeHeap(h: Heap, b: int, a: int)
    requires HeapOk(h) && ARENAS <= b < |h.blocks| && h.owner[b] == ARENAS && 0 <= a < ARENAS
    ensures
      var block := Block(NULL, h.blocks[b].limit, h.base[b] + HEADER);
      HeapOk(h.(blocks := h.blocks[b := block], owner := h.owner[b := a]))
  {
    var block := Block(NULL, h.blocks[b].limit, h.base[b] + HEADER);
    var h' := h.(blocks := h.blocks[b := block], owner := h.owner[b := a]);
    forall i | ARENAS <= i < |h.blocks| ensures BlockOk(h'.blocks[i], h'.base[i]) {
      assert BlockOk(h.blocks[i], h.base[i]);
    }
    assert BlocksOk(h');
    forall c | 0 <= c < ARENAS ensures LiveOk(h', c) {
      assert LiveOk(h, c);
      forall k | 0 <= k < |h.live[c]| ensures RegionOk(h', c, h.live[c][k]) {
        assert RegionOk(h, c, h.live[c][k]);
      }
    }
  }

  /** What malloc returns: memory that no block has. */
  ghost predicate Vacant(h: Heap, at: int, m: nat)
    requires |h.base| == |h.blocks|
  {
    && at > 0 && at % ALIGN == 0
    && forall i :: ARENAS <= i < |h.blocks| ==> h.blocks[i].limit <= at || at + m <= h.base[i]
  }

  /** A new block for arena a. */
  lemma GrowHeap(h: Heap, at: int, m: nat, a: int)
    requires HeapOk(h) && Vacant(h, at, m) && m >= HEADER && 0 <= a < ARENAS
    ensures HeapOk(Heap(h.blocks + [Block(NULL, at + m, at + HEADER)], h.owner + [a], h.base + [at], h.live))
  {
    var h' := Heap(h.blocks + [Block(NULL, at + m, at + HEADER)], h.owner + [a], h.base + [at], h.live);
    forall i | ARENAS <= i < |h'.blocks| ensures BlockOk(h'.blocks[i], h'.base[i]) {
      if i < |h.blocks| { assert BlockOk(h.blocks[i], h.base[i]); }
    }
    assert BlocksOk(h');
    forall c | 0 <= c < ARENAS ensures LiveOk(h', c) {
      assert LiveOk(h, c);
      forall k | 0 <= k < |h.live[c]| ensures RegionOk(h', c, h.live[c][k]) {
        assert RegionOk(h, c, h.live[c][k]);
      }
    }
  }

  /** n bytes cut off the front of what a block has left. */
  lemma CutHeap(h: Heap, b: int, n: nat, a: int)
    requires HeapOk(h) && ARENAS <= b < |h.blocks| && 0 <= a < ARENAS && h.owner[b] == a
    requires n > 0 && n % ALIGN == 0 && n <= h.blocks[b].limit - h.blocks[b].avail
    ensures
      var at := h.blocks[b].avail;
      at % ALIGN == 0
      && HeapOk(h.(blocks := h.blocks[b := h.blocks[b].(avail := at + n)],
                   live := h.live[a := h.live[a] + [Region(at, n, b)]]))
  {
    var at := h.blocks[b].avail;
    var h' := h.(blocks := h.blocks[b := h.blocks[b].(avail := at + n)],
                 live := h.live[a := h.live[a] + [Region(at, n, b)]]);
    forall i | ARENAS <= i < |h.blocks| ensures BlockOk(h'.blocks[i], h'.base[i]) {
      assert BlockOk(h.blocks[i], h.base[i]);
    }
    assert BlocksOk(h');
    forall c | 0 <= c < ARENAS ensures LiveOk(h', c) {
      CutLive(h, h', b, n, a, c);
    }
  }

  lemma CutLive(h: Heap, h': Heap, b: int, n: nat, a: int, c: int)
    requires HeapOk(h) && BlocksOk(h') && ARENAS <= b < |h.blocks| && 0 <= a < ARENAS && 0 <= c < ARENAS
    requires h.owner[b] == a && n > 0
    requires h'.owner == h.owner && h'.base == h.base
    requires h'.blocks == h.blocks[b := h.blocks[b].(avail := h.blocks[b].avail + n)]
    requires h'.live == h.live[a := h.live[a] + [Region(h.blocks[b].avail, n, b)]]
    ensures LiveOk(h', c)
  {
    assert LiveOk(h, c);
    forall k | 0 <= k < |h'.live[c]| ensures RegionOk(h', c, h'.live[c][k]) {
      if k < |h.live[c]| { assert RegionOk(h, c, h.live[c][k]); } else { assert BlockOk(h.blocks[b], h.base[b]); }
    }
    forall j, k | 0 <= j < k < |h'.live[c]| && h'.live[c][j].block == h'.live[c][k].block
      ensures h'.live[c][j].addr + h'.live[c][j].size <= h'.live[c][k].addr
    {
      assert RegionOk(h, c, h.live[c][j]);
    }
  }

  /** All allocations of an arena given back with its blocks. */
  lemma ReleaseHeap(h: Heap, a: int, owner: seq<int>)
    requires HeapOk(h) && 0 <= a < ARENAS && |owner| == |h.owner|
    requires forall i :: 0 <= i < |owner| && owner[i] != h.owner[i] ==> h.owner[i] == a
    ensures HeapOk(h.(owner := owner, live := h.live[a := []]))
  {
    var h' := h.(owner := owner, live := h.live[a := []]);
    assert BlocksOk(h');
    forall c | 0 <= c < ARENAS ensures LiveOk(h', c) {
      assert LiveOk(h, c);
      forall k | 0 <= k < |h'.live[c]| ensures RegionOk(h', c, h'.live[c][k]) {
        assert RegionOk(h, c, h.live[c][k]);
      }
    }
  }

  // ----- the allocator -----

  ghost predicate ChainOk(blocks: seq<Block>, owner: seq<int>, chain: seq<int>, a: int) {
    chain != [] && chain[0] == a && Spells(blocks, chain) && Owned(owner, chain, a)
  }

  /** Every block is in the list of its owner. */
  ghost predicate Placed(owner: seq<int>, chain: seq<seq<int>>, free: seq<int>)
    requires |chain| == ARENAS
  {
    forall b :: 0 <= b < |owner| ==> InItsList(owner, chain, free, b)
  }

  ghost predicate InItsList(owner: seq<int>, chain: seq<seq<int>>, free: seq<int>, b: int)
    requires |chain| == ARENAS && 0 <= b < |owner|
  {
    0 <= owner[b] <= ARENAS && b in if owner[b] == ARENAS then free else chain[owner[b]]
  }

  /** The lists hold every block exactly once: arena a those that owner says are a's, the free list the others. */
  ghost predicate Lists(blocks: seq<Block>, owner: seq<int>, chain: seq<seq<int>>, free: seq<int>) {
    && |chain| == ARENAS && |owner| == |blocks|
    && ChainOk(blocks, owner, chain[0], 0) && ChainOk(blocks, owner, chain[1], 1) && ChainOk(blocks, owner, chain[2], 2)
    && Spells(blocks, free) && Owned(owner, free, ARENAS) && Placed(owner, chain, free)
  }

  function Last(chain: seq<int>): int
    requires chain != []
  {
    chain[|chain| - 1]
  }

  lemma ListsChain(blocks: seq<Block>, owner: seq<int>, chain: seq<seq<int>>, free: seq<int>, a: int)
    requires Lists(blocks, owner, chain, free) && 0 <= a < ARENAS
    ensures ChainOk(blocks, owner, chain[a], a)
    ensures chain[a] != [] && 0 <= Last(chain[a]) < |blocks| && owner[Last(chain[a])] == a
    ensures 0 <= a < |blocks| && owner[a] == a
  {
  }

  /** The lists from those of one arena, the other arenas' as they were, and the free list. */
  lemma ListsMade(blocks: seq<Block>, owner: seq<int>, chain: seq<seq<int>>, free: seq<int>, a: int,
                  blocks': seq<Block>, owner': seq<int>, c: seq<int>, free': seq<int>)
    requires Lists(blocks, owner, chain, free) && 0 <= a < ARENAS
    requires |blocks| <= |blocks'| == |owner'|
    requires ChainOk(blocks', owner', c, a) && Spells(blocks', free') && Owned(owner', free', ARENAS)
    requires forall b :: 0 <= b < |blocks| && owner[b] != a && owner[b] != ARENAS ==>
      blocks'[b] == blocks[b] && owner'[b] == owner[b]
    requires Placed(owner', chain[a := c], free')
    ensures Lists(blocks', owner', chain[a := c], free')
  {
    hide Placed;
    forall d | 0 <= d < ARENAS && d != a ensures ChainOk(blocks', owner', chain[d], d) {
      ListsChain(blocks, owner, chain, free, d);
      Kept(blocks, owner, blocks', owner', chain[d], d);
    }
  }

  lemma PlacedTaken(owner: seq<int>, chain: seq<seq<int>>, free: seq<int>, a: int, b: int)
    requires |chain| == ARENAS && Placed(owner, chain, free) && 0 <= a < ARENAS && free != [] && b == free[0]
    requires 0 <= b < |owner|
    ensures Placed(owner[b := a], chain[a := chain[a] + [b]], free[1..])
  {
    var owner', chain' := owner[b := a], chain[a := chain[a] + [b]];
    forall x | 0 <= x < |owner'| ensures InItsList(owner', chain', free[1..], x) {
      assert InItsList(owner, chain, free, x);
      if x != b && owner[x] == ARENAS {
        var k :| 0 <= k < |free| && free[k] == x;
        assert free[1..][k - 1] == x;
      }
    }
  }

  /** The first free block, emptied, linked behind arena a. */
  lemma ListsNext(blocks: seq<Block>, owner: seq<int>, chain: seq<seq<int>>, free: seq<int>, a: int, block: Block)
    requires Lists(blocks, owner, chain, free) && 0 <= a < ARENAS && free != [] && block.next == NULL
    ensures chain[a] != [] && 0 <= Last(chain[a]) < |blocks| && 0 <= free[0] < |blocks|
    ensures
      var last, b := Last(chain[a]), free[0];
      Lists(blocks[last := blocks[last].(next := b)][b := block], owner[b := a], chain[a := chain[a] + [b]], free[1..])
  {
    ListsChain(blocks, owner, chain, free, a);
    var last, b := Last(chain[a]), free[0];
    var one, owner' := blocks[b := block], owner[b := a];
    var two := one[last := one[last].(next := b)];
    assert two == blocks[last := blocks[last].(next := b)][b := block];
    Kept(blocks, owner, one, owner', chain[a], a);
    SpellsAppended(one, chain[a], b);
    assert ChainOk(two, owner', chain[a] + [b], a);
    SpellsTail(blocks, owner, free);
    Kept(blocks, owner, two, owner', free[1..], ARENAS);
    PlacedTaken(owner, chain, free, a, b);
    ListsMade(blocks, owner, chain, free, a, two, owner', chain[a] + [b], free[1..]);
  }

  lemma SpellsTail(blocks: seq<Block>, owner: seq<int>, free: seq<int>)
    requires free != [] && Spells(blocks, free) && Owned(owner, free, ARENAS)
    ensures Spells(blocks, free[1..]) && Owned(owner, free[1..], ARENAS)
    ensures forall k :: 0 <= k < |free[1..]| ==> free[1..][k] != free[0]
  {
    forall k | 0 <= k < |free[1..]| ensures Leads(blocks, free[1..], k) {
      assert Leads(blocks, free, k + 1);
    }
  }

  lemma PlacedGrown(owner: seq<int>, chain: seq<seq<int>>, free: seq<int>, a: int)
    requires |chain| == ARENAS && Placed(owner, chain, free) && 0 <= a < ARENAS
    ensures Placed(owner + [a], chain[a := chain[a] + [|owner|]], free)
  {
    var owner', chain' := owner + [a], chain[a := chain[a] + [|owner|]];
    forall x | 0 <= x < |owner'| ensures InItsList(owner', chain', free, x) {
      if x < |owner| { assert InItsList(owner, chain, free, x); }
    }
  }

  /** A new block linked behind arena a. */
  lemma ListsGrown(blocks: seq<Block>, owner: seq<int>, chain: seq<seq<int>>, free: seq<int>, a: int, block: Block)
    requires Lists(blocks, owner, chain, free) && 0 <= a < ARENAS && block.next == NULL
    ensures chain[a] != [] && 0 <= Last(chain[a]) < |blocks|
    ensures
      var last, b := Last(chain[a]), |blocks|;
      Lists((blocks + [block])[last := blocks[last].(next := b)], owner + [a], chain[a := chain[a] + [b]], free)
  {
    ListsChain(blocks, owner, chain, free, a);
    var last, b := Last(chain[a]), |blocks|;
    var one, owner' := blocks + [block], owner + [a];
    var two := one[last := blocks[last].(next := b)];
    Kept(blocks, owner, one, owner', chain[a], a);
    SpellsAppended(one, chain[a], b);
    assert ChainOk(two, owner', chain[a] + [b], a);
    Kept(blocks, owner, two, owner', free, ARENAS);
    PlacedGrown(owner, chain, free, a);
    ListsMade(blocks, owner, chain, free, a, two, owner', chain[a] + [b], free);
  }

  /** The owners once arena a has given its blocks to the free list. */
  function Released(owner: seq<int>, a: int): (r: seq<int>)
    ensures |r| == |owner|
  {
    seq(|owner|, b requires 0 <= b < |owner| => if owner[b] == a && b != a then ARENAS else owner[b])
  }

  lemma PlacedReleased(owner: seq<int>, chain: seq<seq<int>>, free: seq<int>, a: int)
    requires |chain| == ARENAS && Placed(owner, chain, free) && 0 <= a < ARENAS && chain[a] != [] && chain[a][0] == a
    ensures Placed(Released(owner, a), chain[a := [a]], chain[a][1..] + free)
  {
    var owner', chain', free' := Released(owner, a), chain[a := [a]], chain[a][1..] + free;
    forall x | 0 <= x < |owner'| ensures InItsList(owner', chain', free', x) {
      assert InItsList(owner, chain, free, x);
      if owner[x] == a && x != a {
        var k :| 0 <= k < |chain[a]| && chain[a][k] == x;
        assert free'[k - 1] == x;
      }
    }
  }

  lemma OwnedReleased(owner: seq<int>, c: seq<int>, free: seq<int>, a: int)
    requires 0 <= a < ARENAS && c != [] && c[0] == a && Owned(owner, c, a) && Owned(owner, free, ARENAS)
    ensures Owned(Released(owner, a), c[1..] + free, ARENAS) && Owned(Released(owner, a), [a], a)
    ensures forall k :: 0 <= k < |c[1..] + free| ==> (c[1..] + free)[k] != a
  {
  }

  /** The blocks of arena a but its first, linked in front of the free list. */
  lemma ListsReleased(blocks: seq<Block>, owner: seq<int>, chain: seq<seq<int>>, free: seq<int>, a: int)
    requires Lists(blocks, owner, chain, free) && 0 <= a < ARENAS
    ensures chain[a] != [] && 0 <= Last(chain[a]) < |blocks| && 0 <= a < |blocks|
    ensures
      var last := Last(chain[a]);
      var joined := blocks[last := blocks[last].(next := if free == [] then NULL else free[0])];
      var free' := chain[a][1..] + free;
      && joined[a].next == (if free' == [] then NULL else free'[0])
      && Lists(joined[a := joined[a].(next := NULL)], Released(owner, a), chain[a := [a]], free')
  {
    ListsChain(blocks, owner, chain, free, a);
    var last, c := Last(chain[a]), chain[a];
    var joined := blocks[last := blocks[last].(next := if free == [] then NULL else free[0])];
    var free', cut, owner' := c[1..] + free, joined[a := joined[a].(next := NULL)], Released(owner, a);
    SpellsJoined(blocks, c, free);
    assert c + free == [a] + free';
    OwnedReleased(owner, c, free, a);
    FirstCut(joined, owner', free', a);
    PlacedReleased(owner, chain, free, a);
    ListsMade(blocks, owner, chain, free, a, cut, owner', [a], free');
  }

  lemma FirstCut(joined: seq<Block>, owner: seq<int>, free: seq<int>, a: int)
    requires Spells(joined, [a] + free) && Owned(owner, free, ARENAS) && Owned(owner, [a], a) && |owner| == |joined|
    requires forall k :: 0 <= k < |free| ==> free[k] != a
    ensures 0 <= a < |joined| && joined[a].next == (if free == [] then NULL else free[0])
    ensures
      var cut := joined[a := joined[a].(next := NULL)];
      Spells(cut, free) && ChainOk(cut, owner, [a], a)
  {
    assert Leads(joined, [a] + free, 0);
    var list, cut := [a] + free, joined[a := joined[a].(next := NULL)];
    forall k | 0 <= k < |free| ensures Leads(cut, free, k) {
      assert Leads(joined, list, k + 1);
    }
  }

  /** The first blocks are never free. */
  lemma FreeIsReal(blocks: seq<Block>, owner: seq<int>, chain: seq<seq<int>>, free: seq<int>)
    requires Lists(blocks, owner, chain, free) && free != []
    ensures ARENAS <= free[0] < |blocks| && owner[free[0]] == ARENAS
    ensures blocks[free[0]].next == (if |free| == 1 then NULL else free[1])
  {
    assert Leads(blocks, free, 0);
  }

  function ListOf(chain: seq<seq<int>>, free: seq<int>, a: int): seq<int>
    requires |chain| == ARENAS && 0 <= a <= ARENAS
  {
    if a == ARENAS then free else chain[a]
  }

  ghost predicate Stands(chain: seq<seq<int>>, free: seq<int>, a: int, j: int, b: int)
    requires |chain| == ARENAS
  {
    0 <= a <= ARENAS && 0 <= j < |ListOf(chain, free, a)| && ListOf(chain, free, a)[j] == b
  }

  /** Every block stands in exactly one of the four lists, and there exactly once. */
  lemma OnceEach(blocks: seq<Block>, owner: seq<int>, chain: seq<seq<int>>, free: seq<int>, b: int)
    requires Lists(blocks, owner, chain, free) && 0 <= b < |blocks|
    ensures exists k :: Stands(chain, free, owner[b], k, b)
    ensures forall a, c, j, k :: Stands(chain, free, a, j, b) && Stands(chain, free, c, k, b) ==> a == c && j == k
  {
    assert InItsList(owner, chain, free, b);
    forall a, j | Stands(chain, free, a, j, b) ensures a == owner[b] {
      assert Owned(owner, ListOf(chain, free, a), a);
    }
    var list := ListOf(chain, free, owner[b]);
    assert Owned(owner, list, owner[b]) && b in list;
    var k :| 0 <= k < |list| && list[k] == b;
    assert Stands(chain, free, owner[b], k, b);
  }

  class Allocator {
    var blocks: seq<Block>
    var arena: seq<int>
    var freeblocks: int
    var base: seq<int>  // the address of each block
    ghost var owner: seq<int>
    ghost var live: seq<seq<Region>>
    ghost var chain: seq<seq<int>>
    ghost var free: seq<int>

    ghost function View(): Heap
      reads this
    {
      Heap(blocks, owner, base, live)
    }

    ghost predicate Shape()
      reads this
    {
      && ARENAS <= |blocks| == |owner| == |base| && |arena| == |chain| == |live| == ARENAS
      && (forall a :: 0 <= a < ARENAS ==> chain[a] != [] && arena[a] == Last(chain[a]) && 0 <= arena[a] < |blocks|)
      && freeblocks == if free == [] then NULL else free[0]
    }

    ghost predicate Valid()
      reads this
    {
      Shape() && HeapOk(View()) && Lists(blocks, owner, chain, free)
    }

    constructor ()
      ensures Valid() && |blocks| == ARENAS && live == [[], [], []]
    {
      blocks := [Block(NULL, 0, 0), Block(NULL, 0, 0), Block(NULL, 0, 0)];
      arena := [0, 1, 2];
      freeblocks := NULL;
      owner := [0, 1, 2];
      base := [0, 0, 0];
      live := [[], [], []];
      chain := [[0], [1], [2]];
      free := [];
      new;
      NothingYet();
    }

    /** One turn of the search that finds a free block: it becomes the arena's last one. */
    method TakeFree(a: int)
      requires Valid() && 0 <= a < ARENAS && freeblocks != NULL
      modifies this
      ensures Valid() && |free| < |old(free)| && live == old(live) && SameRanges(old(View()), View())
      ensures free == old(free)[1..] && arena == old(arena)[a := old(free)[0]] && Unused(a)
    {
      hide HeapOk, Lists;
      var ap, b := arena[a], freeblocks;
      FreeIsReal(blocks, owner, chain, free);
      ListsNext(blocks, owner, chain, free, a, Block(NULL, blocks[b].limit, base[b] + HEADER));
      LinkHeap(View(), ap, b);
      freeblocks := blocks[b].next;
      blocks := blocks[ap := blocks[ap].(next := b)];
      TakeHeap(View(), b, a);
      blocks := blocks[b := blocks[b].(avail := base[b] + HEADER, next := NULL)];
      arena := arena[a := b];
      owner, chain, free := owner[b := a], chain[a := chain[a] + [b]], free[1..];
    }

    /** One turn of the search that has to ask malloc, which returns address at. */
    method TakeNew(a: int, n: nat, at: int)
      requires Valid() && 0 <= a < ARENAS && freeblocks == NULL && Vacant(View(), at, BlockSize(n))
      modifies this
      ensures Valid() && live == old(live) && free == old(free) == []
      ensures n <= blocks[arena[a]].limit - blocks[arena[a]].avail
      ensures base == old(base) + [at] && arena == old(arena)[a := |old(blocks)|] && Unused(a)
    {
      hide HeapOk, Lists;
      if free != [] { FreeIsReal(blocks, owner, chain, free); }
      var ap, b, m := arena[a], |blocks|, BlockSize(n);
      var block := Block(NULL, at + m, at + HEADER);
      ListsGrown(blocks, owner, chain, free, a, block);
      GrowHeap(View(), at, m, a);
      blocks, base := blocks + [block], base + [at];
      owner := owner + [a];
      LinkHeap(View(), ap, b);
      blocks := blocks[ap := blocks[ap].(next := b)];
      arena := arena[a := b];
      chain := chain[a := chain[a] + [b]];
    }

    ghost predicate Fits(a: int, n: int)
      requires Shape() && 0 <= a < ARENAS
      reads this
    {
      n <= blocks[arena[a]].limit - blocks[arena[a]].avail
    }

    /** Nothing has been cut off the last block of the arena. */
    ghost predicate Unused(a: int)
      requires Shape() && 0 <= a < ARENAS
      reads this
    {
      blocks[arena[a]].avail == base[arena[a]] + HEADER
    }

    /** The search for a block with n bytes left: it uses up the free blocks and ends with a new one. */
    method Search(n: nat, a: int, at: int)
      requires Valid() && n > 0 && 0 <= a < ARENAS && Vacant(View(), at, BlockSize(n))
      modifies this
      ensures Valid() && live == old(live) && Fits(a, n)
      ensures if old(Fits(a, n)) then blocks == old(blocks) && arena == old(arena) && free == old(free) else Unused(a)
      ensures base == old(base) || (base == old(base) + [at] && free == [])
    {
      hide HeapOk, Lists;
      while n > blocks[arena[a]].limit - blocks[arena[a]].avail
        invariant Valid() && live == old(live)
        invariant if old(Fits(a, n)) then blocks == old(blocks) && arena == old(arena) && free == old(free)
                  else Unused(a) || (View() == old(View()) && arena == old(arena))
        invariant base == old(base) || (base == old(base) + [at] && free == [] && Fits(a, n))
        invariant !Fits(a, n) ==> Vacant(View(), at, BlockSize(n))
        decreases |free|, if Fits(a, n) then 0 else 1
      {
        if freeblocks != NULL {
          TakeFree(a);
        } else {
          TakeNew(a, n, at);
        }
      }
    }

    /**
     * allocate: a new aligned region of the arena. at is what malloc would return.
     */
    method Allocate(n: nat, a: int, at: int) returns (p: int)
      requires Valid() && n > 0 && 0 <= a < ARENAS && Vacant(View(), at, BlockSize(RoundUp(n, ALIGN)))
      modifies this
      ensures Valid() && p % ALIGN == 0 && p > 0
      ensures live == old(live)[a := old(live)[a] + [Region(p, RoundUp(n, ALIGN), arena[a])]]
      ensures blocks[arena[a]].avail == p + RoundUp(n, ALIGN)
      ensures if old(Fits(a, RoundUp(n, ALIGN))) then arena == old(arena) && p == old(blocks[arena[a]].avail)
              else p == base[arena[a]] + HEADER
      ensures base == old(base) || (base == old(base) + [at] && free == [])
    {
      hide HeapOk, Lists;
      var n' := RoundUp(n, ALIGN);
      Search(n', a, at);
      var ap := arena[a];
      ListsChain(blocks, owner, chain, free, a);
      RealBlock(View(), ap, n');
      CutHeap(View(), ap, n', a);
      p := blocks[ap].avail;
      LinkedKept(blocks, owner, chain, free, ap, blocks[ap].(avail := p + n'));
      blocks := blocks[ap := blocks[ap].(avail := p + n')];
      live := live[a := live[a] + [Region(p, n', ap)]];
    }

    /** deallocate: the blocks of the arena go to the front of the free list, and it is empty again. */
    method Deallocate(a: int)
      requires Valid() && 0 <= a < ARENAS
      modifies this
      ensures Valid() && live == old(live)[a := []] && arena == old(arena)[a := a]
      ensures free == old(chain[a][1..] + free)
    {
      hide HeapOk, Lists;
      var ap := arena[a];
      ListsReleased(blocks, owner, chain, free, a);
      LinkHeap(View(), ap, freeblocks);
      blocks := blocks[ap := blocks[ap].(next := freeblocks)];
      freeblocks := blocks[a].next;
      LinkHeap(View(), a, NULL);
      blocks := blocks[a := blocks[a].(next := NULL)];
      arena := arena[a := a];
      ReleaseHeap(View(), a, Released(owner, a));
      owner, free := Released(owner, a), chain[a][1..] + free;
      chain := chain[a := [a]];
      live := live[a := []];
    }
  }

  /** The first blocks by themselves. */
  lemma NothingYet()
    ensures
      var first := Block(NULL, 0, 0);
      HeapOk(Heap([first, first, first], [0, 1, 2], [0, 0, 0], [[], [], []]))
      && Lists([first, first, first], [0, 1, 2], [[0], [1], [2]], [])
  {
    var first := Block(NULL, 0, 0);
    var owner, chain: seq<seq<int>> := [0, 1, 2], [[0], [1], [2]];
    forall b | 0 <= b < |owner| ensures InItsList(owner, chain, [], b) {
      assert chain[b] == [b];
    }
  }

  /** A block with room is not one of the first ones. */
  lemma RealBlock(h: Heap, b: int, n: int)
    requires HeapOk(h) && 0 <= b < |h.blocks| && 0 < n <= h.blocks[b].limit - h.blocks[b].avail
    ensures b >= ARENAS && h.blocks[b].avail > 0
  {
  }

  /** Only next fields matter to the lists. */
  lemma LinkedKept(blocks: seq<Block>, owner: seq<int>, chain: seq<seq<int>>, free: seq<int>, b: int, block: Block)
    requires Lists(blocks, owner, chain, free) && 0 <= b < |blocks| && block.next == blocks[b].next
    ensures Lists(blocks[b := block], owner, chain, free)
  {
    hide Placed, Owned;
    SpellsLinked(blocks, chain[0], b, block);
    SpellsLinked(blocks, chain[1], b, block);
    SpellsLinked(blocks, chain[2], b, block);
    SpellsLinked(blocks, free, b, block);
  }

  lemma SpellsLinked(blocks: seq<Block>, chain: seq<int>, b: int, block: Block)
    requires Spells(blocks, chain) && 0 <= b < |blocks| && block.next == blocks[b].next
    ensures Spells(blocks[b := block], chain)
  {
    var blocks' := blocks[b := block];
    forall k | 0 <= k < |chain| ensures Leads(blocks', chain, k) {
      assert Leads(blocks, chain, k);
    }
  }

  /** Both heaps have the same blocks at the same places. */
  ghost predicate SameRanges(h: Heap, h': Heap) {
    && h'.base == h.base && |h'.blocks| == |h.blocks|
    && forall i :: 0 <= i < |h.blocks| ==> h'.blocks[i].limit == h.blocks[i].limit
  }
}

/** The shared cache of decoded blocks: sharded, with CLOCK eviction. */
module Cache {
  import opened Bytes
  import opened Records

  type DecodedBlock = seq<Entry>

  const ASSUMED_BLOCK_BYTES: nat := 4096
  const SHARDS: nat := 16

  /** A run and a block within it. */
  datatype BlockKey = BlockKey(runId: nat, blockIdx: nat)

  datatype Slot = Slot(key: BlockKey, block: DecodedBlock, referenced: bool)

  // --------------------------------------------------------------- ring order

  /** How many steps the hand at `hand` needs to reach slot `i` of `n`. */
  function Distance(hand: nat, i: nat, n: nat): nat
    requires hand < n && i < n
  {
    if i >= hand then i - hand else i + n - hand
  }

  function Next(hand: nat, n: nat): (h: nat)
    requires hand < n
    ensures h < n
  {
    (hand + 1) % n
  }

  lemma NextIs(hand: nat, n: nat)
    requires hand < n
    ensures Next(hand, n) == if hand + 1 == n then 0 else hand + 1
  {
    if hand + 1 < n { assert (hand + 1) % n == hand + 1; } else { assert (hand + 1) % n == 0; }
  }

  /** A slot the hand may hand out: free, or not referenced since it last passed. */
  predicate Evictable(s: Option<Slot>) {
    s.None? || !s.value.referenced
  }

  function Cleared(s: Option<Slot>): Option<Slot> {
    if s.None? then s else Some(s.value.(referenced := false))
  }

  /** `v` is the slot CLOCK picks: the first evictable one in ring order from the
      hand, or the hand's own slot after every bit has been cleared. */
  predicate IsVictim(slots: seq<Option<Slot>>, hand: nat, v: nat) {
    && hand < |slots| && v < |slots|
    && (if exists i :: 0 <= i < |slots| && Evictable(slots[i])
        then Evictable(slots[v]) &&
             forall i :: 0 <= i < |slots| && Evictable(slots[i]) ==> Distance(hand, v, |slots|) <= Distance(hand, i, |slots|)
        else v == hand)
  }

  /** The ring after the hand has passed from `hand` to the victim. */
  function Swept(slots: seq<Option<Slot>>, hand: nat, v: nat): (r: seq<Option<Slot>>)
    requires hand < |slots| && v < |slots|
    ensures |r| == |slots|
  {
    seq(|slots|, i requires 0 <= i < |slots| =>
      if !Evictable(slots[v]) || Distance(hand, i, |slots|) < Distance(hand, v, |slots|) then Cleared(slots[i]) else slots[i])
  }

  // -------------------------------------------------------------------- shard

  /** Ring and index are mutually inverse. */
  predicate Inverse(slots: seq<Option<Slot>>, index: map<BlockKey, nat>) {
    && (forall k :: k in index ==> index[k] < |slots| && slots[index[k]].Some? && slots[index[k]].value.key == k)
    && (forall i :: 0 <= i < |slots| && slots[i].Some? ==> slots[i].value.key in index && index[slots[i].value.key] == i)
  }

  function Resident(slots: seq<Option<Slot>>, index: map<BlockKey, nat>): map<BlockKey, DecodedBlock>
    requires Inverse(slots, index)
  {
    map k | k in index :: slots[index[k]].value.block
  }

  /** A shard never holds more blocks than it has slots. */
  lemma IndexBounded(slots: seq<Option<Slot>>, index: map<BlockKey, nat>)
    requires Inverse(slots, index)
    ensures |index| <= |slots|
  {
    var used := set i | 0 <= i < |slots| && slots[i].Some? :: i;
    CountBelow(used, |slots|);
    InjectiveCount(index, used);
  }

  lemma {:induction false} CountBelow(s: set<nat>, n: nat)
    requires forall i :: i in s ==> i < n
    ensures |s| <= n
  {
    if n > 0 {
      CountBelow(s - {n - 1}, n - 1);
    }
  }

  lemma {:induction false} InjectiveCount(index: map<BlockKey, nat>, used: set<nat>)
    requires forall k :: k in index ==> index[k] in used
    requires forall k, j :: k in index && j in index && index[k] == index[j] ==> k == j
    ensures |index| <= |used|
  {
    if index != map[] {
      var k :| k in index;
      InjectiveCount(index - {k}, used - {index[k]});
      assert |index - {k}| == |index| - 1 by { assert (index - {k}).Keys == index.Keys - {k}; }
    }
  }

  /** What storing a block makes of a shard's contents: it goes over the key's old
      block, or in the slot CLOCK picks, whose previous block, and no other, is
      evicted. A shard without slots stores nothing. */
  ghost predicate Stored(slots: seq<Option<Slot>>, hand: nat, before: map<BlockKey, DecodedBlock>, key: BlockKey, block: DecodedBlock,
                         after: map<BlockKey, DecodedBlock>)
  {
    if slots == [] then after == before
    else if key in before then after == before[key := block]
    else exists v: nat ::
           IsVictim(slots, hand, v) && after == (if slots[v].Some? then before - {slots[v].value.key} else before)[key := block]
  }

  /** A new key takes the victim's slot with its bit set, the bits the hand passed
      are cleared, and the hand stops just behind. */
  predicate MissAt(slots: seq<Option<Slot>>, hand: nat, key: BlockKey, block: DecodedBlock, v: nat, slots': seq<Option<Slot>>, hand': nat) {
    && IsVictim(slots, hand, v)
    && slots' == Swept(slots, hand, v)[v := Some(Slot(key, block, true))] && hand' == Next(v, |slots|)
  }

  class Shard {
    const slots: array<Option<Slot>>
    var index: map<BlockKey, nat>
    var hand: nat

    ghost predicate Valid()
      reads this, slots
    {
      Inverse(slots[..], index) && (slots.Length > 0 ==> hand < slots.Length)
    }

    ghost function Contents(): map<BlockKey, DecodedBlock>
      reads this, slots
      requires Valid()
    {
      Resident(slots[..], index)
    }

    constructor (n: nat)
      ensures Valid() && Contents() == map[] && slots.Length == n && fresh(slots)
    {
      slots := new Option<Slot>[n](_ => None);
      index := map[];
      hand := 0;
    }

    /** A hit returns the resident block and marks it recently used. */
    method Get(key: BlockKey) returns (r: Option<DecodedBlock>)
      requires Valid()
      modifies slots
      ensures Valid() && Contents() == old(Contents())
      ensures r == if key in Contents() then Some(Contents()[key]) else None
      ensures forall i :: 0 <= i < slots.Length ==>
        slots[i] == if key in index && index[key] == i then Some(old(slots[i]).value.(referenced := true)) else old(slots[i])
    {
      if key !in index {
        return None;
      }
      var i := index[key];
      slots[i] := Some(slots[i].value.(referenced := true));
      r := Some(slots[i].value.block);
    }

    /** Pick a slot by second chance. One full sweep clears at most every bit, so
        the slot is found within `slots.Length + 1` steps and the fallback after
        the loop is unreachable. */
    method FreeOrEvict() returns (v: nat, ghost steps: nat)
      requires Valid() && slots.Length > 0
      modifies this`hand, slots
      ensures IsVictim(old(slots[..]), old(hand), v) && slots[..] == Swept(old(slots[..]), old(hand), v)
      ensures hand == Next(v, slots.Length) && steps <= slots.Length + 1
    {
      var n := slots.Length;
      ghost var was, start := slots[..], hand;
      for t := 0 to 2 * n
        invariant t <= n && hand < n && hand == if start + t < n then start + t else start + t - n
        invariant forall i :: 0 <= i < n ==>
          if Distance(start, i, n) < t then !Evictable(was[i]) && slots[i] == Cleared(was[i]) else slots[i] == was[i]
      {
        var i := hand;
        NextIs(hand, n);
        hand := Next(hand, n);
        if Evictable(slots[i]) {
          if t < n {
            assert Distance(start, i, n) == t;
          } else {
            assert i == start && forall j :: 0 <= j < n ==> Distance(start, j, n) < t;
          }
          assert slots[..] == Swept(was, start, i);
          return i, t + 1;
        }
        slots[i] := Cleared(slots[i]);
      }
      assert false;
    }

    method Insert(key: BlockKey, block: DecodedBlock)
      requires Valid()
      modifies this, slots
      ensures Valid() && Stored(old(slots[..]), old(hand), old(Contents()), key, block, Contents())
      ensures slots.Length == 0 ==> hand == old(hand) && slots[..] == old(slots[..])
      ensures slots.Length > 0 && key in old(index) ==>
        hand == old(hand) && slots[..] == old(slots[..])[old(index)[key] := Some(Slot(key, block, true))]
      ensures slots.Length > 0 && key !in old(index) ==> exists v :: MissAt(old(slots[..]), old(hand), key, block, v, slots[..], hand)
    {
      if slots.Length == 0 {
        return;
      }
      if key in index {
        var i := index[key];
        slots[i] := Some(slots[i].value.(block := block, referenced := true));
        return;
      }
      ghost var was, before := slots[..], index;
      var i, _ := FreeOrEvict();
      ghost var swept := slots[..];
      SweepKeeps(was, index, old(hand), i);
      if slots[i].Some? {
        index := index - {slots[i].value.key};
      }
      slots[i] := Some(Slot(key, block, true));
      index := index[key := i];
      assert slots[..] == swept[i := Some(Slot(key, block, true))];
      assert MissAt(was, old(hand), key, block, i, slots[..], hand);
      Replace(swept, before, i, key, block);
    }
  }

  /** Clearing bits moves nothing. */
  lemma SweepKeeps(slots: seq<Option<Slot>>, index: map<BlockKey, nat>, hand: nat, v: nat)
    requires Inverse(slots, index) && hand < |slots| && v < |slots|
    ensures Inverse(Swept(slots, hand, v), index)
    ensures Resident(Swept(slots, hand, v), index) == Resident(slots, index)
    ensures Swept(slots, hand, v)[v].Some? <==> slots[v].Some?
    ensures slots[v].Some? ==> Swept(slots, hand, v)[v].value.key == slots[v].value.key
  {
  }

  /** Overwriting slot `i` with a new key. */
  lemma Replace(slots: seq<Option<Slot>>, index: map<BlockKey, nat>, i: nat, key: BlockKey, block: DecodedBlock)
    requires Inverse(slots, index) && i < |slots| && key !in index
    ensures var slots' := slots[i := Some(Slot(key, block, true))];
            var left := if slots[i].Some? then index - {slots[i].value.key} else index;
            && Inverse(slots', left[key := i])
            && Resident(slots', left[key := i])
               == (if slots[i].Some? then Resident(slots, index) - {slots[i].value.key} else Resident(slots, index))[key := block]
  {
  }

  // ------------------------------------------------------- CLOCK over many misses

  /** How far behind slot `v` the hand finds slot `i`; `v` itself comes last. */
  function Behind(v: nat, i: nat, n: nat): nat
    requires v < n && i < n
  {
    if i > v then i - v - 1 else i + n - v - 1
  }

  /** Since slot `v` was filled, with the bit of its block set, the slots of `filled`
      have been filled too. On its first round the hand has left every slot it passed
      filled and referenced, or evictable. On its second, every slot it has passed
      is filled, and those still to come are filled and referenced, or evictable. */
  predicate Turning(slots: seq<Option<Slot>>, hand: nat, v: nat, filled: set<nat>, second: bool) {
    var n := |slots|;
    && v < n && hand < n && v !in filled && (forall i :: i in filled ==> i < n)
    && (!second ==> !Evictable(slots[v]))
    && forall i :: 0 <= i < n && i != v ==> TurnedAt(slots[i], Behind(v, i, n) < Behind(v, hand, n), i in filled, second)
  }

  predicate TurnedAt(slot: Option<Slot>, passed: bool, filled: bool, second: bool) {
    if passed && second then filled
    else if passed || second then filled <==> !Evictable(slot)
    else !filled
  }

  lemma RingOrder(hand: nat, v: nat, i: nat, n: nat)
    requires hand < n && v < n && i < n
    ensures Distance(hand, i, n)
            == if Behind(v, i, n) >= Behind(v, hand, n) then Behind(v, i, n) - Behind(v, hand, n) else Behind(v, i, n) + n - Behind(v, hand, n)
    ensures Behind(v, i, n) == n - 1 <==> i == v
    ensures i != v ==> Behind(v, Next(i, n), n) == Behind(v, i, n) + 1
  {
    NextIs(i, n);
  }

  lemma {:induction false} CountAll(s: set<nat>, n: nat)
    requires forall i :: 0 <= i < n ==> i in s
    ensures |s| >= n
  {
    if n > 0 {
      CountAll(s - {n - 1}, n - 1);
    }
  }

  /** As long as fewer slots than all others are filled, one is not. */
  lemma OneUnfilled(filled: set<nat>, v: nat, n: nat) returns (i: nat)
    requires v < n && |filled| < n - 1
    ensures i < n && i != v && i !in filled
  {
    if forall i :: 0 <= i < n ==> i in filled + {v} {
      CountAll(filled + {v}, n);
      assert false;
    }
    i :| 0 <= i < n && i !in filled + {v};
  }

  /** Which slot a miss takes while the others are being filled. */
  lemma VictimIsUnfilled(slots: seq<Option<Slot>>, hand: nat, v: nat, filled: set<nat>, second: bool, u: nat)
    requires Turning(slots, hand, v, filled, second) && |filled| < |slots| - 1 && IsVictim(slots, hand, u)
    ensures u != v && u !in filled
    ensures second ==> Behind(v, u, |slots|) >= Behind(v, hand, |slots|) && Evictable(slots[u])
  {
    var n := |slots|;
    var i := OneUnfilled(filled, v, n);
    RingOrder(hand, v, i, n);
    RingOrder(hand, v, u, n);
    RingOrder(hand, v, v, n);
    assert TurnedAt(slots[i], Behind(v, i, n) < Behind(v, hand, n), i in filled, second);
    if u != v {
      assert TurnedAt(slots[u], Behind(v, u, n) < Behind(v, hand, n), u in filled, second);
    }
  }

  /** Every slot after a miss. */
  lemma TurnSlot(slots: seq<Option<Slot>>, hand: nat, v: nat, filled: set<nat>, second: bool, u: nat, slots': seq<Option<Slot>>, second': bool, i: nat)
    requires Turning(slots, hand, v, filled, second) && IsVictim(slots, hand, u) && u != v && u !in filled
    requires second ==> Behind(v, u, |slots|) >= Behind(v, hand, |slots|) && Evictable(slots[u])
    requires second' == (second || Behind(v, u, |slots|) < Behind(v, hand, |slots|) || !Evictable(slots[u]))
    requires |slots'| == |slots| && (forall j :: 0 <= j < |slots| && j != u ==> slots'[j] == Swept(slots, hand, u)[j])
    requires !Evictable(slots'[u]) && i < |slots| && i != v
    ensures TurnedAt(slots'[i], Behind(v, i, |slots|) < Behind(v, u, |slots|) + 1, i in filled + {u}, second')
  {
    var n := |slots|;
    RingOrder(hand, v, i, n);
    RingOrder(hand, v, u, n);
    RingOrder(hand, v, v, n);
    assert TurnedAt(slots[i], Behind(v, i, n) < Behind(v, hand, n), i in filled, second);
    assert TurnedAt(slots[u], Behind(v, u, n) < Behind(v, hand, n), u in filled, second);
    assert Behind(v, i, n) == Behind(v, u, n) ==> i == u;
  }

  /** A miss fills a slot not filled before, and slot `v` keeps its block. */
  lemma TurnStep(slots: seq<Option<Slot>>, hand: nat, v: nat, filled: set<nat>, second: bool, key: BlockKey, block: DecodedBlock,
                 u: nat, slots': seq<Option<Slot>>, hand': nat) returns (second': bool)
    requires Turning(slots, hand, v, filled, second) && |filled| < |slots| - 1 && MissAt(slots, hand, key, block, u, slots', hand')
    ensures u != v && u !in filled && v < |slots| == |slots'| && Turning(slots', hand', v, filled + {u}, second')
    ensures (slots[v].Some? ==> slots'[v].Some? && slots'[v].value.key == slots[v].value.key && slots'[v].value.block == slots[v].value.block)
  {
    var n := |slots|;
    VictimIsUnfilled(slots, hand, v, filled, second, u);
    second' := second || Behind(v, u, n) < Behind(v, hand, n) || !Evictable(slots[u]);
    RingOrder(hand, v, u, n);
    RingOrder(hand, v, v, n);
    forall i | 0 <= i < n && i != v
      ensures TurnedAt(slots'[i], Behind(v, i, n) < Behind(v, hand', n), i in filled + {u}, second')
    {
      TurnSlot(slots, hand, v, filled, second, u, slots', second', i);
    }
  }

  /** The shard after each of a list of misses. */
  predicate Misses(keys: seq<BlockKey>, blocks: seq<DecodedBlock>, victims: seq<nat>, rings: seq<seq<Option<Slot>>>, hands: seq<nat>) {
    && |blocks| == |victims| == |keys| && |rings| == |hands| == |keys| + 1
    && forall i :: 0 <= i < |keys| ==> MissAt(rings[i], hands[i], keys[i], blocks[i], victims[i], rings[i + 1], hands[i + 1])
  }

  /** A new block stays for a full turn: until as many newer ones have come in as
      there are slots, whatever the ring held before. */
  lemma {:induction false} StaysForATurn(keys: seq<BlockKey>, blocks: seq<DecodedBlock>, victims: seq<nat>, rings: seq<seq<Option<Slot>>>, hands: seq<nat>,
                                         m: nat) returns (filled: set<nat>, second: bool)
    requires Misses(keys, blocks, victims, rings, hands) && 1 <= m <= |keys| && m <= |rings[0]|
    ensures |rings[m]| == |rings[0]| && |filled| == m - 1
    ensures Turning(rings[m], hands[m], victims[0], filled, second)
    ensures victims[0] < |rings[m]| && rings[m][victims[0]].Some?
    ensures rings[m][victims[0]].value.key == keys[0] && rings[m][victims[0]].value.block == blocks[0]
    decreases m
  {
    hide Turning, MissAt;
    assert MissAt(rings[m - 1], hands[m - 1], keys[m - 1], blocks[m - 1], victims[m - 1], rings[m], hands[m]);
    if m == 1 {
      filled, second := {}, false;
      TurnStarts(rings[0], hands[0], keys[0], blocks[0], victims[0], rings[1], hands[1]);
    } else {
      var before, was := StaysForATurn(keys, blocks, victims, rings, hands, m - 1);
      second := TurnStep(rings[m - 1], hands[m - 1], victims[0], before, was, keys[m - 1], blocks[m - 1], victims[m - 1], rings[m], hands[m]);
      filled := before + {victims[m - 1]};
    }
  }

  lemma TurnStarts(slots: seq<Option<Slot>>, hand: nat, key: BlockKey, block: DecodedBlock, v: nat, slots': seq<Option<Slot>>, hand': nat)
    requires MissAt(slots, hand, key, block, v, slots', hand')
    ensures v < |slots'| == |slots| && Turning(slots', hand', v, {}, false) && slots'[v] == Some(Slot(key, block, true))
  {
    NextIs(v, |slots|);
  }

  // -------------------------------------------------------------- whole cache

  /** The low four bits of a 64-bit mix of run and block. */
  function ShardOf(key: BlockKey): (i: nat)
    ensures i < SHARDS
  {
    var h := ((key.runId * 0x9E37_79B9_7F4A_7C15) % U64) as bv64 ^ ((key.blockIdx * 0xC2B2_AE3D_27D4_EB4F) % U64) as bv64;
    (h & 15) as nat
  }

  function SlotsPerShard(capacityBytes: nat): nat {
    var total := capacityBytes / ASSUMED_BLOCK_BYTES;
    if total == 0 then 0 else (total + SHARDS - 1) / SHARDS
  }

  /** No capacity, no slots; otherwise the fewest that hold it in all shards. */
  lemma SlotsIfAny(capacityBytes: nat)
    ensures var n, total := SlotsPerShard(capacityBytes), capacityBytes / ASSUMED_BLOCK_BYTES;
            if capacityBytes < ASSUMED_BLOCK_BYTES then n == 0 && total == 0 else n > 0 && total > 0 && 16 * (n - 1) < total <= 16 * n
  {
  }

  /** What a block should decode to, for every key ever cached. */
  type Truth = BlockKey -> Option<DecodedBlock>

  class BlockCache {
    const shards: seq<Shard>
    const enabled: bool

    ghost predicate Valid()
      reads this, shards, set i | 0 <= i < |shards| :: shards[i].slots
    {
      && |shards| == SHARDS
      && (forall i :: 0 <= i < SHARDS ==> shards[i].Valid() && (shards[i].slots.Length > 0 <==> enabled))
      && (forall i, j :: 0 <= i < j < SHARDS ==> shards[i] != shards[j] && shards[i].slots != shards[j].slots)
    }

    /** Every cached block is what its run decodes to. */
    ghost predicate Coherent(truth: Truth)
      reads this, shards, set i | 0 <= i < |shards| :: shards[i].slots
      requires Valid()
    {
      forall i, k :: 0 <= i < SHARDS && k in shards[i].Contents() ==> truth(k) == Some(shards[i].Contents()[k])
    }

    ghost function Footprint(): set<object>
      reads this
    {
      (set i | 0 <= i < |shards| :: shards[i]) + (set i | 0 <= i < |shards| :: shards[i].slots)
    }

    constructor (capacityBytes: nat)
      ensures Valid() && fresh(Footprint()) && enabled == (capacityBytes >= ASSUMED_BLOCK_BYTES)
      ensures forall truth: Truth :: Coherent(truth)
      ensures |shards| == 16
      ensures forall i :: 0 <= i < 16 ==>
        var n := shards[i].slots.Length;
        if capacityBytes < 4096 then n == 0 else n > 0 && 16 * (n - 1) < capacityBytes / 4096 <= 16 * n
    {
      hide Inverse, Resident, SlotsPerShard;
      var total, n := capacityBytes / ASSUMED_BLOCK_BYTES, SlotsPerShard(capacityBytes);
      SlotsIfAny(capacityBytes);
      var made: seq<Shard> := [];
      for i := 0 to SHARDS
        invariant |made| == i
        invariant forall j :: 0 <= j < i ==>
          made[j].Valid() && made[j].Contents() == map[] && made[j].slots.Length == n && fresh(made[j]) && fresh(made[j].slots)
        invariant forall j, k :: 0 <= j < k < i ==> made[j] != made[k] && made[j].slots != made[k].slots
      {
        var s := new Shard(n);
        made := made + [s];
      }
      shards := made;
      enabled := total > 0;
    }

    /** What shard `i` holds. */
    ghost function Held(i: nat): map<BlockKey, DecodedBlock>
      reads this, shards, set i | 0 <= i < |shards| :: shards[i].slots
      requires Valid() && i < SHARDS
    {
      shards[i].Contents()
    }

    /** A hit is the block held, which is the true one; nothing is evicted. */
    method Get(key: BlockKey, ghost truth: Truth) returns (r: Option<DecodedBlock>)
      requires Valid() && Coherent(truth)
      modifies Footprint()
      ensures Valid() && Coherent(truth) && forall i :: 0 <= i < SHARDS ==> Held(i) == old(Held(i))
      ensures r.Some? ==> truth(key) == r
      ensures enabled ==> r == if key in Held(ShardOf(key)) then Some(Held(ShardOf(key))[key]) else None
      ensures !enabled ==> r.None?
    {
      hide Inverse, Resident, ShardOf;
      if !enabled {
        return None;
      }
      r := shards[ShardOf(key)].Get(key);
    }

    /** The key's shard stores the block, and is the only one to change. */
    method Insert(key: BlockKey, block: DecodedBlock, ghost truth: Truth)
      requires Valid() && Coherent(truth) && truth(key) == Some(block)
      modifies Footprint()
      ensures Valid() && Coherent(truth)
      ensures forall i :: 0 <= i < SHARDS && i != ShardOf(key) ==> Held(i) == old(Held(i))
      ensures var shard := shards[ShardOf(key)];
              Stored(old(shard.slots[..]), old(shard.hand), old(Held(ShardOf(key))), key, block, Held(ShardOf(key)))
      ensures enabled ==> key in Held(ShardOf(key)) && Held(ShardOf(key))[key] == block
    {
      hide IsVictim, Inverse, Resident, ShardOf;
      if !enabled {
        return;
      }
      shards[ShardOf(key)].Insert(key, block);
    }
  }
}

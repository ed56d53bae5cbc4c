/** The arithmetic of the file cache: where blocks begin and what a block holds. */
module BlockCache {
  import opened Bytes

  const CACHE_BLOCKS := 3

  /** pos & ~mask on unsigned integers. */
  function ClearBits(pos: nat, mask: nat): nat {
    if pos == 0 then 0
    else 2 * ClearBits(pos / 2, mask / 2) + (if mask % 2 == 1 then 0 else pos % 2)
  }

  /** Whatever the mask, clearing its bits moves a position back by no more than the mask:
      a block of mask + 1 bytes starting there reaches the position. */
  lemma {:induction false} BlockReaches(pos: nat, mask: nat)
    ensures ClearBits(pos, mask) <= pos <= ClearBits(pos, mask) + mask
  {
    if pos != 0 { BlockReaches(pos / 2, mask / 2); }
  }

  function Mask(high: nat, k: nat): nat {
    if k == 0 then high else 2 * Mask(high, k - 1) + 1
  }

  function Shift(pos: nat, k: nat): nat {
    if k == 0 then pos else Shift(pos / 2, k - 1)
  }

  function Scale(x: nat, k: nat): nat {
    if k == 0 then x else 2 * Scale(x, k - 1)
  }

  /** The low k bits of a mask simply vanish. */
  lemma {:induction false} ClearLow(pos: nat, high: nat, k: nat)
    ensures ClearBits(pos, Mask(high, k)) == Scale(ClearBits(Shift(pos, k), high), k)
    decreases k
  {
    if k > 0 {
      ClearLow(pos / 2, high, k - 1);
      assert Mask(high, k) / 2 == Mask(high, k - 1);
    }
  }

  lemma {:induction false} NoMask(pos: nat)
    ensures ClearBits(pos, 0) == pos
  {
    if pos != 0 { NoMask(pos / 2); }
  }

  lemma {:induction false} MaskScale(x: nat, k: nat)
    ensures Scale(x, k) == x * Scale(1, k) && Mask(x, k) == Scale(x, k) + Scale(1, k) - 1
  {
    if k > 0 { MaskScale(x, k - 1); }
  }

  lemma Bits13(x: nat)
    ensures Mask(x, 13) == 8192 * x + 8191 && Scale(x, 13) == 8192 * x
  {
    MaskScale(x, 13);
    assert Scale(1, 13) == 8192;
  }

  lemma {:induction false} ShiftScale(x: nat, k: nat)
    ensures Shift(Scale(x, k), k) == x
  {
    if k > 0 { ShiftScale(x, k - 1); }
  }

  /** std::min(32768, std::max(file_size/20, 8192)) & ~0x1FFF */
  function CacheSize(fileSize: nat): nat {
    var wanted := if fileSize / 20 > 8192 then fileSize / 20 else 8192;
    ClearBits(if wanted < 32768 then wanted else 32768, 0x1FFF)
  }

  /** The sizes openFile can choose; the third is no power of two. */
  lemma CacheSizes(fileSize: nat)
    ensures CacheSize(fileSize) in {8192, 16384, 24576, 32768}
    ensures CacheSize(fileSize) == 24576 <==> 491520 <= fileSize < 655360
  {
    var wanted := if fileSize / 20 > 8192 then fileSize / 20 else 8192;
    var chosen := if wanted < 32768 then wanted else 32768;
    ClearLow(chosen, 0, 13);
    NoMask(Shift(chosen, 13));
    Bits13(0);
    Bits13(Shift(chosen, 13));
    BlockReaches(chosen, 8191);
  }

  /** With the size 24576 blocks overlap: two bases less than a block apart. */
  lemma BlocksOverlap(size: nat) returns (p: nat, q: nat)
    requires size == 24576
    ensures ClearBits(p, size - 1) < ClearBits(q, size - 1) < ClearBits(p, size - 1) + size
  {
    p, q := 0, Scale(1, 13);
    Bits13(1);
    Bits13(2);
    ClearLow(q, 2, 13);
    ShiftScale(1, 13);
    assert ClearBits(1, 2) == 1;
  }

  datatype CacheBlock = CacheBlock(loaded: bool, base: nat, size: nat, data: seq<byte>)

  /** How much fread delivers at base. */
  function Available(f: seq<byte>, base: nat, wanted: nat): nat {
    if base >= |f| then 0 else if |f| - base < wanted then |f| - base else wanted
  }

  /** A loaded block is a window on the file. */
  predicate Mirrors(b: CacheBlock, f: seq<byte>, cacheSize: nat) {
    b.loaded ==>
      && b.size == Available(f, b.base, cacheSize)
      && b.size <= |b.data|
      && (b.size > 0 ==> b.data[..b.size] == f[b.base..b.base + b.size])
  }

  /** What fread has put at the front of a block. */
  lemma ReadMirrors(f: seq<byte>, base: nat, cacheSize: nat, data: seq<byte>)
    requires base <= |f| && f[base..base + Available(f, base, cacheSize)] <= data
    ensures Mirrors(CacheBlock(true, base, Available(f, base, cacheSize), data), f, cacheSize)
  {
  }

  /** The block that getCacheBlock looks for answers every question about pos. */
  lemma BlockAnswers(b: CacheBlock, f: seq<byte>, cacheSize: nat, pos: nat)
    requires cacheSize > 0 && b.loaded && Mirrors(b, f, cacheSize)
    requires b.base == ClearBits(pos, cacheSize - 1) && pos <= |f|
    ensures b.base <= pos <= b.base + b.size
    ensures pos < |f| <==> pos - b.base < b.size
  {
    BlockReaches(pos, cacheSize - 1);
  }

  function Distance(b: CacheBlock, basePos: nat): nat {
    if b.base > basePos then b.base - basePos else basePos - b.base
  }

  predicate AllLoaded(cached: seq<CacheBlock>, n: nat)
    requires n <= |cached|
  {
    forall k | 0 <= k < n :: cached[k].loaded
  }

  predicate AllNear(cached: seq<CacheBlock>, basePos: nat, cacheSize: nat, n: nat)
    requires n <= |cached|
  {
    forall k | 0 <= k < n :: Distance(cached[k], basePos) <= 2 * cacheSize
  }

  predicate FirstEmpty(cached: seq<CacheBlock>, i: nat) {
    i < |cached| && !cached[i].loaded && AllLoaded(cached, i)
  }

  predicate FirstFar(cached: seq<CacheBlock>, basePos: nat, cacheSize: nat, i: nat) {
    i < |cached| && Distance(cached[i], basePos) > 2 * cacheSize && AllNear(cached, basePos, cacheSize, i)
  }

  /** The slot to load into: the first empty one, or else the first that is more than two blocks away, or else the
      first of all. */
  predicate GivenUp(cached: seq<CacheBlock>, basePos: nat, cacheSize: nat, i: nat) {
    if !AllLoaded(cached, |cached|) then FirstEmpty(cached, i)
    else if !AllNear(cached, basePos, cacheSize, |cached|) then FirstFar(cached, basePos, cacheSize, i)
    else i == 0
  }

  lemma MirroredByte(b: CacheBlock, f: seq<byte>, cacheSize: nat, offset: nat)
    requires b.loaded && Mirrors(b, f, cacheSize) && offset < b.size
    ensures b.base + offset < |f| && b.data[offset] == f[b.base + offset]
  {
    assert b.data[..b.size][offset] == f[b.base..b.base + b.size][offset];
  }
}

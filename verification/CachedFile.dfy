/** Reading a file directly or through the three-slot block cache. */
module CachedReading {
  import opened Bytes
  import opened NodeFormat
  import opened BlockCache

  const NO_VALID_CACHE: nat := 0xFFFF_FFFF

  class CachedFile {
    const file: seq<byte>     // the bytes on disk
    const useCache: bool
    const cacheSize: nat
    var filePos: nat          // ftell(m_file)
    var cacheIndex: nat
    var cacheOffset: nat
    var cached: seq<CacheBlock>  // m_cached_data, embedded in the object
    ghost var at: nat         // the next byte to be read, in either mode

    /** Every cached block is a window on the file. */
    ghost predicate Valid()
      reads this
    {
      && |cached| == CACHE_BLOCKS
      && (useCache ==> cacheSize > 0 && forall i | 0 <= i < CACHE_BLOCKS :: Mirrors(cached[i], file, cacheSize))
    }

    /** There is a current position, and it lies inside the file. */
    ghost predicate Ready()
      reads this
    {
      && Valid()
      && at <= |file|
      && if useCache then
           && cacheIndex < CACHE_BLOCKS && cached[cacheIndex].loaded && cacheOffset <= cached[cacheIndex].size
           && at == cached[cacheIndex].base + cacheOffset
         else at == filePos
    }

    /** fopen, with the cache size that openFile chooses. */
    constructor (file: seq<byte>, caching: bool)
      ensures Valid() && this.file == file && useCache == caching && (caching ==> cacheSize == CacheSize(|file|))
    {
      CacheSizes(|file|);
      this.file, useCache := file, caching;
      cacheSize := if caching then CacheSize(|file|) else 0;
      filePos, at, cacheIndex, cacheOffset := 0, 0, NO_VALID_CACHE, NO_VALID_CACHE;
      cached := seq(CACHE_BLOCKS, _ => CacheBlock(false, 0, 0, []));
    }

    // ------------------------------------------------------------ the cache

    /** The slot that loadCacheBlock gives up. */
    method ChooseSlot(basePos: nat) returns (loading: nat)
      requires |cached| == CACHE_BLOCKS
      ensures loading < CACHE_BLOCKS && GivenUp(cached, basePos, cacheSize, loading)
    {
      loading := CACHE_BLOCKS;
      var i := 0;
      while i < CACHE_BLOCKS && loading == CACHE_BLOCKS
        invariant i <= CACHE_BLOCKS && loading <= CACHE_BLOCKS
        invariant if loading < CACHE_BLOCKS then FirstEmpty(cached, loading) else AllLoaded(cached, i)
      {
        if !cached[i].loaded { loading := i; }
        i := i + 1;
      }
      if loading == CACHE_BLOCKS {
        i := 0;
        while i < CACHE_BLOCKS && loading == CACHE_BLOCKS
          invariant i <= CACHE_BLOCKS && loading <= CACHE_BLOCKS
          invariant if loading < CACHE_BLOCKS then FirstFar(cached, basePos, cacheSize, loading)
                    else AllNear(cached, basePos, cacheSize, i)
        {
          if Distance(cached[i], basePos) > 2 * cacheSize { loading := i; }
          i := i + 1;
        }
        if loading == CACHE_BLOCKS { loading := 0; }
      }
    }

    method LoadCacheBlock(pos: nat) returns (index: nat)
      requires Valid() && useCache && pos <= |file|
      modifies `filePos, `cached
      ensures Valid() && index < CACHE_BLOCKS && old(|cached|) == CACHE_BLOCKS
      ensures cached[index].loaded && cached[index].base == ClearBits(pos, cacheSize - 1)
      ensures GivenUp(old(cached), ClearBits(pos, cacheSize - 1), cacheSize, index)
      ensures forall k | 0 <= k < CACHE_BLOCKS && k != index :: cached[k] == old(cached[k])
    {
      hide ClearBits, GivenUp, Mirrors;
      var basePos := ClearBits(pos, cacheSize - 1);
      index := ChooseSlot(basePos);
      BlockReaches(pos, cacheSize - 1);
      var size := Available(file, basePos, cacheSize);
      var stale := cached[index].data;
      var data := file[basePos..basePos + size] + (if |stale| >= size then stale[size..] else []);
      ReadMirrors(file, basePos, cacheSize, data);
      filePos := basePos + size;
      cached := cached[index := CacheBlock(true, basePos, size, data)];
    }

    method GetCacheBlock(pos: nat) returns (index: nat)
      requires Valid() && useCache && pos <= |file|
      modifies `filePos, `cached
      ensures Valid() && index < CACHE_BLOCKS
      ensures cached[index].loaded && cached[index].base == ClearBits(pos, cacheSize - 1)
    {
      var basePos := ClearBits(pos, cacheSize - 1);
      var i := 0;
      while i < CACHE_BLOCKS
        invariant i <= CACHE_BLOCKS
      {
        if cached[i].loaded && cached[i].base == basePos { return i; }
        i := i + 1;
      }
      index := LoadCacheBlock(pos);
    }

    // ------------------------------------------------------------ the reader

    method SafeSeek(pos: nat)
      requires Valid() && pos <= |file|
      modifies this
      ensures Ready() && at == pos
    {
      if useCache {
        var i := GetCacheBlock(pos);
        BlockAnswers(cached[i], file, cacheSize, pos);
        cacheIndex := i;
        cacheOffset := pos - cached[i].base;
      } else {
        filePos := pos;
      }
      at := pos;
    }

    /** The position of the byte read last. */
    method SafeTell() returns (pos: int)
      requires Ready()
      ensures pos == at - 1
    {
      if useCache {
        pos := cached[cacheIndex].base + cacheOffset - 1;
      } else {
        pos := filePos - 1;
      }
    }

    /** Cached or not: the next byte of the file, or failure at its end. */
    method ReadByte() returns (ok: bool, value: byte)
      requires Ready()
      modifies this
      ensures Ready()
      ensures ok <==> old(at) < |file|
      ensures ok ==> value == file[old(at)]
      ensures at == old(at) + if ok then 1 else 0
    {
      value := 0;
      if useCache {
        if cacheOffset >= cached[cacheIndex].size {
          var pos := cacheOffset + cached[cacheIndex].base;
          var index := GetCacheBlock(pos);
          BlockAnswers(cached[index], file, cacheSize, pos);
          cacheIndex := index;
          cacheOffset := pos - cached[index].base;
          if cacheOffset >= cached[index].size { return false, 0; }
        }
        MirroredByte(cached[cacheIndex], file, cacheSize, cacheOffset);
        value := cached[cacheIndex].data[cacheOffset];
        cacheOffset := cacheOffset + 1;
        ok := true;
      } else {
        ok := filePos < |file|;
        if ok {
          value := file[filePos];
          filePos := filePos + 1;
        }
      }
      at := if ok then at + 1 else at;
    }

    /** Copies what the block of `pos` holds of the next `remain` bytes behind target[..to]; at least one byte. */
    method ReadFromBlock(target: array<byte>, to: nat, pos: nat, remain: nat) returns (reading: nat)
      requires Valid() && useCache && to + remain <= target.Length && pos + remain <= |file|
      modifies this, target
      ensures Ready() && reading <= remain && (remain > 0 ==> reading > 0)
      ensures at == pos + reading
      ensures target[..to + reading] == old(target[..to]) + file[pos..pos + reading]
    {
      hide ClearBits, Available;
      var i := GetCacheBlock(pos);
      BlockAnswers(cached[i], file, cacheSize, pos);
      cacheIndex := i;
      cacheOffset := pos - cached[i].base;
      reading := if remain < cached[i].size - cacheOffset then remain else cached[i].size - cacheOffset;
      MirroredRange(cached[i], file, cacheSize, cacheOffset, reading);
      Copy(target, to, cached[i].data, cacheOffset, reading);
      cacheOffset := cacheOffset + reading;
      at := pos + reading;
    }

    /** Cached or not: copies file[pos..pos+size] to the front of target. */
    method ReadBytes(target: array<byte>, size: nat, pos: nat)
      requires Valid() && size <= target.Length && pos + size <= |file|
      modifies this, target
      ensures Ready() && at == pos + size
      ensures target[..size] == file[pos..pos + size]
    {
      if useCache {
        var done := ReadFromBlock(target, 0, pos, size);
        while size - done > 0
          invariant Ready() && done <= size
          invariant at == pos + done && target[..done] == file[pos..pos + done]
        {
          var reading := ReadFromBlock(target, done, pos + done, size - done);
          Adjoin(file, pos, pos + done, pos + done + reading);
          done := done + reading;
        }
      } else {
        filePos := pos;
        Copy(target, 0, file, pos, size);
        filePos := pos + size;
        at := pos + size;
      }
    }

    static method Copy(target: array<byte>, to: nat, data: seq<byte>, from: nat, count: nat)
      requires to + count <= target.Length && from + count <= |data|
      modifies target
      ensures target[..to + count] == old(target[..to]) + data[from..from + count]
    {
      forall k | 0 <= k < count { target[to + k] := data[from + k]; }
      assert target[..to] == old(target[..to]);
      assert target[to..to + count] == data[from..from + count];
    }

    // ------------------------------------------------------------ the parser

    /** One byte of the inner loop of parseNode, together with the byte behind it if it is the escape character. */
    method ReadUnit() returns (ok: bool, byte: byte)
      requires Ready()
      modifies this
      ensures Ready() && old(at) <= at
      ensures ok ==> old(at) < at && byte == file[old(at)]
      ensures ok && Marker(byte) ==> at == old(at) + 1 && Scan(file, old(at)) == Found(old(at))
      ensures ok && !Marker(byte) ==> Scan(file, old(at)) == Scan(file, at)
      ensures !ok ==> Scan(file, old(at)) == Nowhere
    {
      ok, byte := ReadByte();
      if ok && byte == ESCAPE_CHAR {
        var escaped;
        ok, escaped := ReadByte();
      }
    }
  }

  lemma Adjoin(f: seq<byte>, a: nat, b: nat, c: nat)
    requires a <= b <= c <= |f|
    ensures f[a..b] + f[b..c] == f[a..c]
  {
  }

  lemma SliceOfSlice(s: seq<byte>, lo: nat, hi: nat, a: nat, b: nat)
    requires lo <= hi <= |s| && a <= b <= hi - lo
    ensures s[lo..hi][a..b] == s[lo + a..lo + b]
  {
    assert forall k | 0 <= k < b - a :: s[lo..hi][a..b][k] == s[lo..hi][a + k] == s[lo + a..lo + b][k];
  }

  lemma MirroredRange(b: CacheBlock, f: seq<byte>, cacheSize: nat, offset: nat, reading: nat)
    requires b.loaded && Mirrors(b, f, cacheSize) && offset + reading <= b.size && b.base + offset <= |f|
    ensures b.base + offset + reading <= |f|
    ensures b.data[offset..offset + reading] == f[b.base + offset..b.base + offset + reading]
  {
    if reading > 0 {
      SliceOfSlice(b.data, 0, b.size, offset, offset + reading);
      SliceOfSlice(f, b.base, b.base + b.size, offset, offset + reading);
    }
  }
}

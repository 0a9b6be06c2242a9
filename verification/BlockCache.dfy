/** The block cache as one caller uses it: an LRU list over block files, and the loop that
    stitches a byte range from blocks (src/cache/block.rs). */
module BlockCache {
  import opened Basics
  import opened Blocks
  import opened CacheSteps

  const CAPACITY: nat := 32

  /** Where `k` is in the list, from the most recently used on; its length if nowhere. */
  function PlaceOf(lru: seq<(Key, bytes)>, k: Key): (i: nat)
    ensures i <= |lru|
    ensures i < |lru| ==> lru[i].0 == k
    ensures forall j | 0 <= j < i :: lru[j].0 != k
  {
    if lru == [] then 0 else if lru[0].0 == k then 0 else 1 + PlaceOf(lru[1..], k)
  }

  /** `k` and its data first, then the others as they were, as many as fit. */
  function Touched(lru: seq<(Key, bytes)>, k: Key, data: bytes): (r: seq<(Key, bytes)>)
    ensures |r| > 0 && r[0] == (k, data) && |r| <= Max(|lru|, CAPACITY)
    ensures forall p | p in r :: p == (k, data) || p in lru
  {
    var i := PlaceOf(lru, k);
    var others := if i < |lru| then lru[..i] + lru[i + 1..] else lru;
    [(k, data)] + if |others| >= CAPACITY then others[..CAPACITY - 1] else others
  }

  /** The others keep their order; beyond 31 of them, the least recently used are dropped. */
  lemma TouchedKeeps(lru: seq<(Key, bytes)>, k: Key, data: bytes, i: nat)
    requires i <= |lru| && (i < |lru| ==> lru[i].0 == k) && forall j | 0 <= j < i :: lru[j].0 != k
    ensures var r := Touched(lru, k, data);
      && |r| == 1 + Min(if i < |lru| then |lru| - 1 else |lru|, 31) && r[0] == (k, data)
      && forall j | 0 < j < |r| :: r[j] == lru[if j <= i then j - 1 else j]
  {
    assert PlaceOf(lru, k) == i;
  }

  /** A fetch that succeeds gives the bytes of the remote pack `r`. */
  ghost predicate FetchesFrom(fetch: (nat, nat) -> Option<bytes>, r: bytes) {
    forall off: nat, n: nat :: fetch(off, n).Some? ==> fetch(off, n).value == Cut(r, off, off + n)
  }

  ghost predicate MayFail(fetch: (nat, nat) -> Option<bytes>) {
    exists off: nat, n: nat :: fetch(off, n).None?
  }

  class BlockCache {
    const size: nat
    var lru: seq<(Key, bytes)>
    var disk: map<Key, bytes>
    var full: map<bytes, bytes>
    var inFlight: set<Key>
    var hits: nat
    var misses: nat

    constructor (blockSize: nat)
      ensures size == (if blockSize == 0 then 10 * 1024 * 1024 else blockSize)
      ensures lru == [] && disk == map[] && full == map[] && inFlight == {} && hits == 0 && misses == 0
    {
      size := if blockSize == 0 then 10 * 1024 * 1024 else blockSize;
      lru, disk, full, inFlight, hits, misses := [], map[], map[], {}, 0, 0;
    }

    /** Whatever is stored is what the remote packs hold, and memory holds at most 32 blocks. */
    ghost predicate Valid(remote: bytes -> bytes)
      reads this
    {
      && size > 0 && |lru| <= CAPACITY
      && (forall p | p in lru :: p.1 == BlockOf(remote(p.0.name), size, p.0.block))
      && BlocksRight(Config(size, remote), disk)
      && (forall name | name in full :: full[name] == remote(name))
    }

    method Put(k: Key, data: bytes, ghost remote: bytes -> bytes)
      requires Valid(remote) && data == BlockOf(remote(k.name), size, k.block)
      modifies this`lru
      ensures Valid(remote) && lru == Touched(old(lru), k, data)
    {
      lru := Touched(lru, k, data);
    }

    /** A miss: the block is fetched, which may fail; `persists` says whether its file can be
        written. */
    method FetchBlock(k: Key, fetch: (nat, nat) -> Option<bytes>, persists: bool, ghost remote: bytes -> bytes)
      returns (r: Option<bytes>)
      requires Valid(remote) && k !in inFlight
      requires FetchesFrom(fetch, remote(k.name))
      modifies this`lru, this`disk, this`inFlight, this`misses
      ensures Valid(remote) && inFlight == old(inFlight) && misses == old(misses) + 1
      ensures r == fetch(k.block * size, size)
      ensures r.Some? ==> r.value == BlockOf(remote(k.name), size, k.block) && lru == Touched(old(lru), k, r.value)
      ensures r.None? ==> lru == old(lru)
      ensures disk == if r.Some? && persists then old(disk)[k := r.value] else old(disk)
    {
      inFlight := inFlight + {k};
      misses := misses + 1;
      r := fetch(k.block * size, size);
      if r.Some? {
        if persists { disk := disk[k := r.value]; }
        Put(k, r.value, remote);
      }
      inFlight := inFlight - {k};
    }

    /** From memory, else from the block file, else by a fetch, which may fail; a fetched block
        joins the block files, if its file can be written, and the other blocks stay. */
    method GetOrFetchBlock(k: Key, fetch: (nat, nat) -> Option<bytes>, persists: bool, ghost remote: bytes -> bytes)
      returns (r: Option<bytes>)
      requires Valid(remote) && k !in inFlight
      requires FetchesFrom(fetch, remote(k.name))
      modifies this`lru, this`disk, this`inFlight, this`hits, this`misses
      ensures Valid(remote) && inFlight == old(inFlight)
      ensures r.Some? ==> r.value == BlockOf(remote(k.name), size, k.block) && lru == Touched(old(lru), k, r.value)
      ensures r.None? ==> fetch(k.block * size, size).None? && lru == old(lru)
      ensures hits + misses == old(hits) + old(misses) + 1
      ensures hits > old(hits) <==> k in old(disk) || exists p :: p in old(lru) && p.0 == k
      ensures disk == if hits == old(hits) && r.Some? && persists then old(disk)[k := r.value] else old(disk)
    {
      var i := PlaceOf(lru, k);
      if i < |lru| {
        var data := lru[i].1;
        assert lru[i] in lru;
        hits := hits + 1;
        Put(k, data, remote);
        return Some(data);
      }
      if k in disk {
        hits := hits + 1;
        Put(k, disk[k], remote);
        return Some(disk[k]);
      }
      r := FetchBlock(k, fetch, persists, remote);
    }

    /** As the stitching loop needs it: the remote block, or a failed fetch. */
    method TakeBlock(k: Key, fetch: (nat, nat) -> Option<bytes>, persists: bool, ghost remote: bytes -> bytes)
      returns (r: Option<bytes>)
      requires Valid(remote) && inFlight == {} && FetchesFrom(fetch, remote(k.name))
      modifies this`lru, this`disk, this`inFlight, this`hits, this`misses
      ensures Valid(remote) && inFlight == {}
      ensures r.Some? ==> r.value == BlockOf(remote(k.name), size, k.block)
      ensures r.None? ==> MayFail(fetch)
    {
      r := GetOrFetchBlock(k, fetch, persists, remote);
    }

    /** One turn of the stitching loop: the result so far and one block more, and whether that
        was the last. */
    method AddBlock(name: bytes, b: nat, offset: nat, len: nat, result: bytes, fetch: (nat, nat) -> Option<bytes>,
                    persists: bool,
                    ghost remote: bytes -> bytes)
      returns (r: Option<bytes>, ends: bool)
      requires Valid(remote) && inFlight == {} && FetchesFrom(fetch, remote(name))
      requires len > 0 && offset / size <= b <= LastBlock(size, offset, len)
      requires result == Gathered(remote(name), size, b, offset, len)
      modifies this`lru, this`disk, this`inFlight, this`hits, this`misses
      ensures Valid(remote) && inFlight == {}
      ensures r.Some? ==> r.value == if ends then Cut(remote(name), offset, offset + len)
        else Gathered(remote(name), size, b + 1, offset, len)
      ensures r.Some? && b == LastBlock(size, offset, len) ==> ends
      ensures r.None? ==> MayFail(fetch)
    {
      BlockBounds(size, offset, len, b);
      var data := TakeBlock(Key(name, b), fetch, persists, remote);
      if data.None? { return None, true; }
      GatherStep(remote(name), size, b, offset, len);
      r, ends := Some(result + Overlap(data.value, b * size, offset, len)), EndsAt(data.value, size, b, offset, len);
      if ends { GatherEnds(remote(name), size, b, offset, len); }
    }

    /** The bytes of the remote pack from `offset` on, at most `len` of them and as many as
        there are, or an error when a fetch failed. */
    method ReadRange(name: bytes, offset: nat, len: nat, fetch: (nat, nat) -> Option<bytes>, persists: bool,
                     ghost remote: bytes -> bytes)
      returns (r: Option<bytes>)
      requires Valid(remote) && inFlight == {} && FetchesFrom(fetch, remote(name))
      modifies this`lru, this`disk, this`inFlight, this`hits, this`misses
      ensures Valid(remote) && inFlight == {}
      ensures r.Some? ==> r.value == Cut(remote(name), offset, offset + len)
      ensures r.None? ==> name !in full && MayFail(fetch)
    {
      if len == 0 { return Some([]); }
      if name in full {
        var pack := full[name];
        if offset >= |pack| { return Some([]); }
        return Some(pack[offset..offset + Min(len, |pack| - offset)]);
      }
      var b, last := offset / size, LastBlock(size, offset, len);
      BlockBounds(size, offset, len, b);
      r := Some([]);
      assert r.value == Gathered(remote(name), size, b, offset, len);
      var ends := false;
      while !ends
        invariant Valid(remote) && inFlight == {} && name !in full
        invariant !ends ==>
          offset / size <= b <= last && r.Some? && r.value == Gathered(remote(name), size, b, offset, len)
        invariant ends && r.Some? ==> r.value == Cut(remote(name), offset, offset + len)
        invariant r.None? ==> ends && MayFail(fetch)
        decreases last + 1 - b, !ends
      {
        r, ends := AddBlock(name, b, offset, len, r.value, fetch, persists, remote);
        if r.None? { return; }
        b := b + 1;
      }
    }
  }
}

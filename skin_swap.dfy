/**
 * CreatureMetaData::buildSkinSwapIndices: flattens the index ranges of the
 * regions named in a skin-swap set into one buffer, in region order, and
 * collects the tag ids of those regions.
 */
module SkinSwap {

  /** A render region of the bone composition: name, tag id, index count and index buffer. */
  datatype Region = Region(name: string, tagId: int, numIndices: nat, indices: seq<int>)

  /** The region's buffer holds at least the `numIndices` entries the copy reads. */
  predicate Readable(r: Region)
  {
    r.numIndices <= |r.indices|
  }

  predicate AllReadable(rs: seq<Region>)
  {
    forall i :: 0 <= i < |rs| ==> Readable(rs[i])
  }

  /** The indices a region contributes: its whole range if it is in the swap set, else none. */
  function Block(r: Region, swapSet: set<string>): seq<int>
    requires Readable(r)
  {
    if r.name in swapSet then r.indices[..r.numIndices] else []
  }

  /** The flattened buffer: the blocks of the regions, concatenated in region order. */
  function SwapIndices(rs: seq<Region>, swapSet: set<string>): seq<int>
    requires AllReadable(rs)
  {
    if rs == [] then []
    else SwapIndices(rs[..|rs| - 1], swapSet) + Block(rs[|rs| - 1], swapSet)
  }

  /** The buffer size: the sum of the index counts of the matching regions. */
  function SwapCount(rs: seq<Region>, swapSet: set<string>): nat
  {
    if rs == [] then 0
    else SwapCount(rs[..|rs| - 1], swapSet)
         + (if rs[|rs| - 1].name in swapSet then rs[|rs| - 1].numIndices else 0)
  }

  /** The tag ids of the matching regions. */
  function MatchedTags(rs: seq<Region>, swapSet: set<string>): set<int>
  {
    if rs == [] then {}
    else MatchedTags(rs[..|rs| - 1], swapSet)
         + (if rs[|rs| - 1].name in swapSet then {rs[|rs| - 1].tagId} else {})
  }

  lemma {:induction false} SwapIndicesLength(rs: seq<Region>, swapSet: set<string>)
    requires AllReadable(rs)
    ensures |SwapIndices(rs, swapSet)| == SwapCount(rs, swapSet)
  {
    if rs != [] {
      SwapIndicesLength(rs[..|rs| - 1], swapSet);
    }
  }

  /** A prefix of the regions never needs more room than all of them. */
  lemma {:induction false} SwapCountPrefix(rs: seq<Region>, swapSet: set<string>, k: nat)
    requires k <= |rs|
    ensures SwapCount(rs[..k], swapSet) <= SwapCount(rs, swapSet)
  {
    if k < |rs| {
      SwapCountPrefix(rs[..|rs| - 1], swapSet, k);
      assert rs[..|rs| - 1][..k] == rs[..k];
    } else {
      assert rs[..k] == rs;
    }
  }

  /** A tag id is collected exactly when some region carrying it is in the swap set. */
  lemma {:induction false} MatchedTagsIff(rs: seq<Region>, swapSet: set<string>, t: int)
    ensures t in MatchedTags(rs, swapSet)
        <==> exists i :: 0 <= i < |rs| && rs[i].name in swapSet && rs[i].tagId == t
  {
    if rs != [] {
      var front := rs[..|rs| - 1];
      MatchedTagsIff(front, swapSet, t);
      if exists i :: 0 <= i < |rs| && rs[i].name in swapSet && rs[i].tagId == t {
        var i :| 0 <= i < |rs| && rs[i].name in swapSet && rs[i].tagId == t;
        if i < |rs| - 1 {
          assert front[i] == rs[i];
        }
      }
      if exists i :: 0 <= i < |front| && front[i].name in swapSet && front[i].tagId == t {
        var i :| 0 <= i < |front| && front[i].name in swapSet && front[i].tagId == t;
        assert rs[i] == front[i];
      }
    }
  }

  /**
   * Region k's block sits in the buffer at the offset given by the regions before
   * it, so matching regions occupy consecutive, non-overlapping ranges.
   */
  lemma {:induction false} SwapIndicesBlockAt(rs: seq<Region>, swapSet: set<string>, k: nat)
    requires AllReadable(rs) && k < |rs|
    ensures SwapCount(rs[..k], swapSet) + |Block(rs[k], swapSet)| <= |SwapIndices(rs, swapSet)|
    ensures SwapIndices(rs, swapSet)[SwapCount(rs[..k], swapSet)..SwapCount(rs[..k], swapSet) + |Block(rs[k], swapSet)|]
         == Block(rs[k], swapSet)
  {
    var front := rs[..|rs| - 1];
    var lo := SwapCount(rs[..k], swapSet);
    var b := Block(rs[k], swapSet);
    SwapIndicesLength(front, swapSet);
    if k == |rs| - 1 {
      assert rs[..k] == front;
    } else {
      SwapIndicesBlockAt(front, swapSet, k);
      assert front[..k] == rs[..k];
      assert front[k] == rs[k];
      var a := SwapIndices(front, swapSet);
      assert SwapIndices(rs, swapSet) == a + Block(rs[|rs| - 1], swapSet);
      assert (a + Block(rs[|rs| - 1], swapSet))[lo..lo + |b|] == a[lo..lo + |b|];
    }
  }

  /**
   * Fills `indices` with the swap set's regions, as the source does: a first pass
   * sizes the buffer and collects tag ids, a second pass copies each matching
   * region's range at a running offset. An unknown swap name empties the buffer
   * and leaves the tag-id set as it was.
   */
  method BuildSkinSwapIndices(
    skinSwaps: map<string, set<string>>, swapName: string,
    regions: seq<Region>, regionIds: set<int>)
    returns (indices: seq<int>, newRegionIds: set<int>)
    requires AllReadable(regions)
    ensures swapName !in skinSwaps ==> indices == [] && newRegionIds == regionIds
    ensures swapName in skinSwaps ==>
      && indices == SwapIndices(regions, skinSwaps[swapName])
      && |indices| == SwapCount(regions, skinSwaps[swapName])
      && newRegionIds == MatchedTags(regions, skinSwaps[swapName])
  {
    if swapName !in skinSwaps {
      return [], regionIds;
    }
    var swapSet := skinSwaps[swapName];
    var totalSize;
    totalSize, newRegionIds := SizeSwap(regions, swapSet);
    indices := CopySwap(regions, swapSet, totalSize);
  }

  /** The first pass: the buffer size and the tag ids of the matching regions. */
  method SizeSwap(regions: seq<Region>, swapSet: set<string>) returns (totalSize: nat, ids: set<int>)
    ensures totalSize == SwapCount(regions, swapSet)
    ensures ids == MatchedTags(regions, swapSet)
  {
    totalSize := 0;
    ids := {};
    for i := 0 to |regions|
      invariant totalSize == SwapCount(regions[..i], swapSet)
      invariant ids == MatchedTags(regions[..i], swapSet)
    {
      assert regions[..i + 1][..i] == regions[..i];
      if regions[i].name in swapSet {
        totalSize := totalSize + regions[i].numIndices;
        ids := ids + {regions[i].tagId};
      }
    }
    assert regions[..|regions|] == regions;
  }

  /** The second pass: each matching region's range copied into a buffer of the computed size. */
  method CopySwap(regions: seq<Region>, swapSet: set<string>, totalSize: nat) returns (indices: seq<int>)
    requires AllReadable(regions) && totalSize == SwapCount(regions, swapSet)
    ensures indices == SwapIndices(regions, swapSet)
    ensures |indices| == SwapCount(regions, swapSet)
  {
    var buffer := new int[totalSize];
    var offset := 0;
    for i := 0 to |regions|
      invariant offset == SwapCount(regions[..i], swapSet) <= totalSize
      invariant buffer[..offset] == SwapIndices(regions[..i], swapSet)
    {
      var cur := regions[i];
      assert regions[..i + 1][..i] == regions[..i];
      SwapCountPrefix(regions, swapSet, i + 1);
      if cur.name in swapSet {
        CopyRange(buffer, offset, cur.indices, cur.numIndices);
        offset := offset + cur.numIndices;
      }
    }
    assert regions[..|regions|] == regions;
    SwapIndicesLength(regions, swapSet);
    assert buffer[..] == buffer[..offset];
    indices := buffer[..];
  }

  /** Copies the first `count` entries of `src` into `buffer` at `offset`. */
  method CopyRange(buffer: array<int>, offset: nat, src: seq<int>, count: nat)
    requires count <= |src| && offset + count <= buffer.Length
    modifies buffer
    ensures buffer[..offset + count] == old(buffer[..offset]) + src[..count]
    ensures buffer[offset + count..] == old(buffer[offset + count..])
  {
    ghost var before := buffer[..offset];
    for j := 0 to count
      invariant buffer[..offset + j] == before + src[..j]
      invariant buffer[offset + count..] == old(buffer[offset + count..])
    {
      buffer[offset + j] := src[j];
      assert buffer[..offset + j + 1] == buffer[..offset + j] + [src[j]];
      assert src[..j + 1] == src[..j] + [src[j]];
    }
  }

  /**
   * Regions [A(0,1,2), B(3,4,5), C(6)] with the swap set {A, C} give the buffer
   * [0, 1, 2, 6] and the tag ids of A and C.
   */
  lemma SwapExample()
    ensures var rs := [Region("A", 10, 3, [0, 1, 2]), Region("B", 11, 3, [3, 4, 5]), Region("C", 12, 1, [6])];
            && SwapIndices(rs, {"A", "C"}) == [0, 1, 2, 6]
            && MatchedTags(rs, {"A", "C"}) == {10, 12}
  {
    var swapSet := {"A", "C"};
    var rs := [Region("A", 10, 3, [0, 1, 2]), Region("B", 11, 3, [3, 4, 5]), Region("C", 12, 1, [6])];
    assert rs[..2][..1] == rs[..1] == [rs[0]];
    assert [rs[0]][..0] == [];
    assert rs[..|rs| - 1] == rs[..2];
    assert SwapIndices(rs[..1], swapSet) == [0, 1, 2];
    assert SwapIndices(rs[..2], swapSet) == [0, 1, 2];
    assert MatchedTags(rs[..1], swapSet) == {10};
    assert MatchedTags(rs[..2], swapSet) == {10};
  }
}

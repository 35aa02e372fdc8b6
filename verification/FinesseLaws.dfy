/** What a super-feature is a hash of. */
module FinesseLaws {
  import opened Words
  import opened RabinPoly
  import opened Finesse
  import XxHash64

  /** A feature is the largest of the fingerprints met while the bytes of its sub-chunk slide in. */
  lemma {:induction false} FeatureIsLargest(s: seq<byte>, w: nat)
    ensures forall k :: 1 <= k <= |s| ==> Fingerprint(LastBytes(s[..k], w)) <= MaxFp(s, w)
    ensures s != [] ==> exists k :: 1 <= k <= |s| && MaxFp(s, w) == Fingerprint(LastBytes(s[..k], w))
  {
    hide Fingerprint, LastBytes;
    if s != [] {
      var n := |s| - 1;
      FeatureIsLargest(s[..n], w);
      assert forall k :: 0 <= k <= n ==> s[..n][..k] == s[..k];
      assert s[..|s|] == s;
      if n > 0 && MaxFp(s, w) != Fingerprint(LastBytes(s[..|s|], w)) {
        var k :| 1 <= k <= n && MaxFp(s[..n], w) == Fingerprint(LastBytes(s[..n][..k], w));
        assert MaxFp(s, w) == Fingerprint(LastBytes(s[..k], w));
      }
    }
  }

  /** The members of a group, sorted: each rank holds a feature of that group, as often as the group
      does, in descending order; so rank 0 is the largest of the group and the last rank the smallest. */
  lemma RankInGroup(features: seq<nat>, s: nat, j: nat)
    requires 1 <= s && At(j + 1, s) <= |features|
    ensures At(j + 1, s) == j * s + s
    ensures var group, members := Group(features, s, j), features[j * s..j * s + s];
      && multiset(group) == multiset(members)
      && (forall i, k :: 0 <= i < k < s ==> group[i] >= group[k])
      && (forall k :: 0 <= k < s ==> group[s - 1] <= members[k] <= group[0])
  {
    AtIsProduct(j, s);
    AtStep(j, s);
    hide At;
    var members := features[j * s..j * s + s];
    assert Slice(features, s, j) == members;
    SortDownSorts(members);
    hide SortDown;
    Extremes(Group(features, s, j), members);
  }

  lemma Extremes(group: seq<nat>, members: seq<nat>)
    requires Descending(group) && multiset(group) == multiset(members) && group != []
    ensures forall k :: 0 <= k < |members| ==> group[|group| - 1] <= members[k] <= group[0]
  {
    forall k | 0 <= k < |members| ensures group[|group| - 1] <= members[k] <= group[0] {
      assert members[k] in multiset(group);
      var i :| 0 <= i < |group| && group[i] == members[k];
    }
  }

  /** Bytes `8 j` to `8 j + 8` of what super-feature `i` hashes are member `i` of group `j`. */
  lemma {:induction false} AcrossAt(features: seq<nat>, s: nat, g: nat, i: nat, j: nat)
    requires At(g, s) <= |features| && i < s && j < g
    ensures At(j + 1, s) <= |features|
    ensures Across(features, s, g, i)[8 * j..8 * j + 8] == ToBytes(Group(features, s, j)[i], 8)
  {
    hide Group, ToBytes, At, Across;
    AtMonotone(j + 1, g, s);
    var head, tail := AcrossSplit(features, s, g, i);
    if j < g - 1 {
      AcrossAt(features, s, g - 1, i, j);
      SliceOfHead(head, tail, 8 * j, 8 * j + 8);
    } else {
      SliceOfTail(head, tail);
    }
  }

  lemma AcrossSplit(features: seq<nat>, s: nat, g: nat, i: nat) returns (head: seq<byte>, tail: seq<byte>)
    requires At(g, s) <= |features| && i < s && g > 0
    ensures At(g - 1, s) <= |features|
    ensures head == Across(features, s, g - 1, i) && tail == ToBytes(Group(features, s, g - 1)[i], 8)
    ensures Across(features, s, g, i) == head + tail
  {
    hide Group, ToBytes;
    head, tail := Across(features, s, g - 1, i), ToBytes(Group(features, s, g - 1)[i], 8);
  }

  lemma SliceOfHead<X>(a: seq<X>, b: seq<X>, i: nat, j: nat)
    requires i <= j <= |a|
    ensures (a + b)[i..j] == a[i..j]
  {
  }

  lemma SliceOfTail<X>(a: seq<X>, b: seq<X>)
    ensures (a + b)[|a|..|a| + |b|] == b
  {
  }

  /** Super-feature `i` is the hash, with seed 0, of the `i`-th largest features of the groups, one after the
      other as eight bytes each. */
  lemma SuperFeatureMeans(features: seq<nat>, p: Shape, i: nat, bytes: seq<byte>)
    requires Sound(p) && |features| == p.f && i < p.s && |bytes| == 8 * p.g
    requires forall j :: 0 <= j < p.g ==> At(j + 1, p.s) <= |features| && bytes[8 * j..8 * j + 8] == ToBytes(Group(features, p.s, j)[i], 8)
    ensures SuperFeature(features, p, i) == XxHash64.XXH64(bytes, 0)
  {
    hide Group, ToBytes, At, XxHash64.XXH64;
    var across := Across(features, p.s, p.g, i);
    forall k | 0 <= k < 8 * p.g ensures bytes[k] == across[k] {
      var j := k / 8;
      AcrossAt(features, p.s, p.g, i, j);
      assert bytes[k] == bytes[8 * j..8 * j + 8][k - 8 * j];
      assert across[k] == across[8 * j..8 * j + 8][k - 8 * j];
    }
    assert bytes == across;
  }
}

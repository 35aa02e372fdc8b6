/** FinesseUtil::ExtractFeature (src/dedup/finesse_util.cc): similarity features of a chunk.  The chunk is
    read in sub-chunks; the largest fingerprint of each is a feature; the sorted features of groups of
    sub-chunks are hashed across the groups into super-features. */
module Finesse {
  import opened Words
  import opened Sequences
  import opened RabinPoly
  import XxHash64

  // ------------------------------------------------------------------ products

  /** `n * k`, by repeated addition. */
  function At(n: nat, k: nat): nat {
    if n == 0 then 0 else At(n - 1, k) + k
  }

  lemma {:induction false} AtIsProduct(n: nat, k: nat)
    ensures At(n, k) == n * k
  {
    if n > 0 {
      AtIsProduct(n - 1, k);
      assert n * k == (n - 1) * k + k;
    }
  }

  lemma {:induction false} AtMonotone(m: nat, n: nat, k: nat)
    requires m <= n
    ensures At(m, k) <= At(n, k) && (m < n ==> At(m, k) + k <= At(n, k))
    decreases n
  {
    if m < n { AtMonotone(m, n - 1, k); }
  }

  lemma {:induction false} AtLeast(n: nat, k: nat)
    requires k >= 1
    ensures n <= At(n, k)
  {
    if n > 0 { AtLeast(n - 1, k); }
  }

  // ------------------------------------------------------------------ sub-chunks

  /** Lines 49-54. */
  function SubChunkSize(size: nat, f: nat): nat
    requires f >= 1
  {
    if size % f != 0 then size / f + 1 else size / f
  }

  /** The sub-chunks together are at least as long as the chunk and exceed it by less than their number. */
  lemma SubChunkSizeMeans(size: nat, f: nat)
    requires f >= 1
    ensures var sub := SubChunkSize(size, f); size <= At(f, sub) < size + f
    ensures size % f == 0 ==> At(f, SubChunkSize(size, f)) == size
    ensures size > 0 ==> SubChunkSize(size, f) >= 1
  {
    var sub := SubChunkSize(size, f);
    AtIsProduct(f, sub);
    var q, r := size / f, size % f;
    assert size == f * q + r;
    assert f * (q + 1) == f * q + f;
  }

  /** Where the inner loop stops that starts with `curOffset` bytes read: after `sub` bytes or when
      exactly `size` have been read. */
  function PieceLength(curOffset: nat, size: nat, sub: nat): nat {
    if curOffset < size <= curOffset + sub then size - curOffset else sub
  }

  /** The bytes that sub-chunk `i` covers. */
  function PieceStart(size: nat, f: nat, i: nat): nat
    requires f >= 1
  {
    At(i, SubChunkSize(size, f))
  }

  function PieceEnd(size: nat, f: nat, i: nat): nat
    requires f >= 1
  {
    PieceStart(size, f, i) + PieceLength(PieceStart(size, f, i), size, SubChunkSize(size, f))
  }

  function Range(a: nat, b: nat): seq<nat>
    requires a <= b
  {
    seq(b - a, i requires 0 <= i < b - a => a + i)
  }

  /** The positions read for the first `n` sub-chunks, in order. */
  function Positions(size: nat, f: nat, n: nat): seq<nat>
    requires f >= 1
  {
    if n == 0 then [] else Positions(size, f, n - 1) + Range(PieceStart(size, f, n - 1), PieceEnd(size, f, n - 1))
  }

  /** When the last sub-chunk starts inside the chunk. */
  predicate Covered(size: nat, f: nat)
    requires f >= 1
  {
    size == 0 || At(f - 1, SubChunkSize(size, f)) < size
  }

  lemma RangesJoin(a: nat, b: nat)
    requires a <= b
    ensures Range(0, a) + Range(a, b) == Range(0, b)
  {
  }

  lemma {:induction false} FullPieces(size: nat, f: nat, n: nat)
    requires f >= 1 && n >= 1 && At(n - 1, SubChunkSize(size, f)) < size
    ensures var b := At(n, SubChunkSize(size, f)); Positions(size, f, n) == Range(0, if b < size then b else size)
  {
    var sub := SubChunkSize(size, f);
    var a, e := PieceStart(size, f, n - 1), PieceEnd(size, f, n - 1);
    assert Positions(size, f, n) == Positions(size, f, n - 1) + Range(a, e);
    assert n == 1 ==> Positions(size, f, 0) == Range(0, 0);
    hide Range, SubChunkSize;
    if n > 1 {
      AtMonotone(n - 2, n - 1, sub);
      FullPieces(size, f, n - 1);
    }
    RangesJoin(a, e);
  }

  /** The loops read every byte of the chunk exactly once and in order, and none outside it, exactly when
      the last sub-chunk starts inside the chunk: the break leaves the inner loop only, and only when
      exactly `size` bytes have been read, so sub-chunks that start behind the chunk are read in full. */
  lemma ReadsWholeChunk(size: nat, f: nat)
    requires f >= 1
    ensures Positions(size, f, f) == Range(0, size) <==> Covered(size, f)
  {
    hide At, SubChunkSize;
    var sub := SubChunkSize(size, f);
    SubChunkSizeMeans(size, f);
    if size == 0 {
      NothingRead(f, f);
    } else if Covered(size, f) {
      FullPieces(size, f, f);
    } else {
      var a, b := PieceStart(size, f, f - 1), PieceEnd(size, f, f - 1);
      AtMonotone(f - 1, f, sub);
      assert Range(a, b)[0] == a >= size;
      var p := Positions(size, f, f);
      assert p[|p| - |Range(a, b)|] == a;
    }
  }

  /** An uncovered chunk has its last reads behind its end. */
  lemma ReadsBehind(size: nat, f: nat)
    requires f >= 1 && !Covered(size, f)
    ensures var p := Positions(size, f, f); p != [] && p[|p| - 1] == At(f, SubChunkSize(size, f)) - 1 >= size
  {
    var sub := SubChunkSize(size, f);
    SubChunkSizeMeans(size, f);
    hide SubChunkSize;
    assert PieceEnd(size, f, f - 1) == At(f, sub) > PieceStart(size, f, f - 1) >= size;
  }

  /** Five bytes in four sub-chunks of two: the fourth lies behind the chunk and is read all the same. */
  lemma ReadsBehindFive()
    ensures !Covered(5, 4)
    ensures var p := Positions(5, 4, 4); p != Range(0, 5) && p != [] && p[|p| - 1] == 7
  {
    assert SubChunkSize(5, 4) == 2 && At(1, 2) == 2 && At(2, 2) == 4 && At(3, 2) == 6 && At(4, 2) == 8;
    ReadsBehind(5, 4);
    ReadsWholeChunk(5, 4);
  }

  lemma {:induction false} NothingRead(f: nat, n: nat)
    requires f >= 1
    ensures Positions(0, f, n) == []
  {
    if n > 0 {
      NothingRead(f, n - 1);
      AtIsProduct(n - 1, 0);
    }
  }

  /** Two ways for a chunk to be covered. */
  lemma CoveredSizes(size: nat, f: nat)
    requires f >= 1 && (size % f == 0 || size > (f - 1) * (f - 1))
    ensures Covered(size, f)
  {
    var sub, e := SubChunkSize(size, f), f - 1;
    SubChunkSizeMeans(size, f);
    AtIsProduct(f, sub);
    AtIsProduct(e, sub);
    assert f * sub == e * sub + sub;
    if size % f != 0 && e * sub >= size {
      assert sub <= e by { assert e * sub + sub < size + f; }
      assert e * sub <= e * e by { ProductMonotone(e, sub, e); }
    }
  }

  lemma ProductMonotone(a: nat, b: nat, c: nat)
    requires b <= c
    ensures a * b <= a * c
  {
    assert a * c == a * b + a * (c - b);
  }

  // ------------------------------------------------------------------ sorting, largest first

  function Insert(x: nat, s: seq<nat>): (r: seq<nat>)
    ensures |r| == |s| + 1
  {
    if s == [] || x >= s[0] then [x] + s else [s[0]] + Insert(x, s[1..])
  }

  function SortDown(s: seq<nat>): (r: seq<nat>)
    ensures |r| == |s|
  {
    if s == [] then [] else Insert(s[0], SortDown(s[1..]))
  }

  ghost predicate Descending(s: seq<nat>) {
    forall i, j :: 0 <= i < j < |s| ==> s[i] >= s[j]
  }

  lemma {:induction false} InsertBag(x: nat, s: seq<nat>)
    ensures multiset(Insert(x, s)) == multiset(s) + multiset{x}
  {
    if s == [] || x >= s[0] {
    } else {
      assert s == [s[0]] + s[1..];
      InsertBag(x, s[1..]);
    }
  }

  lemma {:induction false} InsertDescending(x: nat, s: seq<nat>)
    requires Descending(s)
    ensures Descending(Insert(x, s))
  {
    if s == [] || x >= s[0] {
    } else {
      InsertDescending(x, s[1..]);
      var r := Insert(x, s[1..]);
      InsertBag(x, s[1..]);
      forall j | 0 <= j < |r| ensures s[0] >= r[j] {
        assert r[j] in multiset(r);
        assert r[j] in s[1..] || r[j] == x;
      }
    }
  }

  /** Sorting keeps the members and orders them. */
  lemma {:induction false} SortDownSorts(s: seq<nat>)
    ensures multiset(SortDown(s)) == multiset(s) && Descending(SortDown(s))
  {
    if s != [] {
      assert s == [s[0]] + s[1..];
      SortDownSorts(s[1..]);
      InsertBag(s[0], SortDown(s[1..]));
      InsertDescending(s[0], SortDown(s[1..]));
    }
  }

  /** The same members, each as often. */
  ghost predicate SameBag<X>(a: seq<X>, b: seq<X>) {
    multiset(a) == multiset(b)
  }

  /** `s` without its member at `k`. */
  function Without<X>(s: seq<X>, k: nat): (r: seq<X>)
    requires k < |s|
    ensures |r| == |s| - 1
    ensures forall i {:trigger r[i]} :: 0 <= i < |r| ==> r[i] == s[if i < k then i else i + 1]
  {
    s[..k] + s[k + 1..]
  }

  lemma BagWithout<X>(b: seq<X>, k: nat)
    requires k < |b|
    ensures multiset(b) == multiset(Without(b, k)) + multiset{b[k]}
  {
    assert b == b[..k] + [b[k]] + b[k + 1..];
  }

  lemma WithoutFirst<X>(a: seq<X>)
    requires a != []
    ensures Without(a, 0) == a[1..]
  {
  }

  lemma BagCancel<X>(a: multiset<X>, b: multiset<X>, x: X)
    requires a + multiset{x} == b + multiset{x}
    ensures a == b
  {
    assert a == (a + multiset{x}) - multiset{x};
    assert b == (b + multiset{x}) - multiset{x};
  }

  /** Taking a common member out of two lists with the same members. */
  lemma Behead<X>(a: seq<X>, b: seq<X>, k: nat)
    requires SameBag(a, b) && a != [] && k < |b| && b[k] == a[0]
    ensures SameBag(a[1..], Without(b, k))
  {
    BagWithout(a, 0);
    BagWithout(b, k);
    WithoutFirst(a);
    hide Without;
    BagCancel(multiset(a[1..]), multiset(Without(b, k)), a[0]);
  }

  lemma SameLength<X>(a: seq<X>, b: seq<X>)
    requires SameBag(a, b)
    ensures |a| == |b| && (a != [] ==> a[0] in multiset(b))
  {
    assert |a| == |multiset(a)| == |multiset(b)| == |b|;
    if a != [] { assert a[0] in multiset(a); }
  }

  lemma HeadIsLargest(s: seq<nat>, x: nat)
    requires Descending(s) && x in multiset(s)
    ensures s != [] && x <= s[0]
  {
  }

  lemma SameHead(s: seq<nat>, t: seq<nat>)
    requires Descending(s) && Descending(t) && SameBag(s, t) && s != []
    ensures t != [] && s[0] == t[0]
  {
    SameLength(s, t);
    SameLength(t, s);
    HeadIsLargest(t, s[0]);
    HeadIsLargest(s, t[0]);
  }

  lemma DescendingTail(s: seq<nat>)
    requires Descending(s) && s != []
    ensures Descending(s[1..]) && s == [s[0]] + s[1..]
  {
    var t := s[1..];
    forall i, j | 0 <= i < j < |t| ensures t[i] >= t[j] {
      assert t[i] == s[i + 1] && t[j] == s[j + 1];
    }
  }

  /** Only one order is descending, so any correct sort gives the same list. */
  lemma {:induction false} SortedOnce(s: seq<nat>, t: seq<nat>)
    requires Descending(s) && Descending(t) && SameBag(s, t)
    ensures s == t
    decreases |s|
  {
    hide SameBag, Descending, Without;
    SameLength(s, t);
    if s != [] {
      SameHead(s, t);
      Behead(s, t, 0);
      WithoutFirst(t);
      DescendingTail(s);
      DescendingTail(t);
      SortedOnce(s[1..], t[1..]);
    }
  }

  lemma SortForgetsOrder(s: seq<nat>, t: seq<nat>)
    requires SameBag(s, t)
    ensures SortDown(s) == SortDown(t)
  {
    SortDownSorts(s);
    SortDownSorts(t);
    SortedOnce(SortDown(s), SortDown(t));
  }

  // ------------------------------------------------------------------ features

  /** The largest fingerprint while the bytes slide in one by one. */
  ghost function MaxFp(s: seq<byte>, w: nat): nat {
    if s == [] then 0
    else var m, fp := MaxFp(s[..|s| - 1], w), Fingerprint(LastBytes(s, w)); if fp > m then fp else m
  }

  /** `s` super-features of `g` features each, from `f` sub-chunks, with a window of `w` bytes. */
  datatype Shape = Shape(s: nat, f: nat, g: nat, w: nat)

  ghost predicate Sound(p: Shape) {
    1 <= p.s && 1 <= p.f < TWO_32 && At(p.g, p.s) <= p.f && p.g <= p.f && 1 <= p.w <= UINT32_MAX
  }

  ghost function Piece(data: seq<byte>, size: nat, f: nat, i: nat): seq<byte>
    requires f >= 1 && PieceEnd(size, f, i) <= |data|
  {
    Part(data, PieceStart(size, f, i), PieceEnd(size, f, i))
  }

  function Part<X>(s: seq<X>, i: nat, j: nat): seq<X>
    requires i <= j <= |s|
  {
    s[i..j]
  }

  lemma PartIs<X>(s: seq<X>, i: nat, j: nat, t: seq<X>)
    requires i <= j <= |s| && |t| == j - i && forall k :: 0 <= k < |t| ==> t[k] == s[i + k]
    ensures t == Part(s, i, j)
  {
  }

  /** Enough of `data` to read the sub-chunks. */
  ghost predicate Readable(data: seq<byte>, size: nat, f: nat)
    requires f >= 1
  {
    forall i :: 0 <= i < f ==> PieceEnd(size, f, i) <= |data|
  }

  lemma CoveredIsReadable(data: seq<byte>, size: nat, f: nat)
    requires f >= 1 && Covered(size, f) && size <= |data|
    ensures Readable(data, size, f)
  {
    hide At;
    var sub := SubChunkSize(size, f);
    SubChunkSizeMeans(size, f);
    hide SubChunkSize;
    forall i | 0 <= i < f ensures PieceEnd(size, f, i) <= |data| {
      AtMonotone(i, f - 1, sub);
      if size == 0 { AtMonotone(i, f, sub); }
    }
  }

  /** The features of the first `n` sub-chunks. */
  ghost function Features(data: seq<byte>, size: nat, f: nat, w: nat, n: nat): (r: seq<nat>)
    requires f >= 1 && n <= f && Readable(data, size, f)
    ensures |r| == n
  {
    if n == 0 then [] else Features(data, size, f, w, n - 1) + [MaxFp(Piece(data, size, f, n - 1), w)]
  }

  /** Members of group `j` when groups of `s` are taken from the front. */
  function Slice<X>(x: seq<X>, s: nat, j: nat): (r: seq<X>)
    ensures At(j + 1, s) <= |x| ==> |r| == s && r == x[At(j, s)..At(j + 1, s)]
  {
    if At(j + 1, s) <= |x| then x[At(j, s)..At(j + 1, s)] else []
  }

  /** The sorted features of group `j`. */
  function Group(features: seq<nat>, s: nat, j: nat): (r: seq<nat>)
    requires At(j + 1, s) <= |features|
    ensures |r| == s
  {
    SortDown(Slice(features, s, j))
  }

  /** Member `i` of each of the first `g` groups, as bytes in memory. */
  function Across(features: seq<nat>, s: nat, g: nat, i: nat): (r: seq<byte>)
    requires At(g, s) <= |features| && i < s
    ensures |r| == 8 * g
  {
    if g == 0 then [] else Across(features, s, g - 1, i) + ToBytes(Group(features, s, g - 1)[i], 8)
  }

  ghost function SuperFeature(features: seq<nat>, p: Shape, i: nat): nat
    requires Sound(p) && |features| == p.f && i < p.s
  {
    XxHash64.XXH64(Across(features, p.s, p.g, i), 0)
  }

  /** What ExtractFeature is to compute. */
  ghost function SuperFeatures(data: seq<byte>, size: nat, p: Shape): seq<nat>
    requires Sound(p) && Readable(data, size, p.f)
  {
    seq(p.s, i requires 0 <= i < p.s => SuperFeature(Features(data, size, p.f, p.w, p.f), p, i))
  }

  // ------------------------------------------------------------------ the order inside a group

  /** `x` and `y` have the same members in each of the first `g` groups. */
  ghost predicate SameGroups<X>(x: seq<X>, y: seq<X>, s: nat, g: nat) {
    forall j :: 0 <= j < g ==> SameBag(Slice(x, s, j), Slice(y, s, j))
  }

  lemma {:induction false} SameGroupsSameBytes(x: seq<nat>, y: seq<nat>, s: nat, g: nat, i: nat)
    requires At(g, s) <= |x| && At(g, s) <= |y| && i < s && SameGroups(x, y, s, g)
    ensures Across(x, s, g, i) == Across(y, s, g, i)
  {
    hide Slice, ToBytes;
    if g > 0 {
      SameGroupsSameBytes(x, y, s, g - 1, i);
      SortForgetsOrder(Slice(x, s, g - 1), Slice(y, s, g - 1));
    }
  }

  ghost function MaxFps(pieces: seq<seq<byte>>, w: nat): (r: seq<nat>)
    ensures |r| == |pieces|
  {
    if pieces == [] then [] else MaxFps(pieces[..|pieces| - 1], w) + [MaxFp(pieces[|pieces| - 1], w)]
  }

  lemma {:induction false} MaxFpsAt(pieces: seq<seq<byte>>, w: nat, k: nat)
    requires k < |pieces|
    ensures MaxFps(pieces, w)[k] == MaxFp(pieces[k], w)
    decreases |pieces|
  {
    if k < |pieces| - 1 { MaxFpsAt(pieces[..|pieces| - 1], w, k); }
  }

  lemma SkipOne<X>(all: seq<X>, some: seq<X>, k: nat)
    requires k < |all| && |some| == |all| - 1
    requires forall i {:trigger some[i]} :: 0 <= i < |some| ==> some[i] == all[if i < k then i else i + 1]
    ensures some == Without(all, k)
  {
    hide Without;
  }

  lemma MaxFpsSkip(b: seq<seq<byte>>, w: nat, k: nat)
    requires k < |b|
    ensures MaxFps(Without(b, k), w) == Without(MaxFps(b, w), k)
  {
    var rest := Without(b, k);
    hide MaxFp, MaxFps, Without;
    forall i | 0 <= i < |rest| ensures MaxFps(rest, w)[i] == MaxFps(b, w)[if i < k then i else i + 1] {
      MaxFpsAt(rest, w, i);
      MaxFpsAt(b, w, if i < k then i else i + 1);
    }
    SkipOne(MaxFps(b, w), MaxFps(rest, w), k);
  }

  lemma MaxFpsWithout(b: seq<seq<byte>>, w: nat, k: nat)
    requires k < |b|
    ensures multiset(MaxFps(b, w)) == multiset(MaxFps(Without(b, k), w)) + multiset{MaxFp(b[k], w)}
  {
    hide MaxFp, MaxFps, Without;
    MaxFpsSkip(b, w, k);
    MaxFpsAt(b, w, k);
    BagWithout(MaxFps(b, w), k);
  }

  /** The features of permuted sub-chunks are permuted. */
  lemma {:induction false} MapForgetsOrder(a: seq<seq<byte>>, b: seq<seq<byte>>, w: nat)
    requires SameBag(a, b)
    ensures SameBag(MaxFps(a, w), MaxFps(b, w))
    decreases |a|
  {
    hide SameBag, MaxFp, MaxFps, Without;
    SameLength(a, b);
    if a != [] {
      var k := FindIn(b, a[0]);
      Behead(a, b, k);
      MapForgetsOrder(a[1..], Without(b, k), w);
      MaxFpsTogether(a, b, w, k);
    } else {
      MaxFpsOfNothing(w);
    }
  }

  lemma MaxFpsOfNothing(w: nat)
    ensures SameBag(MaxFps([], w), MaxFps([], w))
  {
  }

  lemma MaxFpsTogether(a: seq<seq<byte>>, b: seq<seq<byte>>, w: nat, k: nat)
    requires a != [] && k < |b| && b[k] == a[0] && SameBag(MaxFps(a[1..], w), MaxFps(Without(b, k), w))
    ensures SameBag(MaxFps(a, w), MaxFps(b, w))
  {
    hide MaxFps, MaxFp, Without;
    MaxFpsWithout(a, w, 0);
    MaxFpsWithout(b, w, k);
    WithoutFirst(a);
  }

  lemma FindIn<X>(b: seq<X>, x: X) returns (k: nat)
    requires x in multiset(b)
    ensures k < |b| && b[k] == x
  {
    k :| 0 <= k < |b| && b[k] == x;
  }

  /** Every sub-chunk of a chunk cut evenly. */
  lemma {:induction false} FlattenAt(pieces: seq<seq<byte>>, l: nat, i: nat)
    requires i < |pieces| && forall k :: 0 <= k < |pieces| ==> |pieces[k]| == l
    ensures |Flatten(pieces)| == At(|pieces|, l) && At(i + 1, l) <= At(|pieces|, l)
    ensures Flatten(pieces)[At(i, l)..At(i + 1, l)] == pieces[i]
  {
    FlattenSize(pieces, l);
    AtMonotone(i + 1, |pieces|, l);
    FlattenAround(pieces, i);
    FlattenSize(pieces[..i], l);
  }

  lemma {:induction false} FlattenSize(pieces: seq<seq<byte>>, l: nat)
    requires forall k :: 0 <= k < |pieces| ==> |pieces[k]| == l
    ensures |Flatten(pieces)| == At(|pieces|, l)
  {
    if pieces != [] { FlattenSize(pieces[1..], l); }
  }

  lemma EvenSize(f: nat, l: nat)
    requires f >= 1
    ensures SubChunkSize(At(f, l), f) == l && At(f, l) % f == 0
  {
    AtIsProduct(f, l);
    ModUnique(f * l, l, f, 0);
    assert (f * l) / f == l;
  }

  /** The features of a chunk cut evenly into `pieces`. */
  lemma {:induction false} EvenFeatures(pieces: seq<seq<byte>>, l: nat, w: nat, n: nat)
    requires 1 <= |pieces| && n <= |pieces| && forall k :: 0 <= k < |pieces| ==> |pieces[k]| == l
    requires Readable(Flatten(pieces), At(|pieces|, l), |pieces|)
    ensures Features(Flatten(pieces), At(|pieces|, l), |pieces|, w, n) == MaxFps(pieces[..n], w)
  {
    hide MaxFp, SubChunkSize, At, Flatten;
    if n > 0 {
      var f := |pieces|;
      EvenFeatures(pieces, l, w, n - 1);
      EvenSize(f, l);
      AtMonotone(n, f, l);
      AtStep(n - 1, l);
      FlattenAt(pieces, l, n - 1);
      assert Piece(Flatten(pieces), At(f, l), f, n - 1) == pieces[n - 1];
      assert pieces[..n][..n - 1] == pieces[..n - 1];
    }
  }

  lemma AtStep(n: nat, k: nat)
    ensures At(n + 1, k) == At(n, k) + k
  {
  }

  lemma {:induction false} MaxFpsSlice(pieces: seq<seq<byte>>, w: nat, s: nat, j: nat)
    requires At(j + 1, s) <= |pieces|
    ensures MaxFps(Slice(pieces, s, j), w) == Slice(MaxFps(pieces, w), s, j)
  {
    hide MaxFp, MaxFps, At;
    AtStep(j, s);
    var part := Slice(pieces, s, j);
    forall k | 0 <= k < s ensures MaxFps(part, w)[k] == Slice(MaxFps(pieces, w), s, j)[k] {
      MaxFpsAt(part, w, k);
      MaxFpsAt(pieces, w, At(j, s) + k);
    }
  }

  /** When the size is a multiple of the number of sub-chunks, permuting the sub-chunks inside any of the
      groups leaves every super-feature as it is. */
  lemma OrderInGroupsForgotten(a: seq<seq<byte>>, b: seq<seq<byte>>, l: nat, p: Shape)
    requires Sound(p) && |a| == p.f == |b|
    requires forall k :: 0 <= k < p.f ==> |a[k]| == l == |b[k]|
    requires SameGroups(a, b, p.s, p.g)
    ensures |Flatten(a)| == |Flatten(b)| == At(p.f, l)
    ensures Readable(Flatten(a), At(p.f, l), p.f) && Readable(Flatten(b), At(p.f, l), p.f)
    ensures SuperFeatures(Flatten(a), At(p.f, l), p) == SuperFeatures(Flatten(b), At(p.f, l), p)
  {
    hide MaxFp, MaxFps, Flatten, Features, Across, XxHash64.XXH64, Readable, At;
    FlattenSize(a, l);
    FlattenSize(b, l);
    EvenSize(p.f, l);
    CoveredSizes(At(p.f, l), p.f);
    CoveredIsReadable(Flatten(a), At(p.f, l), p.f);
    CoveredIsReadable(Flatten(b), At(p.f, l), p.f);
    EvenFeatures(a, l, p.w, p.f);
    EvenFeatures(b, l, p.w, p.f);
    assert a[..p.f] == a && b[..p.f] == b;
    GroupsOfFeatures(a, b, p);
    forall i | 0 <= i < p.s
      ensures SuperFeature(MaxFps(a, p.w), p, i) == SuperFeature(MaxFps(b, p.w), p, i)
    {
      SameGroupsSameBytes(MaxFps(a, p.w), MaxFps(b, p.w), p.s, p.g, i);
    }
  }

  lemma GroupsOfFeatures(a: seq<seq<byte>>, b: seq<seq<byte>>, p: Shape)
    requires Sound(p) && |a| == p.f == |b| && SameGroups(a, b, p.s, p.g)
    ensures SameGroups(MaxFps(a, p.w), MaxFps(b, p.w), p.s, p.g)
  {
    hide MaxFp, MaxFps, At, Slice;
    forall j | 0 <= j < p.g ensures SameBag(Slice(MaxFps(a, p.w), p.s, j), Slice(MaxFps(b, p.w), p.s, j)) {
      AtMonotone(j + 1, p.g, p.s);
      MaxFpsSlice(a, p.w, p.s, j);
      MaxFpsSlice(b, p.w, p.s, j);
      MapForgetsOrder(Slice(a, p.s, j), Slice(b, p.s, j), p.w);
    }
  }

  // ------------------------------------------------------------------ the loops

  function Tail(s: seq<nat>, k: nat): seq<nat> {
    if k <= |s| then s[k..] else []
  }

  /** The groups being filled: full ones, the current one, empty ones. */
  ghost predicate Filled(groups: seq<seq<nat>>, done: seq<nat>, p: Shape, cur: nat) {
    && |groups| == p.f && At(cur, p.s) <= |done| < At(cur, p.s) + p.s
    && (forall j :: 0 <= j < cur && j < p.f ==> groups[j] == Slice(done, p.s, j))
    && (cur < p.f ==> groups[cur] == Tail(done, At(cur, p.s)))
    && (forall j :: cur < j < p.f ==> groups[j] == [])
  }

  lemma PushFeature(groups: seq<seq<nat>>, done: seq<nat>, p: Shape, cur: nat, x: nat)
    requires Sound(p) && Filled(groups, done, p, cur) && |done| < p.f
    ensures cur < p.f
    ensures var pushed := groups[cur := groups[cur] + [x]];
      Filled(pushed, done + [x], p, if |pushed[cur]| == p.s then cur + 1 else cur)
  {
    AtLeast(cur, p.s);
    AtStep(cur, p.s);
    hide At;
    forall j | 0 <= j < cur ensures Slice(done + [x], p.s, j) == Slice(done, p.s, j) {
      AtMonotone(j + 1, cur, p.s);
    }
    var pushed := groups[cur := groups[cur] + [x]];
    if |pushed[cur]| == p.s { assert pushed[cur] == Slice(done + [x], p.s, cur); }
  }

  lemma GroupsFull(groups: seq<seq<nat>>, done: seq<nat>, p: Shape, cur: nat, j: nat)
    requires Sound(p) && Filled(groups, done, p, cur) && |done| == p.f && j < p.g
    ensures j < p.f && groups[j] == Slice(done, p.s, j) && At(j + 1, p.s) <= |done| && |groups[j]| == p.s
  {
    AtMonotone(j + 1, p.g, p.s);
    AtLeast(j + 1, p.s);
    AtStep(j, p.s);
    AtStep(cur, p.s);
    if cur <= j { AtMonotone(cur, j, p.s); }
  }

  lemma MaxFpOfNothing(w: nat)
    ensures MaxFp([], w) == 0
  {
  }

  function Snoc<X>(s: seq<X>, x: X): (r: seq<X>)
    ensures |r| == |s| + 1 && r[|s|] == x && forall k :: 0 <= k < |s| ==> r[k] == s[k]
  {
    s + [x]
  }

  lemma MaxFpAppend(s: seq<byte>, b: byte, w: nat)
    ensures var m, fp := MaxFp(s, w), Fingerprint(LastBytes(s + [b], w)); MaxFp(s + [b], w) == if fp > m then fp else m
  {
    hide Fingerprint, LastBytes;
    assert (s + [b])[..|s|] == s;
  }

  lemma RangeIs(s: seq<nat>, a: nat, b: nat)
    requires a <= b && |s| == b - a && forall k :: 0 <= k < b - a ==> s[k] == a + k
    ensures s == Range(a, b)
  {
  }

  class FinesseUtil {
    const superFeaturePerChunk: nat
    const featurePerChunk: nat
    const featurePerSuperFeature: nat
    const rabinUtil: RabinFpUtil

    ghost const shape: Shape := Shape(superFeaturePerChunk, featurePerChunk, featurePerSuperFeature, rabinUtil.windowSize)

    ghost predicate Valid()
      reads this, rabinUtil, rabinUtil.T, rabinUtil.U
    {
      Sound(shape) && rabinUtil.Valid()
    }

    constructor (superFeaturePerChunk: nat, featurePerChunk: nat, featurePerSuperFeature: nat, window: nat)
      requires Sound(Shape(superFeaturePerChunk, featurePerChunk, featurePerSuperFeature, window))
      ensures Valid() && fresh(rabinUtil) && fresh(rabinUtil.T) && fresh(rabinUtil.U)
      ensures shape == Shape(superFeaturePerChunk, featurePerChunk, featurePerSuperFeature, window)
    {
      hide RabinFpUtil.Valid;
      this.superFeaturePerChunk := superFeaturePerChunk;
      this.featurePerChunk := featurePerChunk;
      this.featurePerSuperFeature := featurePerSuperFeature;
      var util := new RabinFpUtil(window);
      rabinUtil := util;
    }

    /** Lines 67-71 */
    method SlideMax(ctx: RabinCtx, curData: byte, before: nat, ghost seen: seq<byte>) returns (maxRabinFp: nat)
      requires Valid() && ctx.Valid(rabinUtil.windowSize) && ctx.history == seen
      requires before == MaxFp(seen, rabinUtil.windowSize) < TWO_64
      modifies ctx, ctx.circBuf
      ensures Valid() && ctx.Valid(rabinUtil.windowSize) && ctx.circBuf == old(ctx.circBuf)
      ensures ctx.history == Snoc(seen, curData)
      ensures maxRabinFp == MaxFp(Snoc(seen, curData), rabinUtil.windowSize) < TWO_64
    {
      Pow2Values();
      hide Fingerprint, LastBytes, TableT, TableU, Pow2, RabinFpUtil.Valid, RabinCtx.Valid, Unrolled, MaxFp;
      MaxFpAppend(seen, curData, rabinUtil.windowSize);
      maxRabinFp := before;
      var tmpRabinFp := rabinUtil.SlideOneByte(ctx, curData);
      if tmpRabinFp > maxRabinFp {
        maxRabinFp := tmpRabinFp;
      }
    }

    /** The inner loop, lines 65-77, and the reset after it: `read` bytes from `start` on. */
    method MaxOfPiece(ctx: RabinCtx, data: array<byte>, start: nat, size: nat, sub: nat, before: nat)
      returns (maxRabinFp: nat, curOffset: nat, ghost read: seq<nat>)
      requires Valid() && ctx.Valid(rabinUtil.windowSize) && ctx.history == [] && data != ctx.circBuf
      requires start + PieceLength(before, size, sub) <= data.Length
      modifies ctx, ctx.circBuf
      ensures Valid() && ctx.Valid(rabinUtil.windowSize) && ctx.history == [] && ctx.circBuf == old(ctx.circBuf)
      ensures curOffset == before + PieceLength(before, size, sub)
      ensures maxRabinFp == MaxFp(Part(data[..], start, start + PieceLength(before, size, sub)), rabinUtil.windowSize)
      ensures maxRabinFp < TWO_64 && read == Range(start, start + PieceLength(before, size, sub))
    {
      hide Fingerprint, LastBytes, TableT, TableU, Pow2, Range, RabinFpUtil.Valid, RabinCtx.Valid, Part, Unrolled, Snoc;
      MaxFpOfNothing(rabinUtil.windowSize);
      hide MaxFp;
      curOffset := before;
      maxRabinFp := 0;
      read := [];
      ghost var seen := [];
      var j := 0;
      while j < sub
        invariant j <= PieceLength(before, size, sub) && curOffset == before + j
        invariant j > 0 ==> curOffset != size
        invariant |seen| == j && (forall k :: 0 <= k < j ==> seen[k] == data[start + k])
        invariant |read| == j && (forall k :: 0 <= k < j ==> read[k] == start + k)
        invariant Valid() && ctx.Valid(rabinUtil.windowSize) && ctx.circBuf == old(ctx.circBuf)
        invariant ctx.history == seen
        invariant maxRabinFp == MaxFp(seen, rabinUtil.windowSize) < TWO_64
      {
        var curData := data[start + j];
        read := Snoc(read, start + j);
        maxRabinFp := SlideMax(ctx, curData, maxRabinFp, seen);
        seen := Snoc(seen, curData);
        curOffset := curOffset + 1;
        j := j + 1;
        if curOffset == size {
          break;
        }
      }
      rabinUtil.ResetCtx(ctx);
      PartIs(data[..], start, start + j, seen);
      RangeIs(read, start, start + j);
    }

    /** One round of the outer loop, up to the push. */
    method OnePiece(ctx: RabinCtx, data: array<byte>, size: nat, i: nat, before: nat)
      returns (maxRabinFp: nat, curOffset: nat, ghost read: seq<nat>)
      requires Valid() && ctx.Valid(rabinUtil.windowSize) && ctx.history == [] && data != ctx.circBuf
      requires Readable(data[..], size, featurePerChunk) && i < featurePerChunk
      requires OffsetAt(size, featurePerChunk, i, before)
      modifies ctx, ctx.circBuf
      ensures Valid() && ctx.Valid(rabinUtil.windowSize) && ctx.history == [] && ctx.circBuf == old(ctx.circBuf)
      ensures OffsetAt(size, featurePerChunk, i + 1, curOffset)
      ensures maxRabinFp == MaxFp(Piece(data[..], size, featurePerChunk, i), rabinUtil.windowSize) < TWO_64
      ensures read == Range(PieceStart(size, featurePerChunk, i), PieceEnd(size, featurePerChunk, i))
    {
      hide RabinFpUtil.Valid, RabinCtx.Valid, Unrolled, MaxFp, SubChunkSize, At;
      var subChunkSize := SubChunkSize(size, featurePerChunk);
      AtIsProduct(i, subChunkSize);
      AtStep(i, subChunkSize);
      var start := i * subChunkSize;
      assert PieceEnd(size, featurePerChunk, i) == start + PieceLength(before, size, subChunkSize);
      assert Piece(data[..], size, featurePerChunk, i) == Part(data[..], start, start + PieceLength(before, size, subChunkSize));
      maxRabinFp, curOffset, read := MaxOfPiece(ctx, data, start, size, subChunkSize, before);
    }

    /** Lines 78-81. */
    method Push(groups: seq<seq<nat>>, before: nat, x: nat, ghost done: seq<nat>) returns (pushed: seq<seq<nat>>, curGroupId: nat)
      requires Sound(shape) && Filled(groups, done, shape, before) && |done| < featurePerChunk && AllWords(groups) && x < TWO_64
      ensures Filled(pushed, done + [x], shape, curGroupId) && AllWords(pushed)
    {
      hide At, Slice;
      PushFeature(groups, done, shape, before, x);
      curGroupId := before;
      pushed := groups[curGroupId := groups[curGroupId] + [x]];
      if |pushed[curGroupId]| == superFeaturePerChunk {
        curGroupId := curGroupId + 1;
      }
    }

    /** What the outer loop has done before round `i`. */
    ghost predicate Collected(data: seq<byte>, size: nat, i: nat, groups: seq<seq<nat>>, cur: nat, curOffset: nat, positions: seq<nat>)
      requires Sound(shape) && i <= featurePerChunk && Readable(data, size, featurePerChunk)
    {
      && OffsetAt(size, featurePerChunk, i, curOffset)
      && Filled(groups, Features(data, size, featurePerChunk, rabinUtil.windowSize, i), shape, cur)
      && AllWords(groups) && positions == Positions(size, featurePerChunk, i)
    }

    /** Lines 64-82. */
    method Round(ctx: RabinCtx, data: array<byte>, size: nat, i: nat, groups: seq<seq<nat>>, cur: nat, before: nat,
                 ghost positions: seq<nat>)
      returns (pushed: seq<seq<nat>>, curGroupId: nat, curOffset: nat, ghost positions': seq<nat>)
      requires Valid() && ctx.Valid(rabinUtil.windowSize) && ctx.history == [] && data != ctx.circBuf
      requires i < featurePerChunk && Readable(data[..], size, featurePerChunk)
      requires Collected(data[..], size, i, groups, cur, before, positions)
      modifies ctx, ctx.circBuf
      ensures Valid() && ctx.Valid(rabinUtil.windowSize) && ctx.history == [] && ctx.circBuf == old(ctx.circBuf)
      ensures data[..] == old(data[..]) && Collected(data[..], size, i + 1, pushed, curGroupId, curOffset, positions')
    {
      hide RabinFpUtil.Valid, RabinCtx.Valid, Unrolled, MaxFp, SubChunkSize, Filled, Readable, Features, Positions, Piece, PieceStart, PieceEnd, OffsetAt, AllWords, Range, At, Tail, LastBytes;
      ghost var bytes := data[..];
      FeatureStep(bytes, size, shape, i);
      var maxRabinFp: nat;
      ghost var read;
      maxRabinFp, curOffset, read := OnePiece(ctx, data, size, i, before);
      positions' := positions + read;
      pushed, curGroupId := Push(groups, cur, maxRabinFp, Features(bytes, size, featurePerChunk, rabinUtil.windowSize, i));
    }

    /** Lines 48-84: the features in their groups, and the positions read. */
    method CollectFeatures(ctx: RabinCtx, data: array<byte>, size: nat)
      returns (groupFeatures: seq<seq<nat>>, ghost cur: nat, ghost positions: seq<nat>)
      requires Valid() && ctx.Valid(rabinUtil.windowSize) && data != ctx.circBuf
      requires Readable(data[..], size, featurePerChunk) && size + featurePerChunk < TWO_32
      modifies ctx, ctx.circBuf
      ensures Valid() && ctx.Valid(rabinUtil.windowSize) && ctx.history == [] && ctx.circBuf == old(ctx.circBuf)
      ensures data[..] == old(data[..])
      ensures exists offset: nat :: Collected(data[..], size, featurePerChunk, groupFeatures, cur, offset, positions)
    {
      hide RabinFpUtil.Valid, RabinCtx.Valid, Unrolled, MaxFp, SubChunkSize, Filled, Readable, Features, Positions, Piece, OffsetAt, AllWords, At, Tail, LastBytes;
      ghost var bytes := data[..];
      rabinUtil.ResetCtx(ctx);
      groupFeatures := EmptyGroups(featurePerChunk);
      var curOffset, curGroupId: nat, i := 0, 0, 0;
      positions := [];
      NothingFilled(groupFeatures, shape);
      OffsetStarts(size, featurePerChunk);
      NothingYet(bytes, size, shape);
      assert Collected(bytes, size, 0, groupFeatures, 0, 0, positions);
      hide Collected;
      while i < featurePerChunk
        invariant i <= featurePerChunk && Valid() && data[..] == bytes
        invariant ctx.Valid(rabinUtil.windowSize) && ctx.history == [] && ctx.circBuf == old(ctx.circBuf)
        invariant Collected(bytes, size, i, groupFeatures, curGroupId, curOffset, positions)
      {
        groupFeatures, curGroupId, curOffset, positions :=
          Round(ctx, data, size, i, groupFeatures, curGroupId, curOffset, positions);
        i := i + 1;
      }
      cur := curGroupId;
    }

    /** Lines 95-99.  The library's sort is taken to sort; what it returns is then SortDown. */
    method SortGroups(groupFeatures: seq<seq<nat>>) returns (r: seq<seq<nat>>)
      requires featurePerSuperFeature <= |groupFeatures|
      ensures |r| == |groupFeatures|
      ensures forall j :: 0 <= j < featurePerSuperFeature ==> r[j] == SortDown(groupFeatures[j])
    {
      r := groupFeatures;
      var i := 0;
      while i < featurePerSuperFeature
        invariant i <= featurePerSuperFeature && |r| == |groupFeatures|
        invariant forall j :: 0 <= j < i ==> r[j] == SortDown(groupFeatures[j])
        invariant forall j :: i <= j < |r| ==> r[j] == groupFeatures[j]
      {
        r := r[i := SortDown(r[i])];
        i := i + 1;
      }
    }

    /** Lines 113-115 and the bytes hashed in line 128: member `i` of each group. */
    method SuperFeatureBytes(sorted: seq<seq<nat>>, i: nat, ghost done: seq<nat>) returns (bytes: seq<byte>)
      requires SortedGroups(sorted, done, shape) && i < superFeaturePerChunk
      ensures bytes == Across(done, superFeaturePerChunk, featurePerSuperFeature, i)
    {
      hide ToBytes, At, Slice, SortDown;
      bytes := [];
      var j := 0;
      AcrossNothing(done, superFeaturePerChunk, i);
      while j < featurePerSuperFeature
        invariant j <= featurePerSuperFeature && At(j, superFeaturePerChunk) <= |done|
        invariant bytes == Across(done, superFeaturePerChunk, j, i)
      {
        AtMonotone(j + 1, featurePerSuperFeature, superFeaturePerChunk);
        AcrossStep(done, superFeaturePerChunk, j + 1, i);
        bytes := bytes + ToBytes(sorted[j][i], 8);
        j := j + 1;
      }
    }

    /** Lines 110-130. */
    method HashAcross(sorted: seq<seq<nat>>, features: array<nat>, ghost done: seq<nat>)
      requires Sound(shape) && |done| == featurePerChunk && SortedGroups(sorted, done, shape)
      requires features.Length >= superFeaturePerChunk
      modifies features
      ensures forall k :: 0 <= k < superFeaturePerChunk ==> features[k] == SuperFeature(done, shape, k)
    {
      hide At, Across, SortedGroups, XxHash64.XXH64;
      var i := 0;
      while i < superFeaturePerChunk
        invariant i <= superFeaturePerChunk
        invariant forall k :: 0 <= k < i ==> features[k] == SuperFeature(done, shape, k)
      {
        var bytes := SuperFeatureBytes(sorted, i, done);
        features[i] := HashBytes(bytes);
        i := i + 1;
      }
    }

    /** ExtractFeature: each super-feature is the hash across the sorted groups of the features of the
        sub-chunks. */
    method ExtractFeature(ctx: RabinCtx, data: array<byte>, size: nat, features: array<nat>)
      returns (ghost positions: seq<nat>)
      requires Valid() && ctx.Valid(rabinUtil.windowSize) && data != ctx.circBuf
      requires Readable(data[..], size, featurePerChunk) && size + featurePerChunk < TWO_32
      requires features.Length >= superFeaturePerChunk && features != rabinUtil.T && features != rabinUtil.U
      modifies ctx, ctx.circBuf, features
      ensures Valid() && ctx.Valid(rabinUtil.windowSize) && ctx.history == [] && ctx.circBuf == old(ctx.circBuf)
      ensures data[..] == old(data[..]) && features[..superFeaturePerChunk] == SuperFeatures(data[..], size, shape)
      ensures positions == Positions(size, featurePerChunk, featurePerChunk)
    {
      hide RabinFpUtil.Valid, RabinCtx.Valid, Unrolled, Filled, Piece, Readable, Features, SuperFeature, Positions, At, SortedGroups, OffsetAt;
      var groupFeatures: seq<seq<nat>>;
      ghost var cur;
      groupFeatures, cur, positions := CollectFeatures(ctx, data, size);
      ghost var done := Features(data[..], size, featurePerChunk, rabinUtil.windowSize, featurePerChunk);
      FilledLength(groupFeatures, done, shape, cur);
      var sorted := SortGroups(groupFeatures);
      AllGroupsFull(groupFeatures, sorted, done, shape, cur);
      HashAcross(sorted, features, done);
    }
  }

  method HashBytes(bytes: seq<byte>) returns (r: nat)
    requires |bytes| < TWO_64
    ensures r == XxHash64.XXH64(bytes, 0)
  {
    r := XxHash64.HashOnce(bytes, 0);
  }

  lemma AcrossNothing(done: seq<nat>, s: nat, i: nat)
    requires i < s
    ensures At(0, s) == 0 && Across(done, s, 0, i) == []
  {
  }

  lemma AcrossStep(done: seq<nat>, s: nat, j: nat, i: nat)
    requires j >= 1 && At(j, s) <= |done| && i < s
    ensures At(j - 1, s) <= |done|
    ensures Across(done, s, j, i) == Across(done, s, j - 1, i) + ToBytes(Group(done, s, j - 1)[i], 8)
  {
  }

  ghost predicate SortedGroups(sorted: seq<seq<nat>>, done: seq<nat>, p: Shape) {
    && p.g <= |sorted| && At(p.g, p.s) <= |done|
    && forall j :: 0 <= j < p.g ==> sorted[j] == SortDown(Slice(done, p.s, j))
  }

  lemma FilledLength(groups: seq<seq<nat>>, done: seq<nat>, p: Shape, cur: nat)
    requires Filled(groups, done, p, cur)
    ensures |groups| == p.f
  {
  }

  /** When the loops are done each of the groups hashed holds its features. */
  lemma AllGroupsFull(groups: seq<seq<nat>>, sorted: seq<seq<nat>>, done: seq<nat>, p: Shape, cur: nat)
    requires Sound(p) && Filled(groups, done, p, cur) && |done| == p.f && |sorted| == |groups|
    requires forall j :: 0 <= j < p.g ==> sorted[j] == SortDown(groups[j])
    ensures SortedGroups(sorted, done, p)
  {
    forall j | 0 <= j < p.g ensures groups[j] == Slice(done, p.s, j) {
      GroupsFull(groups, done, p, cur, j);
    }
  }

  /** Every member is a 64-bit word. */
  predicate AllWords(groups: seq<seq<nat>>) {
    forall j, k :: 0 <= j < |groups| && 0 <= k < |groups[j]| ==> groups[j][k] < TWO_64
  }

  /** The count of bytes read before sub-chunk `i`: where it starts, until the chunk is exhausted. */
  ghost predicate OffsetAt(size: nat, f: nat, i: nat, offset: nat)
    requires f >= 1
  {
    if PieceStart(size, f, i) < size then offset == PieceStart(size, f, i) else offset >= size
  }

  /** `group_features.resize(n)` */
  function EmptyGroups(n: nat): (groups: seq<seq<nat>>)
    ensures |groups| == n && forall j :: 0 <= j < n ==> groups[j] == []
  {
    seq(n, i => [])
  }

  lemma NothingYet(data: seq<byte>, size: nat, p: Shape)
    requires Sound(p) && Readable(data, size, p.f)
    ensures Features(data, size, p.f, p.w, 0) == [] && Positions(size, p.f, 0) == []
  {
  }

  lemma FeatureStep(data: seq<byte>, size: nat, p: Shape, i: nat)
    requires Sound(p) && Readable(data, size, p.f) && i < p.f
    ensures PieceEnd(size, p.f, i) <= |data| && PieceStart(size, p.f, i) <= PieceEnd(size, p.f, i)
    ensures Features(data, size, p.f, p.w, i + 1) == Features(data, size, p.f, p.w, i) + [MaxFp(Piece(data, size, p.f, i), p.w)]
    ensures Positions(size, p.f, i + 1) == Positions(size, p.f, i) + Range(PieceStart(size, p.f, i), PieceEnd(size, p.f, i))
  {
  }

  lemma OffsetStarts(size: nat, f: nat)
    requires f >= 1
    ensures OffsetAt(size, f, 0, 0)
  {
  }

  lemma NothingFilled(groups: seq<seq<nat>>, p: Shape)
    requires Sound(p) && |groups| == p.f && forall j :: 0 <= j < p.f ==> groups[j] == []
    ensures Filled(groups, [], p, 0) && AllWords(groups)
  {
  }
}

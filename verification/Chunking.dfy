/** Content-defined chunking of a buffer: what follows from a rule that says where the first chunk of a
    buffer ends, whatever the rule. */
module Chunking {
  import opened Words
  import opened Sequences

  /** A cut stays within the buffer and `max`, and reaches `min` unless it is the end of the buffer. */
  ghost predicate Cuts(cut: seq<byte> -> nat, min: nat, max: nat) {
    forall s :: s != [] ==> 1 <= cut(s) <= |s| && cut(s) <= max && (cut(s) < |s| ==> cut(s) >= min)
  }

  /** A cut before the end of the buffer is decided by the bytes of the chunk alone. */
  ghost predicate Online(cut: seq<byte> -> nat) {
    forall s, t :: CutInside(cut, s, t) ==> cut(t) == cut(s)
  }

  ghost predicate CutInside(cut: seq<byte> -> nat, s: seq<byte>, t: seq<byte>) {
    cut(s) < |s| && cut(s) < |t| && s[..cut(s)] == t[..cut(s)]
  }

  // ------------------------------------------------------------------ the cut both chunkers look for

  /** The chunk `s[..c]` ends here: at the maximum, at the end of the buffer, or because `ends` says so. */
  ghost predicate Stops(ends: seq<byte> -> bool, max: nat, s: seq<byte>, c: nat)
    requires c <= |s|
  {
    c == max || c == |s| || ends(s[..c])
  }

  /** The least length from `c` on at which the chunk ends. */
  ghost function CutFrom(ends: seq<byte> -> bool, max: nat, s: seq<byte>, c: nat): (r: nat)
    requires c <= |s|
    ensures c <= r <= |s| && Stops(ends, max, s, r)
    ensures forall k :: c <= k < r ==> !Stops(ends, max, s, k)
    decreases |s| - c
  {
    if Stops(ends, max, s, c) then c else CutFrom(ends, max, s, c + 1)
  }

  ghost function LeastCut(ends: seq<byte> -> bool, max: nat): seq<byte> -> nat {
    (s: seq<byte>) => if s == [] then 0 else CutFrom(ends, max, s, 1)
  }

  ghost predicate Reaches(ends: seq<byte> -> bool, min: nat) {
    forall x :: ends(x) ==> |x| >= min
  }

  lemma CutIs(ends: seq<byte> -> bool, max: nat, s: seq<byte>, r: nat)
    requires 1 <= r <= |s|
    ensures LeastCut(ends, max)(s) == r <==> Stops(ends, max, s, r) && forall k :: 1 <= k < r ==> !Stops(ends, max, s, k)
  {
    hide Stops;
    var c := CutFrom(ends, max, s, 1);
    assert Stops(ends, max, s, c);
    assert c == r || Stops(ends, max, s, r) || !Stops(ends, max, s, r);
  }

  /** A buffer of at most `min` bytes is one chunk. */
  lemma ShortBuffer(ends: seq<byte> -> bool, min: nat, max: nat, s: seq<byte>)
    requires Reaches(ends, min) && min <= max && 1 <= |s| <= min
    ensures LeastCut(ends, max)(s) == |s|
  {
    CutIs(ends, max, s, |s|);
  }

  lemma LeastCutBounds(ends: seq<byte> -> bool, min: nat, max: nat)
    requires Reaches(ends, min) && min <= max && max >= 1
    ensures Cuts(LeastCut(ends, max), min, max)
  {
    forall s | s != []
      ensures var c := LeastCut(ends, max)(s); 1 <= c <= |s| && c <= max && (c < |s| ==> c >= min)
    {
      if max < |s| { assert Stops(ends, max, s, max); }
    }
  }

  lemma LeastCutOnline(ends: seq<byte> -> bool, max: nat)
    ensures Online(LeastCut(ends, max))
  {
    forall s, t | CutInside(LeastCut(ends, max), s, t) ensures LeastCut(ends, max)(t) == LeastCut(ends, max)(s) {
      var c := LeastCut(ends, max)(s);
      if s != [] && t != [] {
        assert forall k :: 0 <= k <= c ==> s[..c][..k] == s[..k] && t[..c][..k] == t[..k];
        assert forall k :: 1 <= k < c ==> !Stops(ends, max, s, k);
        forall k | 1 <= k <= c ensures Stops(ends, max, t, k) == Stops(ends, max, s, k) { assert s[..k] == t[..k]; }
        CutIs(ends, max, t, c);
      }
    }
  }

  /** Every buffer is chunked without loss into chunks of at most `max` bytes, all but the last of at
      least `min`. */
  lemma ChunksOfBuffer(ends: seq<byte> -> bool, min: nat, max: nat, s: seq<byte>)
    requires Reaches(ends, min) && min <= max && max >= 1
    ensures var chunks := Chunks(LeastCut(ends, max), s);
      && Flatten(chunks) == s
      && forall k :: 0 <= k < |chunks| ==> 1 <= |chunks[k]| <= max && (k < |chunks| - 1 ==> |chunks[k]| >= min)
  {
    hide LeastCut, Chunks;
    var cut := LeastCut(ends, max);
    LeastCutBounds(ends, min, max);
    Lossless(cut, min, max, s);
    forall k | 0 <= k < |Chunks(cut, s)|
      ensures 1 <= |Chunks(cut, s)[k]| <= max && (k < |Chunks(cut, s)| - 1 ==> |Chunks(cut, s)[k]| >= min)
    {
      ChunkSizes(cut, min, max, s, k);
    }
  }

  lemma FirstChunk(ends: seq<byte> -> bool, min: nat, max: nat, s: seq<byte>)
    requires Reaches(ends, min) && min <= max && max >= 1 && s != []
    ensures var cut := LeastCut(ends, max); var c := cut(s);
      1 <= c <= |s| && c <= max && Chunks(cut, s) == [s[..c]] + Chunks(cut, s[c..])
  {
    hide LeastCut;
    LeastCutBounds(ends, min, max);
  }

  // ------------------------------------------------------------------ the chunks

  /** The chunks of a buffer, front to back. */
  ghost function Chunks(cut: seq<byte> -> nat, s: seq<byte>): (chunks: seq<seq<byte>>)
    decreases |s|
  {
    if s == [] || !(1 <= cut(s) <= |s|) then [] else [s[..cut(s)]] + Chunks(cut, s[cut(s)..])
  }

  lemma {:induction false} Lossless(cut: seq<byte> -> nat, min: nat, max: nat, s: seq<byte>)
    requires Cuts(cut, min, max)
    ensures Flatten(Chunks(cut, s)) == s
    decreases |s|
  {
    if s != [] {
      Lossless(cut, min, max, s[cut(s)..]);
      assert Chunks(cut, s)[1..] == Chunks(cut, s[cut(s)..]);
      assert s[..cut(s)] + s[cut(s)..] == s;
    }
  }

  lemma {:induction false} ChunkSizes(cut: seq<byte> -> nat, min: nat, max: nat, s: seq<byte>, k: nat)
    requires Cuts(cut, min, max) && k < |Chunks(cut, s)|
    ensures 1 <= |Chunks(cut, s)[k]| <= max
    ensures k < |Chunks(cut, s)| - 1 ==> |Chunks(cut, s)[k]| >= min
    decreases k
  {
    var rest := s[cut(s)..];
    if k > 0 {
      ChunkSizes(cut, min, max, rest, k - 1);
    } else if cut(s) == |s| {
      assert rest == [];
    }
  }

  /** The first chunk and the chunks of the rest, for the chunks and for their first `k`. */
  lemma Unfold(cut: seq<byte> -> nat, s: seq<byte>, k: nat)
    requires 1 <= k <= |Chunks(cut, s)|
    ensures 1 <= cut(s) <= |s|
    ensures Chunks(cut, s) == [s[..cut(s)]] + Chunks(cut, s[cut(s)..])
    ensures Chunks(cut, s)[..k] == [s[..cut(s)]] + Chunks(cut, s[cut(s)..])[..k - 1]
    ensures Chunks(cut, s)[k..] == Chunks(cut, s[cut(s)..])[k - 1..]
    ensures Flatten(Chunks(cut, s)[..k]) == s[..cut(s)] + Flatten(Chunks(cut, s[cut(s)..])[..k - 1])
  {
    var first, others := s[..cut(s)], Chunks(cut, s[cut(s)..])[..k - 1];
    assert Chunks(cut, s)[..k] == [first] + others;
    hide Chunks;
    assert ([first] + others)[1..] == others;
  }

  /** The chunks after the first `k` are the chunks of what the first `k` leave over. */
  lemma {:induction false} ChunksAfter(cut: seq<byte> -> nat, s: seq<byte>, k: nat)
    requires k <= |Chunks(cut, s)|
    ensures |Flatten(Chunks(cut, s)[..k])| <= |s|
    ensures Flatten(Chunks(cut, s)[..k]) == s[..|Flatten(Chunks(cut, s)[..k])|]
    ensures Chunks(cut, s)[k..] == Chunks(cut, s[|Flatten(Chunks(cut, s)[..k])|..])
    decreases k
  {
    if k > 0 {
      hide Chunks, Flatten;
      Unfold(cut, s, k);
      var c, rest := cut(s), s[cut(s)..];
      ChunksAfter(cut, rest, k - 1);
      var p := |Flatten(Chunks(cut, rest)[..k - 1])|;
      assert rest[p..] == s[c + p..];
      assert s[..c] + rest[..p] == s[..c + p];
    } else {
      assert s[0..] == s;
    }
  }

  /** Two buffers with a common suffix that both have a chunk boundary where it starts are chunked alike
      from there on. */
  lemma Resynchronises(cut: seq<byte> -> nat, a: seq<byte>, b: seq<byte>, suffix: seq<byte>, j: nat, k: nat)
    requires j <= |Chunks(cut, a + suffix)| && Flatten(Chunks(cut, a + suffix)[..j]) == a
    requires k <= |Chunks(cut, b + suffix)| && Flatten(Chunks(cut, b + suffix)[..k]) == b
    ensures Chunks(cut, a + suffix)[j..] == Chunks(cut, b + suffix)[k..] == Chunks(cut, suffix)
  {
    hide *;
    ChunksAfter(cut, a + suffix, j);
    ChunksAfter(cut, b + suffix, k);
    assert (a + suffix)[|a|..] == suffix && (b + suffix)[|b|..] == suffix;
  }

  /** The chunks that end within a common prefix, at its end at the latest, are the same in both buffers,
      as long as the first buffer goes on behind them. */
  lemma {:induction false} PrefixStays(cut: seq<byte> -> nat, min: nat, max: nat, s: seq<byte>, t: seq<byte>, p: nat, k: nat)
    requires Cuts(cut, min, max) && Online(cut)
    requires p <= |s| && p <= |t| && s[..p] == t[..p]
    requires k <= |Chunks(cut, s)| && |Flatten(Chunks(cut, s)[..k])| <= p && |Flatten(Chunks(cut, s)[..k])| < |s|
    ensures k <= |Chunks(cut, t)| && Chunks(cut, t)[..k] == Chunks(cut, s)[..k]
    decreases k
  {
    hide *;
    if k == 0 {
    } else {
      Unfold(cut, s, k);
      var c := cut(s);
      SamePrefix(s, t, p, c);
      SameFirst(cut, min, max, s, t);
      PrefixStays(cut, min, max, s[c..], t[c..], p - c, k - 1);
      Take(t[..c], Chunks(cut, t[c..]), k);
    }
  }

  lemma SamePrefix(s: seq<byte>, t: seq<byte>, p: nat, c: nat)
    requires c <= p <= |s| && p <= |t| && s[..p] == t[..p]
    ensures s[c..][..p - c] == t[c..][..p - c] && s[..c] == t[..c]
  {
    assert s[..c] == s[..p][..c] && t[..c] == t[..p][..c];
    assert s[c..][..p - c] == s[..p][c..] && t[c..][..p - c] == t[..p][c..];
  }

  lemma Take(first: seq<byte>, others: seq<seq<byte>>, k: nat)
    requires 1 <= k <= |others| + 1
    ensures ([first] + others)[..k] == [first] + others[..k - 1]
  {
  }

  lemma OnlineCut(cut: seq<byte> -> nat, s: seq<byte>, t: seq<byte>)
    requires Online(cut) && cut(s) < |s| && cut(s) < |t| && s[..cut(s)] == t[..cut(s)]
    ensures cut(t) == cut(s)
  {
    assert CutInside(cut, s, t);
  }

  /** A first chunk that ends inside `s` and starts `t` too is the first chunk of `t`, even when it is all
      of `t`: an earlier cut of `t` would be one of `s`. */
  lemma SameFirst(cut: seq<byte> -> nat, min: nat, max: nat, s: seq<byte>, t: seq<byte>)
    requires Cuts(cut, min, max) && Online(cut)
    requires 1 <= cut(s) < |s| && cut(s) <= |t| && s[..cut(s)] == t[..cut(s)]
    ensures cut(t) == cut(s)
    ensures Chunks(cut, t) == [t[..cut(s)]] + Chunks(cut, t[cut(s)..])
  {
    FirstOf(cut, min, max, t);
    hide *;
    if cut(s) < |t| {
      OnlineCut(cut, s, t);
    } else if cut(t) < |t| {
      SamePrefix(s, t, cut(s), cut(t));
      OnlineCut(cut, t, s);
    }
  }

  lemma FirstOf(cut: seq<byte> -> nat, min: nat, max: nat, t: seq<byte>)
    requires Cuts(cut, min, max) && t != []
    ensures 1 <= cut(t) <= |t|
    ensures Chunks(cut, t) == [t[..cut(t)]] + Chunks(cut, t[cut(t)..])
  {
  }

  /** Replacing `x` by `y` in a buffer changes no chunk that ends where it starts or earlier, unless the
      first buffer ends there, and none from the first boundary at or after its end that both buffers
      share. */
  lemma EditIsLocal(cut: seq<byte> -> nat, min: nat, max: nat, a: seq<byte>, x: seq<byte>, y: seq<byte>,
                    b: seq<byte>, suffix: seq<byte>, k: nat, i: nat, j: nat)
    requires Cuts(cut, min, max) && Online(cut)
    requires var before, after := Chunks(cut, a + x + b + suffix), Chunks(cut, a + y + b + suffix);
      && k <= |before| && |Flatten(before[..k])| <= |a| && |Flatten(before[..k])| < |a + x + b + suffix|
      && i <= |before| && Flatten(before[..i]) == a + x + b
      && j <= |after| && Flatten(after[..j]) == a + y + b
    ensures var before, after := Chunks(cut, a + x + b + suffix), Chunks(cut, a + y + b + suffix);
      && k <= |after| && after[..k] == before[..k]
      && after[j..] == before[i..]
  {
    hide *;
    var s, t := a + x + b + suffix, a + y + b + suffix;
    assert s[..|a|] == a == t[..|a|];
    PrefixStays(cut, min, max, s, t, |a|, k);
    Resynchronises(cut, a + x + b, a + y + b, suffix, i, j);
  }
}

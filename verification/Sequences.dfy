/** Concatenation of a sequence of sequences. */
module Sequences {

  ghost function Flatten<S>(ss: seq<seq<S>>): seq<S> {
    if ss == [] then [] else ss[0] + Flatten(ss[1..])
  }

  lemma Associative<S>(x: seq<S>, y: seq<S>, z: seq<S>)
    ensures x + (y + z) == x + y + z
  {
  }

  lemma {:induction false} FlattenSplit<S>(xs: seq<seq<S>>, ys: seq<seq<S>>)
    ensures Flatten(xs + ys) == Flatten(xs) + Flatten(ys)
  {
    if xs == [] {
      assert xs + ys == ys;
    } else {
      FlattenSplit(xs[1..], ys);
      assert (xs + ys)[1..] == xs[1..] + ys;
      Associative(xs[0], Flatten(xs[1..]), Flatten(ys));
    }
  }

  lemma {:induction false} FlattenEmpty<S>(ss: seq<seq<S>>)
    requires forall i :: 0 <= i < |ss| ==> ss[i] == []
    ensures Flatten(ss) == []
  {
    if ss != [] {
      FlattenEmpty(ss[1..]);
    }
  }

  /** The concatenation seen around position `p`. */
  lemma FlattenAround<S>(ss: seq<seq<S>>, p: nat)
    requires p < |ss|
    ensures Flatten(ss) == Flatten(ss[..p]) + ss[p] + Flatten(ss[p + 1..])
  {
    assert ss == ss[..p] + ss[p..];
    FlattenSplit(ss[..p], ss[p..]);
    assert ss[p..][1..] == ss[p + 1..];
    Associative(Flatten(ss[..p]), ss[p], Flatten(ss[p + 1..]));
  }

  /** Replacing one of the sequences. */
  lemma FlattenUpdate<S>(ss: seq<seq<S>>, p: nat, x: seq<S>) returns (before: seq<S>, after: seq<S>)
    requires p < |ss|
    ensures Flatten(ss) == before + ss[p] + after
    ensures Flatten(ss[p := x]) == before + x + after
    ensures p == 0 ==> before == []
    ensures p == |ss| - 1 ==> after == []
  {
    before, after := Flatten(ss[..p]), Flatten(ss[p + 1..]);
    FlattenAround(ss, p);
    FlattenAround(ss[p := x], p);
    assert ss[p := x][..p] == ss[..p] && ss[p := x][p + 1..] == ss[p + 1..];
  }

  lemma {:induction false} FlattenLength<S>(ss: seq<seq<S>>, least: nat)
    requires forall i :: 0 <= i < |ss| ==> |ss[i]| >= least
    ensures |Flatten(ss)| >= |ss| * least
  {
    if ss != [] {
      FlattenLength(ss[1..], least);
      assert |ss| * least == least + |ss[1..]| * least;
    }
  }
}

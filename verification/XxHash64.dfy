/** The streaming 64-bit xxHash of include/dedup/xxhash64.h, against the algorithm of the xxHash fast
    digest specification (section "XXH64 algorithm description", steps 1 to 6) on the whole message. */
module XxHash64 {
  import opened Words
  import opened Gf2
  import opened Sequences

  type Word = n: nat | n < TWO_64

  const PRIME1: Word := 11400714785074694791
  const PRIME2: Word := 14029467366897019727
  const PRIME3: Word := 1609587929392839161
  const PRIME4: Word := 9650029242287828579
  const PRIME5: Word := 2870177450012600261

  // ------------------------------------------------------------------ 64-bit arithmetic

  function Mul(a: Word, b: Word): Word {
    a * b % TWO_64
  }

  function XorW(a: Word, b: Word): Word {
    Pow2Values();
    XorBound(a, b, 64);
    Xor(a, b)
  }

  lemma {:induction false} OrBound(a: nat, b: nat, n: nat)
    requires a < Pow2(n) && b < Pow2(n)
    ensures Or(a, b) < Pow2(n)
    decreases n
  {
    if n > 0 { OrBound(a / 2, b / 2, n - 1); }
  }

  lemma {:induction false} ShrLess(a: nat, n: nat)
    ensures Shr(a, n) <= a
    decreases n
  {
    if n > 0 { ShrLess(a / 2, n - 1); }
  }

  function ShrW(a: Word, n: nat): Word {
    ShrLess(a, n);
    Shr(a, n)
  }

  /** rotateLeft, lines 182-185. */
  function RotateLeft(x: Word, bits: nat): Word
    requires 1 <= bits <= 63
  {
    Pow2Values();
    LowBound(Shl(x, bits), 64);
    OrBound(Shl64(x, bits), ShrW(x, 64 - bits), 64);
    Or(Shl64(x, bits), Shr(x, 64 - bits))
  }

  /** processSingle, lines 188-191. */
  function ProcessSingle(previous: Word, input: Word): Word {
    Mul(RotateLeft(Add64(previous, Mul(input, PRIME2)), 31), PRIME1)
  }

  /** A little-endian number. */
  function Little(s: seq<byte>): (r: nat)
    requires |s| <= 8
    ensures r < TWO_64
    ensures |s| <= 4 ==> r < 0x1_0000_0000
  {
    LittleBound(s);
    FromBytes(s)
  }

  lemma LittleBound(s: seq<byte>)
    ensures |s| <= 8 ==> FromBytes(s) < TWO_64
    ensures |s| <= 4 ==> FromBytes(s) < 0x1_0000_0000
  {
    FromBytesBound(s);
    Pow2Values();
    if |s| <= 8 {
      Pow2Monotone(8 * |s|, 64);
    }
    if |s| <= 4 {
      Pow2Monotone(8 * |s|, 32);
    }
  }

  // ------------------------------------------------------------------ the algorithm on a whole message

  datatype Accumulators = Accumulators(a1: Word, a2: Word, a3: Word, a4: Word)

  /** Step 1. */
  function Initial(seed: Word): Accumulators {
    Accumulators(Add64(Add64(seed, PRIME1), PRIME2), Add64(seed, PRIME2), seed, Sub64(seed, PRIME1))
  }

  /** Step 2, one stripe of four lanes. */
  function Stripe(a: Accumulators, s: seq<byte>): Accumulators
    requires |s| == 32
  {
    Accumulators(ProcessSingle(a.a1, Little(s[0..8])), ProcessSingle(a.a2, Little(s[8..16])),
                 ProcessSingle(a.a3, Little(s[16..24])), ProcessSingle(a.a4, Little(s[24..32])))
  }

  /** Step 2, all whole stripes of the message. */
  ghost function Stripes(a: Accumulators, s: seq<byte>): Accumulators
    decreases |s|
  {
    hide *;
    if |s| < 32 then a else Stripes(Stripe(a, s[..32]), s[32..])
  }

  /** Step 3. */
  function MergeAccumulator(acc: Word, a: Word): Word {
    Add64(Mul(XorW(acc, ProcessSingle(0, a)), PRIME1), PRIME4)
  }

  ghost function Converge(a: Accumulators): Word {
    var acc := Add64(Add64(Add64(RotateLeft(a.a1, 1), RotateLeft(a.a2, 7)), RotateLeft(a.a3, 12)), RotateLeft(a.a4, 18));
    MergeAccumulator(MergeAccumulator(MergeAccumulator(MergeAccumulator(acc, a.a1), a.a2), a.a3), a.a4)
  }

  function EatEight(acc: Word, lane: Word): Word {
    Add64(Mul(RotateLeft(XorW(acc, ProcessSingle(0, lane)), 27), PRIME1), PRIME4)
  }

  function EatFour(acc: Word, lane: Word): Word {
    Add64(Mul(RotateLeft(XorW(acc, Mul(lane, PRIME1)), 23), PRIME2), PRIME3)
  }

  function EatByte(acc: Word, b: byte): Word {
    Mul(RotateLeft(XorW(acc, Mul(b, PRIME5)), 11), PRIME1)
  }

  /** Step 5: the bytes after the last whole stripe, by eights, then four, then one by one. */
  ghost function Remaining(acc: Word, s: seq<byte>): Word
    decreases |s|
  {
    hide *;
    if |s| >= 8 then Remaining(EatEight(acc, Little(s[..8])), s[8..])
    else if |s| >= 4 then RemainingBytes(EatFour(acc, Little(s[..4])), s[4..])
    else RemainingBytes(acc, s)
  }

  ghost function RemainingBytes(acc: Word, s: seq<byte>): Word
    decreases |s|
  {
    hide *;
    if s == [] then acc else RemainingBytes(EatByte(acc, s[0]), s[1..])
  }

  /** Step 6. */
  ghost function Avalanche(acc: Word): Word {
    var a := Mul(XorW(acc, ShrW(acc, 33)), PRIME2);
    var b := Mul(XorW(a, ShrW(a, 29)), PRIME3);
    XorW(b, ShrW(b, 32))
  }

  /** The whole stripes of a message, and what follows them. */
  ghost function Whole(message: seq<byte>): seq<byte> {
    message[..|message| - |message| % 32]
  }

  ghost function Rest(message: seq<byte>): seq<byte> {
    message[|message| - |message| % 32..]
  }

  lemma WholeAndRest(message: seq<byte>)
    ensures message == Whole(message) + Rest(message) && |Whole(message)| % 32 == 0 && |Rest(message)| == |message| % 32
  {
  }

  /** Steps 1 to 6; step 4 adds the length. */
  ghost function XXH64(message: seq<byte>, seed: Word): Word
    requires |message| < TWO_64
  {
    var acc := if |message| < 32 then Add64(seed, PRIME5) else Converge(Stripes(Initial(seed), message));
    Avalanche(Remaining(Add64(acc, |message|), Rest(message)))
  }

  // ------------------------------------------------------------------ stripes and splits

  lemma {:induction false} StripesAppend(a: Accumulators, s: seq<byte>, t: seq<byte>)
    requires |s| % 32 == 0
    ensures Stripes(a, s + t) == Stripes(Stripes(a, s), t)
    decreases |s|
  {
    hide Stripe;
    if s == [] {
      assert s + t == t;
    } else {
      assert (s + t)[..32] == s[..32] && (s + t)[32..] == s[32..] + t;
      StripesAppend(Stripe(a, s[..32]), s[32..], t);
    }
  }

  lemma OneStripe(a: Accumulators, s: seq<byte>)
    requires |s| == 32
    ensures Stripes(a, s) == Stripe(a, s)
  {
    hide Stripe;
    assert s[..32] == s;
  }

  lemma StripesWhole(a: Accumulators, s: seq<byte>)
    ensures Stripes(a, s) == Stripes(a, Whole(s))
  {
    hide Whole, Rest, Stripe;
    WholeAndRest(s);
    StripesAppend(a, Whole(s), Rest(s));
    NoStripes(Stripes(a, Whole(s)), Rest(s));
  }

  lemma NoStripes(a: Accumulators, s: seq<byte>)
    requires |s| < 32
    ensures Stripes(a, s) == a
  {
  }

  // ------------------------------------------------------------------ the streaming object

  const MAX_BUFFER_SIZE: nat := 32

  /** class XXHash64, lines 24-202.  `message` records all bytes added. */
  class XXHash64 {
    ghost const seed: Word
    ghost var message: seq<byte>
    const state: array<Word>
    const buffer: array<byte>
    var bufferSize: nat
    var totalLength: nat

    function State(): Accumulators
      requires state.Length == 4
      reads this, state
    {
      Accumulators(state[0], state[1], state[2], state[3])
    }

    /** The accumulators have consumed the whole stripes; the buffer holds what follows them. */
    ghost predicate Valid()
      reads this, state, buffer
    {
      && state.Length == 4 && buffer.Length == MAX_BUFFER_SIZE
      && totalLength == |message| < TWO_64
      && bufferSize == |message| % 32
      && buffer[..bufferSize] == Rest(message)
      && State() == Stripes(Initial(seed), Whole(message))
    }

    /** Lines 29-37. */
    constructor (seed: Word)
      ensures Valid() && message == [] && this.seed == seed && fresh(state) && fresh(buffer)
    {
      hide Stripes, Add64, Sub64, Whole, Rest;
      this.seed := seed;
      message := [];
      state := new Word[4](i => 0);
      buffer := new byte[32](i => 0);
      bufferSize := 0;
      totalLength := 0;
      new;
      state[0] := Add64(Add64(seed, PRIME1), PRIME2);
      state[1] := Add64(seed, PRIME2);
      state[2] := seed;
      state[3] := Sub64(seed, PRIME1);
      InitialState(seed);
    }

    /** Lines 54-60: everything still fits into the buffer. */
    method AddToBuffer(input: seq<byte>)
      requires bufferSize + |input| < MAX_BUFFER_SIZE == buffer.Length
      modifies `bufferSize, buffer
      ensures bufferSize == old(bufferSize) + |input| && buffer[..bufferSize] == old(buffer[..bufferSize]) + input
    {
      var data := 0;
      while data < |input|
        modifies `bufferSize, buffer
        invariant data <= |input| && bufferSize == old(bufferSize) + data
        invariant buffer[..bufferSize] == old(buffer[..bufferSize]) + input[..data]
      {
        buffer[bufferSize] := input[data];
        bufferSize := bufferSize + 1;
        data := data + 1;
      }
    }

    /** Lines 70-71: the buffer is filled up to 32 bytes. */
    method FillBuffer(input: seq<byte>) returns (data: nat)
      requires bufferSize <= MAX_BUFFER_SIZE == buffer.Length && MAX_BUFFER_SIZE <= bufferSize + |input|
      modifies `bufferSize, buffer
      ensures data == MAX_BUFFER_SIZE - old(bufferSize) && buffer[..] == old(buffer[..bufferSize]) + input[..data]
    {
      data := 0;
      while bufferSize < MAX_BUFFER_SIZE
        modifies `bufferSize, buffer
        invariant old(bufferSize) <= bufferSize <= MAX_BUFFER_SIZE && data == bufferSize - old(bufferSize)
        invariant buffer[..bufferSize] == old(buffer[..bufferSize]) + input[..data]
      {
        buffer[bufferSize] := input[data];
        bufferSize := bufferSize + 1;
        data := data + 1;
      }
    }

    /** Lines 90-92: what is left goes to the front of the buffer. */
    method KeepRest(rest: seq<byte>)
      requires |rest| < MAX_BUFFER_SIZE == buffer.Length
      modifies `bufferSize, buffer
      ensures bufferSize == |rest| && buffer[..bufferSize] == rest
    {
      bufferSize := |rest|;
      var i := 0;
      while i < bufferSize
        modifies buffer
        invariant i <= bufferSize && buffer[..i] == rest[..i]
      {
        buffer[i] := rest[i];
        i := i + 1;
      }
    }

    /** Lines 66-77: a buffer that holds something is filled up and consumed. */
    method ConsumeBuffer(input: seq<byte>, ghost whole: seq<byte>) returns (data: nat, ghost whole': seq<byte>)
      requires state.Length == 4 && bufferSize <= MAX_BUFFER_SIZE == buffer.Length <= bufferSize + |input|
      requires |whole| % 32 == 0 && State() == Stripes(Initial(seed), whole)
      modifies `bufferSize, buffer, state
      ensures data <= |input| && |whole'| % 32 == 0
      ensures whole' + input[data..] == whole + (old(buffer[..bufferSize]) + input)
      ensures State() == Stripes(Initial(seed), whole')
    {
      hide Stripes, Initial, Stripe;
      ghost var held := buffer[..bufferSize];
      data, whole' := 0, whole;
      if bufferSize > 0 {
        data := FillBuffer(input);
        var a := Process(buffer[..], State(), Initial(seed), whole);
        StoreState(a);
        whole' := whole + buffer[..];
        Regroup(whole, held, input, data);
      }
    }

    /** Lines 62-95: whole stripes are consumed, the rest is kept. */
    method AddStripes(input: seq<byte>)
      requires Valid() && |message| + |input| < TWO_64 && MAX_BUFFER_SIZE <= bufferSize + |input|
      modifies `bufferSize, buffer, state
      ensures bufferSize == |message + input| % 32 && buffer[..bufferSize] == Rest(message + input)
      ensures State() == Stripes(Initial(seed), Whole(message + input))
    {
      hide Stripes, Initial, Stripe, Whole, Rest;
      WholeAndRest(message);
      Associative(Whole(message), Rest(message), input);
      var data: nat, a: Accumulators;
      ghost var whole;
      data, whole := ConsumeBuffer(input, Whole(message));
      a, data, whole := ProcessBlocks(input, data, State(), whole);
      SplitAt(message + input, whole, input[data..]);
      StoreState(a);
      KeepRest(input[data..]);
    }

    /** add, lines 43-96.  A null pointer and a zero length are the empty input. */
    method Add(input: seq<byte>) returns (ok: bool)
      requires Valid() && |message| + |input| < TWO_64
      modifies this, state, buffer
      ensures Valid() && message == old(message) + input
      ensures ok <==> input != []
    {
      hide Stripes, Initial, Stripe, Whole, Rest;
      if input == [] {
        return false;
      }
      if bufferSize + |input| < MAX_BUFFER_SIZE {
        SmallAdd(message, input);
        AddToBuffer(input);
      } else {
        AddStripes(input);
      }
      totalLength := totalLength + |input|;
      message := message + input;
      return true;
    }

    /** Lines 80-85: whole stripes straight from the input. */
    method ProcessBlocks(input: seq<byte>, start: nat, a0: Accumulators, ghost whole0: seq<byte>)
      returns (a: Accumulators, data: nat, ghost whole: seq<byte>)
      requires start <= |input| && |whole0| % 32 == 0 && a0 == Stripes(Initial(seed), whole0)
      ensures data <= |input| && |input| - data < 32 && |whole| % 32 == 0
      ensures whole0 + input[start..] == whole + input[data..] && a == Stripes(Initial(seed), whole)
    {
      hide Stripes, Initial, Stripe;
      a, data, whole := a0, start, whole0;
      while data + 32 <= |input|
        invariant data <= |input| && |whole| % 32 == 0
        invariant whole0 + input[start..] == whole + input[data..] && a == Stripes(Initial(seed), whole)
      {
        var stripe := input[data..data + 32];
        a := Process(stripe, a, Initial(seed), whole);
        assert input[data..] == stripe + input[data + 32..];
        Associative(whole, stripe, input[data + 32..]);
        whole := whole + stripe;
        data := data + 32;
      }
    }

    method StoreState(a: Accumulators)
      requires state.Length == 4
      modifies state
      ensures State() == a
    {
      state[0], state[1], state[2], state[3] := a.a1, a.a2, a.a3, a.a4;
    }

    /** hash, lines 100-150. */
    method Hash() returns (r: Word)
      requires Valid()
      ensures r == XXH64(message, seed)
    {
      hide Stripes, Stripe, Mul, XorW, RotateLeft, Add64, Sub64, ShrW, ProcessSingle, Little;
      hide EatEight, EatFour, EatByte, MergeAccumulator, Remaining, RemainingBytes, Whole, Rest;
      var result: Word;
      if totalLength >= MAX_BUFFER_SIZE {
        result := Add64(Add64(Add64(RotateLeft(state[0], 1), RotateLeft(state[1], 7)), RotateLeft(state[2], 12)),
                        RotateLeft(state[3], 18));
        result := MergeAccumulator(result, state[0]);
        result := MergeAccumulator(result, state[1]);
        result := MergeAccumulator(result, state[2]);
        result := MergeAccumulator(result, state[3]);
        StripesWhole(Initial(seed), message);
      } else {
        ShortMessage(message);
        NoStripes(Initial(seed), Whole(message));
        result := Add64(state[2], PRIME5);
      }
      result := Add64(result, totalLength);
      result := Finish(buffer[..bufferSize], result);
      result := XorW(result, ShrW(result, 33));
      result := Mul(result, PRIME2);
      result := XorW(result, ShrW(result, 29));
      result := Mul(result, PRIME3);
      r := XorW(result, ShrW(result, 32));
    }
  }

  /** `held + input[..k]` consumed behind `whole`. */
  lemma Regroup(whole: seq<byte>, held: seq<byte>, input: seq<byte>, k: nat)
    requires k <= |input|
    ensures whole + (held + input[..k]) + input[k..] == whole + (held + input)
  {
    assert input == input[..k] + input[k..];
  }

  lemma ShortMessage(message: seq<byte>)
    requires |message| < 32
    ensures Whole(message) == []
  {
  }

  lemma InitialState(seed: Word)
    ensures Whole([]) == Rest([]) == [] && Stripes(Initial(seed), []) == Initial(seed)
  {
  }

  /** process, lines 194-201: from the state of a message of whole stripes to that of the message with the
      next 32 bytes. */
  method Process(data: seq<byte>, a: Accumulators, ghost start: Accumulators, ghost whole: seq<byte>) returns (r: Accumulators)
    requires |data| == 32 && |whole| % 32 == 0 && a == Stripes(start, whole)
    ensures r == Stripes(start, whole + data)
  {
    hide Stripes, ProcessSingle, Little;
    NextStripe(start, whole, data);
    var s0, s1, s2, s3 := a.a1, a.a2, a.a3, a.a4;
    s0 := ProcessSingle(s0, Little(data[0..8]));
    s1 := ProcessSingle(s1, Little(data[8..16]));
    s2 := ProcessSingle(s2, Little(data[16..24]));
    s3 := ProcessSingle(s3, Little(data[24..32]));
    r := Accumulators(s0, s1, s2, s3);
  }

  lemma NextStripe(a: Accumulators, whole: seq<byte>, s: seq<byte>)
    requires |whole| % 32 == 0 && |s| == 32
    ensures Stripes(a, whole + s) == Stripe(Stripes(a, whole), s)
  {
    hide Stripe, Stripes;
    StripesAppend(a, whole, s);
    OneStripe(Stripes(a, whole), s);
  }

  lemma SmallAdd(message: seq<byte>, input: seq<byte>)
    requires |message| % 32 + |input| < 32
    ensures |message + input| % 32 == |message| % 32 + |input|
    ensures Whole(message + input) == Whole(message) && Rest(message + input) == Rest(message) + input
  {
    hide Whole, Rest;
    WholeAndRest(message);
    Associative(Whole(message), Rest(message), input);
    SplitAt(message + input, Whole(message), Rest(message) + input);
  }

  /** There is one way to split a message into whole stripes and less than a stripe. */
  lemma SplitAt(all: seq<byte>, whole: seq<byte>, tail: seq<byte>)
    requires all == whole + tail && |whole| % 32 == 0 && |tail| < 32
    ensures |all| % 32 == |tail| && Whole(all) == whole && Rest(all) == tail
  {
  }

  /** Lines 124-141: the bytes left in the buffer. */
  method Finish(s: seq<byte>, acc: Word) returns (r: Word)
    ensures r == Remaining(acc, s)
  {
    hide EatEight, EatFour, EatByte, Little;
    r := acc;
    var data := 0;
    assert s[0..] == s;
    while data + 8 <= |s|
      invariant data <= |s| && Remaining(acc, s) == Remaining(r, s[data..])
    {
      assert s[data..][..8] == s[data..data + 8] && s[data..][8..] == s[data + 8..];
      r := EatEight(r, Little(s[data..data + 8]));
      data := data + 8;
    }
    ghost var left := s[data..];
    if data + 4 <= |s| {
      assert left[..4] == s[data..data + 4] && left[4..] == s[data + 4..];
      r := EatFour(r, Little(s[data..data + 4]));
      data := data + 4;
    }
    while data != |s|
      invariant data <= |s| && Remaining(acc, s) == RemainingBytes(r, s[data..])
      decreases |s| - data
    {
      assert s[data..][1..] == s[data + 1..];
      r := EatByte(r, s[data]);
      data := data + 1;
    }
  }

  /** The static hash, lines 158-163. */
  method HashOnce(input: seq<byte>, seed: Word) returns (r: Word)
    requires |input| < TWO_64
    ensures r == XXH64(input, seed)
  {
    hide XXH64;
    var hasher := new XXHash64(seed);
    var ok := hasher.Add(input);
    assert [] + input == input;
    r := hasher.Hash();
  }

  /** However a message is split into add calls, the hash is that of the concatenation. */
  method HashOfParts(parts: seq<seq<byte>>, seed: Word) returns (r: Word)
    requires |Flatten(parts)| < TWO_64
    ensures r == XXH64(Flatten(parts), seed)
  {
    hide XXH64;
    var hasher := new XXHash64(seed);
    var i := 0;
    while i < |parts|
      invariant i <= |parts| && hasher.Valid() && hasher.seed == seed && fresh(hasher) && fresh(hasher.state) && fresh(hasher.buffer)
      invariant hasher.message + Flatten(parts[i..]) == Flatten(parts)
    {
      assert parts[i..][1..] == parts[i + 1..];
      Associative(hasher.message, parts[i], Flatten(parts[i + 1..]));
      var ok := hasher.Add(parts[i]);
      i := i + 1;
    }
    assert hasher.message + [] == hasher.message;
    r := hasher.Hash();
  }
}

/** InMemoryDatabase (src/database/in_mem_db.cc): the file its destructor writes and OpenDB reads back.
    A string is a sequence of bytes. */
module InMemDb {
  import opened Words

  type str = seq<byte>

  // ------------------------------------------------------------------ the file written

  /** A string as written: its size in 32 bits, then that many of its bytes. */
  function Item(s: str): seq<byte> {
    ToBytes(|s| % TWO_32, 4) + s[..|s| % TWO_32]
  }

  function DumpOf(order: seq<str>, index: map<str, str>): seq<byte>
    requires forall k :: k in order ==> k in index
  {
    if order == [] then [] else Item(order[0]) + Item(index[order[0]]) + DumpOf(order[1..], index)
  }

  /** Every key once. */
  ghost predicate IsOrder(order: seq<str>, index: map<str, str>) {
    && (forall k :: k in order <==> k in index)
    && (forall i, j :: 0 <= i < j < |order| ==> order[i] != order[j])
  }

  /** What the destructor may write: the order of an unordered_map is unspecified. */
  ghost predicate IsDump(file: seq<byte>, index: map<str, str>) {
    exists order :: IsOrder(order, index) && file == DumpOf(order, index)
  }

  // ------------------------------------------------------------------ the file read

  /** An input stream: the bytes ahead, and whether a read came up short. */
  datatype Stream = Stream(ahead: seq<byte>, eof: bool)

  /** istream::read: a short read takes what there is; after one nothing more is read. */
  function Got(f: Stream, n: nat): (s: seq<byte>)
    ensures |s| <= n && (|s| == n ==> f.eof || s <= f.ahead)
  {
    if f.eof then [] else if |f.ahead| >= n then f.ahead[..n] else f.ahead
  }

  function After(f: Stream, n: nat): (g: Stream)
    ensures !g.eof ==> !f.eof && |g.ahead| + n == |f.ahead|
  {
    if f.eof then f else if |f.ahead| >= n then Stream(f.ahead[n..], false) else Stream([], true)
  }

  /** Reading into a buffer leaves what is not overwritten. */
  function Into(buf: seq<byte>, got: seq<byte>): (s: seq<byte>)
    requires |got| <= |buf|
    ensures |s| == |buf|
  {
    got + buf[|got|..]
  }

  /** string::resize with zero bytes. */
  function Resize(s: str, n: nat): (r: str)
    ensures |r| == n
  {
    if |s| >= n then s[..n] else s + seq(n - |s|, i => 0)
  }

  /** `read(&item_size, 4)`, starting from what `item_size` held. */
  function Size(f: Stream, before: nat): nat {
    FromBytes(Into(ToBytes(before, 4), Got(f, 4)))
  }

  /** OpenDB's loop, from the stream and what `key`, `value` and the index hold. */
  function Load(f: Stream, key: str, value: str, index: map<str, str>): map<str, str>
    decreases |f.ahead|
  {
    var f1, keySize := After(f, 4), Size(f, 0);
    if keySize == 0 then index else
    var f2, key' := After(f1, keySize), Into(Resize(key, keySize), Got(f1, keySize));
    var f3, valueSize := After(f2, 4), Size(f2, keySize);
    var f4, value' := After(f3, valueSize), Into(Resize(value, valueSize), Got(f3, valueSize));
    if f4.eof then index[key' := value'] else Load(f4, key', value', index[key' := value'])
  }

  // ------------------------------------------------------------------ round trip

  /** What a file can hold. */
  predicate Storable(index: map<str, str>) {
    forall k :: k in index ==> 1 <= |k| < TWO_32 && |index[k]| < TWO_32
  }

  lemma SizeBound(f: Stream, before: nat)
    ensures Size(f, before) < TWO_32
  {
    Pow2Values();
    hide Pow2;
    FromBytesBound(Into(ToBytes(before, 4), Got(f, 4)));
  }

  /** Whatever the file, loading yields only storable entries. */
  lemma {:induction false} LoadsStorable(f: Stream, key: str, value: str, index: map<str, str>)
    requires Storable(index)
    ensures Storable(Load(f, key, value, index))
    decreases |f.ahead|
  {
    hide Size, Resize, Into, Got;
    var f1, keySize := After(f, 4), Size(f, 0);
    SizeBound(f, 0);
    if keySize != 0 {
      var f2, key' := After(f1, keySize), Into(Resize(key, keySize), Got(f1, keySize));
      var f3, valueSize := After(f2, 4), Size(f2, keySize);
      SizeBound(f2, keySize);
      var f4, value' := After(f3, valueSize), Into(Resize(value, valueSize), Got(f3, valueSize));
      if !f4.eof { LoadsStorable(f4, key', value', index[key' := value']); }
    }
  }

  lemma ReadSize(n: nat, rest: seq<byte>, before: nat)
    requires n < TWO_32
    ensures var f := Stream(ToBytes(n, 4) + rest, false); Size(f, before) == n && After(f, 4) == Stream(rest, false)
  {
    Pow2Values();
    hide Pow2;
    FromToBytes(n, 4);
    hide FromBytes, ToBytes;
    assert (ToBytes(n, 4) + rest)[4..] == rest;
    assert Into(ToBytes(before, 4), ToBytes(n, 4)) == ToBytes(n, 4);
  }

  lemma ReadBody(s: str, rest: seq<byte>, buf: str)
    ensures var f := Stream(s + rest, false);
      Into(Resize(buf, |s|), Got(f, |s|)) == s && After(f, |s|) == Stream(rest, false)
  {
    hide Resize;
    assert (s + rest)[|s|..] == rest;
  }

  /** Reading back one string that was written whole. */
  lemma ReadItem(s: str, rest: seq<byte>, before: nat, buf: str)
    requires |s| < TWO_32
    ensures var f := Stream(Item(s) + rest, false); var f1 := After(f, 4);
      && Size(f, before) == |s|
      && Into(Resize(buf, |s|), Got(f1, |s|)) == s
      && After(f1, |s|) == Stream(rest, false)
  {
    hide ToBytes, Resize, Into, Got, After, Size;
    ReadSize(|s|, s + rest, before);
    ReadBody(s, rest, buf);
    assert Item(s) + rest == ToBytes(|s|, 4) + (s + rest);
  }

  lemma {:induction false} LoadDump(order: seq<str>, index: map<str, str>, key: str, value: str, before: map<str, str>)
    requires Storable(index) && forall k :: k in order ==> k in index
    ensures var after := Load(Stream(DumpOf(order, index), false), key, value, before);
      && after.Keys == before.Keys + (set k | k in order)
      && forall k :: k in after ==> after[k] == if k in order then index[k] else before[k]
    decreases |order|
  {
    hide Item, Into, Resize, Storable, Size, Got;
    if order == [] {
      ZeroSize();
    } else {
      var k, rest := order[0], DumpOf(order[1..], index);
      var v := index[k];
      LoadOne(k, v, rest, key, value, before, index);
      LoadDump(order[1..], index, k, v, before[k := v]);
      assert DumpOf(order, index) == Item(k) + Item(v) + rest;
      hide Load, DumpOf;
    }
  }

  lemma LoadOne(k: str, v: str, rest: seq<byte>, key: str, value: str, before: map<str, str>, index: map<str, str>)
    requires Storable(index) && k in index && v == index[k]
    ensures Load(Stream(Item(k) + Item(v) + rest, false), key, value, before)
         == Load(Stream(rest, false), k, v, before[k := v])
  {
    hide Item, Into, Resize, Size, Got, After;
    ReadItem(k, Item(v) + rest, 0, key);
    ReadItem(v, rest, |k|, value);
    assert Item(k) + Item(v) + rest == Item(k) + (Item(v) + rest);
  }

  lemma ZeroSize()
    ensures Size(Stream([], false), 0) == 0
  {
    Pow2Values();
    FromToBytes(0, 4);
    hide FromBytes, ToBytes;
    assert Into(ToBytes(0, 4), []) == ToBytes(0, 4);
  }

  lemma LoadsBack(order: seq<str>, index: map<str, str>)
    requires IsOrder(order, index) && Storable(index)
    ensures Load(Stream(DumpOf(order, index), false), [], [], map[]) == index
  {
    hide Load, DumpOf, Storable;
    LoadDump(order, index, [], [], map[]);
    var loaded := Load(Stream(DumpOf(order, index), false), [], [], map[]);
    assert loaded.Keys == index.Keys;
    assert forall k :: k in index ==> loaded[k] == index[k];
  }

  /** A dump loads back to the same map, in whatever order it was written, exactly when no key is empty
      and every string is shorter than 2^32 bytes. */
  lemma RoundTrip(file: seq<byte>, index: map<str, str>)
    requires IsDump(file, index)
    ensures Load(Stream(file, false), [], [], map[]) == index <==> Storable(index)
  {
    LoadsStorable(Stream(file, false), [], [], map[]);
    hide Load, DumpOf, Storable, IsOrder;
    if Storable(index) {
      var order :| IsOrder(order, index) && file == DumpOf(order, index);
      LoadsBack(order, index);
    }
  }

  lemma ShortSize(n: nat)
    requires n < 256
    ensures ToBytes(n, 4) == [n as byte, 0, 0, 0]
  {
    assert ToBytes(n / 256, 3) == [0, 0, 0] by {
      assert ToBytes(0, 1) == [0] && ToBytes(0, 2) == [0, 0];
    }
  }

  /** A short string as written: its size, lowest byte first, then the bytes. */
  function Written(s: str): seq<byte>
    requires |s| < 256
  {
    [|s| as byte, 0, 0, 0] + s
  }

  lemma ShortItem(s: str)
    requires |s| < 256
    ensures Item(s) == Written(s)
  {
    ShortSize(|s|);
    hide ToBytes;
    assert s[..|s|] == s;
  }

  /** The file of a map with one short entry, byte by byte: the key, then the value. */
  lemma DumpOfOne(k: str, v: str, file: seq<byte>)
    requires |k| < 256 && |v| < 256
    ensures IsDump(file, map[k := v]) <==> file == Written(k) + Written(v)
  {
    hide Item, DumpOf, Written;
    var index := map[k := v];
    ShortItem(k);
    ShortItem(v);
    DumpOfNothing(index);
    DumpUnfold(k, [], index);
    assert [k] + [] == [k];
    assert IsOrder([k], index);
    forall order | IsOrder(order, index) ensures order == [k] { OnlyOrder(k, v, order); }
  }

  lemma OnlyOrder(k: str, v: str, order: seq<str>)
    requires IsOrder(order, map[k := v])
    ensures order == [k]
  {
    assert k in map[k := v];
    assert order[0] in order;
    var last := order[|order| - 1];
    assert last in order;
  }

  // ------------------------------------------------------------------ the database

  class InMemoryDatabase {
    var indexObj: map<str, str>

    constructor (file: seq<byte>)
      ensures indexObj == Load(Stream(file, false), [], [], map[])
    {
      indexObj := map[];
      new;
      OpenDB(file);
    }

    /** Lines 34-36 and 39-41. */
    static method WriteItem(file: seq<byte>, s: str) returns (written: seq<byte>)
      ensures written == file + Item(s)
    {
      var itemSize := |s| % TWO_32;
      written := file + ToBytes(itemSize, 4);
      written := written + s[..itemSize];
    }

    /** The destructor: writes the file, visiting the keys in any order. */
    method Dump() returns (file: seq<byte>)
      ensures IsDump(file, indexObj)
    {
      hide DumpOf, Item;
      file := [];
      var left := indexObj.Keys;
      ghost var order := [];
      DumpOfNothing(indexObj);
      while left != {}
        invariant forall k :: k in indexObj <==> k in order || k in left
        invariant forall k :: k in order ==> k !in left
        invariant forall i, j :: 0 <= i < j < |order| ==> order[i] != order[j]
        invariant file == DumpOf(order, indexObj)
        decreases |left|
      {
        var key :| key in left;
        DumpAppend(order, key, indexObj);
        file := WriteItem(file, key);
        file := WriteItem(file, indexObj[key]);
        order := order + [key];
        left := left - {key};
      }
      assert IsOrder(order, indexObj);
    }

    /** OpenDB: an empty file leaves the index as it is. */
    method OpenDB(file: seq<byte>)
      modifies this
      ensures indexObj == Load(Stream(file, false), [], [], old(indexObj))
    {
      hide FromBytes, ToBytes, Resize;
      if |file| == 0 {
        ZeroSize();
        return;
      }
      var f := Stream(file, false);
      var isEnd, itemSize, key: str, value: str := false, 0, [], [];
      while !isEnd
        invariant !isEnd ==> itemSize == 0 && Load(f, key, value, indexObj) == Load(Stream(file, false), [], [], old(indexObj))
        invariant isEnd ==> indexObj == Load(Stream(file, false), [], [], old(indexObj))
        decreases !isEnd, |f.ahead|
      {
        itemSize, f := Size(f, itemSize), After(f, 4);
        if itemSize == 0 {
          break;
        }
        key := Resize(key, itemSize);
        key, f := Into(key, Got(f, itemSize)), After(f, itemSize);
        itemSize, f := Size(f, itemSize), After(f, 4);
        value := Resize(value, itemSize);
        value, f := Into(value, Got(f, itemSize)), After(f, itemSize);
        isEnd := f.eof;
        indexObj := indexObj[key := value];
        itemSize := 0;
        if isEnd {
          break;
        }
      }
    }
  }

  lemma DumpOfNothing(index: map<str, str>)
    ensures DumpOf([], index) == []
  {
  }

  lemma DumpUnfold(key: str, others: seq<str>, index: map<str, str>)
    requires key in index && forall k :: k in others ==> k in index
    ensures DumpOf([key] + others, index) == Item(key) + Item(index[key]) + DumpOf(others, index)
  {
    hide Item;
    assert ([key] + others)[1..] == others;
  }

  lemma {:induction false} DumpAppend(order: seq<str>, key: str, index: map<str, str>)
    requires key in index && forall k :: k in order ==> k in index
    ensures DumpOf(order + [key], index) == DumpOf(order, index) + Item(key) + Item(index[key])
  {
    hide Item, DumpOf;
    if order == [] {
      DumpOfNothing(index);
      DumpUnfold(key, [], index);
      assert [key] + [] == [key] == order + [key];
    } else {
      var first, others := order[0], order[1..];
      DumpAppend(others, key, index);
      assert order == [first] + others && order + [key] == [first] + (others + [key]);
      DumpUnfold(first, others, index);
      DumpUnfold(first, others + [key], index);
    }
  }
}

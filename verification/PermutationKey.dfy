/** FNV-1a over bytes, in machine words. */
module Hashing {

  const FNV1A64_OFFSET: bv64 := 0xcbf2_9ce4_8422_2325

  /** One FNV-1a step; the factor is the 64-bit FNV prime. */
  function MixU8(seed: bv64, value: bv8): bv64 {
    (seed ^ (value as bv64)) * 0x100_0000_01b3
  }

  /** Mixing in a sequence of bytes, first to last. */
  function Fnv(seed: bv64, bytes: seq<bv8>): bv64 {
    if bytes == [] then seed else MixU8(Fnv(seed, bytes[..|bytes| - 1]), bytes[|bytes| - 1])
  }

  lemma {:induction false} FnvSplit(seed: bv64, a: seq<bv8>, b: seq<bv8>)
    ensures Fnv(seed, a + b) == Fnv(Fnv(seed, a), b)
  {
    if b == [] {
      assert a + b == a;
    } else {
      assert (a + b)[..|a + b| - 1] == a + b[..|b| - 1];
      FnvSplit(seed, a, b[..|b| - 1]);
    }
  }

  /** The loop's two statements, xor and multiply, are MixU8. */
  method Fnv1a64(data: seq<bv8>, seed: bv64) returns (hash: bv64)
    ensures hash == Fnv(seed, data)
  {
    hash := seed;
    var i := 0;
    while i < |data|
      invariant i <= |data| && hash == Fnv(seed, data[..i])
    {
      assert data[..i + 1][..i] == data[..i];
      hash := MixU8(hash, data[i]);
      i := i + 1;
    }
    assert data[..i] == data;
  }

  /** Little-endian bytes. */
  function Le32(value: bv32): seq<bv8> {
    [(value & 0xFF) as bv8, ((value >> 8) & 0xFF) as bv8, ((value >> 16) & 0xFF) as bv8, ((value >> 24) & 0xFF) as bv8]
  }

  /** Byte k carries the bits from 8k on. */
  lemma Le32IsLittleEndian(value: bv32)
    ensures var b := Le32(value);
      |b| == 4 && value == (b[0] as bv32) | ((b[1] as bv32) << 8) | ((b[2] as bv32) << 16) | ((b[3] as bv32) << 24)
  {
  }

  lemma Le64IsLittleEndian(value: bv64)
    ensures var b := Le64(value);
      && |b| == 8 && b[..4] == Le32(Low(value)) && b[4..] == Le32(High(value))
      && value == (Low(value) as bv64) | ((High(value) as bv64) << 32)
  {
  }

  function Low(value: bv64): bv32 {
    (value & 0xFFFF_FFFF) as bv32
  }

  function High(value: bv64): bv32 {
    ((value >> 32) & 0xFFFF_FFFF) as bv32
  }

  function Le64(value: bv64): seq<bv8> {
    Le32(Low(value)) + Le32(High(value))
  }

  lemma Le32Injective(a: bv32, b: bv32)
    requires Le32(a) == Le32(b)
    ensures a == b
  {
    assert Le32(a)[0] == Le32(b)[0] && Le32(a)[1] == Le32(b)[1] && Le32(a)[2] == Le32(b)[2] && Le32(a)[3] == Le32(b)[3];
  }

  lemma HalvesDetermine(a: bv64, b: bv64)
    requires Low(a) == Low(b) && High(a) == High(b)
    ensures a == b
  {
  }

  lemma Le64Injective(a: bv64, b: bv64)
    requires Le64(a) == Le64(b)
    ensures a == b
  {
    assert Le64(a)[..4] == Le32(Low(a)) && Le64(b)[..4] == Le32(Low(b));
    assert Le64(a)[4..] == Le32(High(a)) && Le64(b)[4..] == Le32(High(b));
    Le32Injective(Low(a), Low(b));
    Le32Injective(High(a), High(b));
    HalvesDetermine(a, b);
  }

  method MixU32(seed0: bv64, value: bv32) returns (seed: bv64)
    ensures seed == Fnv(seed0, Le32(value))
  {
    seed := seed0;
    seed := MixU8(seed, (value & 0xFF) as bv8);
    seed := MixU8(seed, ((value >> 8) & 0xFF) as bv8);
    seed := MixU8(seed, ((value >> 16) & 0xFF) as bv8);
    seed := MixU8(seed, ((value >> 24) & 0xFF) as bv8);
    FnvOfFour(seed0, Le32(value));
  }

  lemma FnvOfFour(seed: bv64, b: seq<bv8>)
    requires |b| == 4
    ensures Fnv(seed, b) == MixU8(MixU8(MixU8(MixU8(seed, b[0]), b[1]), b[2]), b[3])
  {
    assert b[..3][..2] == b[..2] && b[..2][..1] == b[..1] && b[..1][..0] == [];
    assert Fnv(seed, b[..1]) == MixU8(Fnv(seed, []), b[0]);
    assert Fnv(seed, b[..2]) == MixU8(Fnv(seed, b[..1]), b[1]);
    assert Fnv(seed, b[..3]) == MixU8(Fnv(seed, b[..2]), b[2]);
  }

  method MixU64(seed0: bv64, value: bv64) returns (seed: bv64)
    ensures seed == Fnv(seed0, Le64(value))
  {
    seed := seed0;
    seed := MixU32(seed, Low(value));
    seed := MixU32(seed, High(value));
    FnvSplit(seed0, Le32(Low(value)), Le32(High(value)));
  }

  /** Published FNV-1a values: of nothing, of "a" and of "foobar". */
  lemma KnownHashes()
    ensures Fnv(FNV1A64_OFFSET, []) == 0xcbf2_9ce4_8422_2325
    ensures Fnv(FNV1A64_OFFSET, [0x61]) == 0xaf63_dc4c_8601_ec8c
    ensures Fnv(FNV1A64_OFFSET, [0x66, 0x6f, 0x6f, 0x62, 0x61, 0x72]) == 0x8594_4171_f739_67e8
  {
    FnvPlus(FNV1A64_OFFSET, [], 0x61);
    var f: seq<bv8> := [0x66];
    var fo, foo := f + [0x6f], f + [0x6f] + [0x6f];
    var foob, fooba := foo + [0x62], foo + [0x62] + [0x61];
    FnvPlus(FNV1A64_OFFSET, [], 0x66);
    FnvPlus(FNV1A64_OFFSET, f, 0x6f);
    FnvPlus(FNV1A64_OFFSET, fo, 0x6f);
    FnvPlus(FNV1A64_OFFSET, foo, 0x62);
    FnvPlus(FNV1A64_OFFSET, foob, 0x61);
    FnvPlus(FNV1A64_OFFSET, fooba, 0x72);
    assert fooba + [0x72] == [0x66, 0x6f, 0x6f, 0x62, 0x61, 0x72];
  }

  lemma FnvPlus(seed: bv64, bytes: seq<bv8>, b: bv8)
    ensures Fnv(seed, bytes + [b]) == MixU8(Fnv(seed, bytes), b)
  {
    assert (bytes + [b])[..|bytes|] == bytes;
  }

  // ---------------------------------------------------------------- no collision within one byte

  /** Multiplication by the inverse of the prime modulo 2^64. */
  function Undo(h: bv64): bv64 {
    h * 0xce96_5057_aff6_957b
  }

  /** The prime is odd, so multiplication by it can be undone. */
  lemma PrimeIsInvertible(x: bv64)
    ensures Undo(x * 0x100_0000_01b3) == x
  {
  }

  lemma MixUndoneBy(x: bv64, y: bv64, b: bv8, c: bv8, undo: bv64 -> bv64)
    requires MixU8(x, b) == MixU8(y, c)
    requires undo((x ^ (b as bv64)) * 0x100_0000_01b3) == x ^ (b as bv64)
    requires undo((y ^ (c as bv64)) * 0x100_0000_01b3) == y ^ (c as bv64)
    ensures x ^ (b as bv64) == y ^ (c as bv64)
  {
  }

  lemma MixCancels(x: bv64, y: bv64, b: bv8, c: bv8)
    requires MixU8(x, b) == MixU8(y, c)
    ensures x ^ (b as bv64) == y ^ (c as bv64)
  {
    PrimeIsInvertible(x ^ (b as bv64));
    PrimeIsInvertible(y ^ (c as bv64));
    MixUndoneBy(x, y, b, c, Undo);
  }

  lemma XorIsInjective(x: bv64, y: bv64, b: bv64)
    requires x ^ b == y ^ b
    ensures x == y
  {
  }

  lemma ByteXorIsInjective(x: bv64, b: bv8, c: bv8)
    requires x ^ (b as bv64) == x ^ (c as bv64)
    ensures b == c
  {
  }

  lemma MixIsInjective(x: bv64, y: bv64, b: bv8)
    requires MixU8(x, b) == MixU8(y, b)
    ensures x == y
  {
    XorIsInjective(x, y, b as bv64) by { MixCancels(x, y, b, b); }
  }

  lemma MixSeparatesBytes(x: bv64, b: bv8, c: bv8)
    requires MixU8(x, b) == MixU8(x, c)
    ensures b == c
  {
    ByteXorIsInjective(x, b, c) by { MixCancels(x, x, b, c); }
  }

  /** Different seeds stay different through the same bytes. */
  lemma {:induction false} FnvIsInjectiveInSeed(x: bv64, y: bv64, bytes: seq<bv8>)
    requires Fnv(x, bytes) == Fnv(y, bytes)
    ensures x == y
  {
    if bytes != [] {
      var n := |bytes| - 1;
      MixIsInjective(Fnv(x, bytes[..n]), Fnv(y, bytes[..n]), bytes[n]);
      FnvIsInjectiveInSeed(x, y, bytes[..n]);
    }
  }

  /** Two byte strings of one length that differ in exactly one place never collide. */
  lemma OneByteChangesHash(seed: bv64, a: seq<bv8>, b: seq<bv8>, at: nat)
    requires |a| == |b| && at < |a| && a[at] != b[at]
    requires forall k :: 0 <= k < |a| && k != at ==> a[k] == b[k]
    ensures Fnv(seed, a) != Fnv(seed, b)
  {
    assert a == a[..at + 1] + a[at + 1..] && b == b[..at + 1] + b[at + 1..];
    assert a[at + 1..] == b[at + 1..];
    assert a[..at + 1][..at] == a[..at] == b[..at] == b[..at + 1][..at];
    FnvSplit(seed, a[..at + 1], a[at + 1..]);
    FnvSplit(seed, b[..at + 1], b[at + 1..]);
    if Fnv(seed, a) == Fnv(seed, b) {
      FnvIsInjectiveInSeed(Fnv(seed, a[..at + 1]), Fnv(seed, b[..at + 1]), a[at + 1..]);
      MixSeparatesBytes(Fnv(seed, a[..at]), a[at], b[at]);
    }
  }
}

/** Permutation keys: typed arguments, tagged and encoded, hashed as they come. */
module PermutationKeys {
  import opened Hashing

  const TAG_BOOL: bv8 := 0x01
  const TAG_INT: bv8 := 0x02
  const TAG_TYPE_ID: bv8 := 0x03
  const TAG_RAW: bv8 := 0x04

  /** An argument; an integer is given by its 64-bit two's complement word, a span by its bytes and
      the word that holds their number. */
  datatype Argument =
    | BoolArgument(flag: bool)
    | IntArgument(word: bv64)
    | TypeIdArgument(id: bv32)
    | RawArgument(bytes: seq<bv8>, size: bv64)

  predicate Encodable(a: Argument) {
    a.RawArgument? ==> a.size as nat == |a.bytes|
  }

  ghost predicate AllEncodable(args: seq<Argument>) {
    forall k :: 0 <= k < |args| ==> Encodable(args[k])
  }

  function Encode(a: Argument): (e: seq<bv8>)
    ensures |e| > 0
  {
    match a
    case BoolArgument(flag) => [TAG_BOOL, if flag then 0x01 else 0x00]
    case IntArgument(word) => [TAG_INT] + Le64(word)
    case TypeIdArgument(id) => [TAG_TYPE_ID] + Le32(id)
    case RawArgument(bytes, size) => [TAG_RAW] + Le64(size) + bytes
  }

  /** Every kind of argument has its own first byte and a length that does not depend on its value,
      except a span's, whose length stands in front of its bytes. */
  lemma EncodingsAreTagged(a: Argument)
    ensures match a
      case BoolArgument(flag) => Encode(a)[0] == 1 && Encode(a)[1..] == [if flag then 1 else 0]
      case IntArgument(word) => Encode(a)[0] == 2 && Encode(a)[1..] == Le64(word) && |Encode(a)| == 9
      case TypeIdArgument(id) => Encode(a)[0] == 3 && Encode(a)[1..] == Le32(id) && |Encode(a)| == 5
      case RawArgument(bytes, size) => Encode(a)[0] == 4 && Encode(a)[1..9] == Le64(size) && Encode(a)[9..] == bytes
  {
  }

  function EncodeAll(args: seq<Argument>): seq<bv8> {
    if args == [] then [] else Encode(args[0]) + EncodeAll(args[1..])
  }

  lemma {:induction false} EncodeAllSnoc(args: seq<Argument>, a: Argument)
    ensures EncodeAll(args + [a]) == EncodeAll(args) + Encode(a)
  {
    if args == [] {
      assert [a][1..] == [];
      assert args + [a] == [a];
    } else {
      assert (args + [a])[1..] == args[1..] + [a];
      EncodeAllSnoc(args[1..], a);
    }
  }

  class PermutationKeyBuilder {
    var hash: bv64
    ghost var args: seq<Argument>

    /** The key so far is the one-shot hash of everything pushed. */
    ghost predicate Valid()
      reads this
    {
      AllEncodable(args) && hash == Fnv(FNV1A64_OFFSET, EncodeAll(args))
    }

    constructor ()
      ensures Valid() && args == []
    {
      hash, args := FNV1A64_OFFSET, [];
    }

    /** Notes an argument whose bytes have just been mixed in. */
    ghost method Pushed(a: Argument)
      requires Encodable(a) && AllEncodable(args)
      requires hash == Fnv(Fnv(FNV1A64_OFFSET, EncodeAll(args)), Encode(a))
      modifies this`args
      ensures Valid() && args == old(args) + [a]
    {
      EncodeAllSnoc(args, a);
      FnvSplit(FNV1A64_OFFSET, EncodeAll(args), Encode(a));
      args := args + [a];
    }

    method AddBool(value: bool)
      requires Valid()
      modifies this
      ensures Valid() && args == old(args) + [BoolArgument(value)]
    {
      ghost var seed := hash;
      hash := MixU8(hash, TAG_BOOL);
      hash := MixU8(hash, if value then 0x01 else 0x00);
      FnvOfTwo(seed, Encode(BoolArgument(value)));
      Pushed(BoolArgument(value));
    }

    method AddInt(value: bv64)
      requires Valid()
      modifies this
      ensures Valid() && args == old(args) + [IntArgument(value)]
    {
      ghost var seed := hash;
      hash := MixU8(hash, TAG_INT);
      hash := MixU64(hash, value);
      TaggedHash(seed, TAG_INT, Le64(value));
      Pushed(IntArgument(value));
    }

    method AddTypeId(stableTypeId: bv32)
      requires Valid()
      modifies this
      ensures Valid() && args == old(args) + [TypeIdArgument(stableTypeId)]
    {
      ghost var seed := hash;
      hash := MixU8(hash, TAG_TYPE_ID);
      hash := MixU32(hash, stableTypeId);
      TaggedHash(seed, TAG_TYPE_ID, Le32(stableTypeId));
      Pushed(TypeIdArgument(stableTypeId));
    }

    method AddRaw(bytes: seq<bv8>, size: bv64)
      requires Valid() && size as nat == |bytes|
      modifies this
      ensures Valid() && args == old(args) + [RawArgument(bytes, size)]
    {
      ghost var seed := hash;
      MixHeader(size);
      if bytes != [] {
        hash := Fnv1a64(bytes, hash);
      }
      FnvSplit(seed, [TAG_RAW] + Le64(size), bytes);
      Pushed(RawArgument(bytes, size));
    }

    method MixHeader(size: bv64)
      modifies this`hash
      ensures hash == Fnv(old(hash), [TAG_RAW] + Le64(size))
    {
      ghost var seed := hash;
      hash := MixU8(hash, TAG_RAW);
      hash := MixU64(hash, size);
      TaggedHash(seed, TAG_RAW, Le64(size));
    }

    method Finalize() returns (key: bv64)
      requires Valid()
      ensures key == Key(args)
    {
      key := hash;
    }
  }

  lemma TaggedHash(seed: bv64, tag: bv8, payload: seq<bv8>)
    ensures Fnv(seed, [tag] + payload) == Fnv(MixU8(seed, tag), payload)
  {
    FnvSplit(seed, [tag], payload);
    assert [tag][..0] == [];
  }

  lemma FnvOfTwo(seed: bv64, b: seq<bv8>)
    requires |b| == 2
    ensures Fnv(seed, b) == MixU8(MixU8(seed, b[0]), b[1])
  {
    assert b[..1][..0] == [];
    assert Fnv(seed, b[..1]) == MixU8(Fnv(seed, []), b[0]);
  }

  // ---------------------------------------------------------------- the encoding

  lemma SameHeads<T>(a: seq<T>, s: seq<T>, b: seq<T>, t: seq<T>)
    requires |a| == |b| && a + s == b + t
    ensures a == b && s == t
  {
    assert (a + s)[..|a|] == a && (b + t)[..|b|] == b;
    assert (a + s)[|a|..] == s && (b + t)[|b|..] == t;
  }

  /** An encoding followed by anything can be told apart: no encoding is a prefix of another. */
  lemma EncodeIsPrefixFree(a: Argument, b: Argument, s: seq<bv8>, t: seq<bv8>)
    requires Encodable(a) && Encodable(b) && Encode(a) + s == Encode(b) + t
    ensures a == b && s == t
  {
    assert (Encode(a) + s)[0] == Encode(a)[0] && (Encode(b) + t)[0] == Encode(b)[0];
    match a {
      case RawArgument(bytes, size) => RawIsPrefixFree(a, b, s, t);
      case _ =>
        SameHeads(Encode(a), s, Encode(b), t);
        EncodeIsInjective(a, b);
    }
  }

  lemma EncodeIsInjective(a: Argument, b: Argument)
    requires !a.RawArgument? && !b.RawArgument? && Encode(a) == Encode(b) && Encode(a)[0] == Encode(b)[0]
    ensures a == b
  {
    match a {
      case BoolArgument(f) => assert Encode(a)[1] == Encode(b)[1];
      case IntArgument(w) =>
        SameHeads([TAG_INT], Le64(w), [TAG_INT], Le64(b.word));
        Le64Injective(w, b.word);
      case TypeIdArgument(id) =>
        SameHeads([TAG_TYPE_ID], Le32(id), [TAG_TYPE_ID], Le32(b.id));
        Le32Injective(id, b.id);
    }
  }

  lemma HeaderSplits(tag: bv8, l: seq<bv8>, x: seq<bv8>, s: seq<bv8>, m: seq<bv8>, y: seq<bv8>, t: seq<bv8>)
    requires |l| == |m| && [tag] + l + x + s == [tag] + m + y + t
    ensures l == m && x + s == y + t
  {
    assert [tag] + l + x + s == ([tag] + l) + (x + s) && [tag] + m + y + t == ([tag] + m) + (y + t);
    SameHeads([tag] + l, x + s, [tag] + m, y + t);
    SameHeads([tag], l, [tag], m);
  }

  lemma SizesMatch(a: Argument, b: Argument)
    requires a.RawArgument? && b.RawArgument? && Encodable(a) && Encodable(b) && a.size == b.size
    ensures |a.bytes| == |b.bytes|
  {
  }

  lemma RawIsPrefixFree(a: Argument, b: Argument, s: seq<bv8>, t: seq<bv8>)
    requires a.RawArgument? && b.RawArgument? && Encodable(a) && Encodable(b) && Encode(a) + s == Encode(b) + t
    ensures a == b && s == t
  {
    HeaderSplits(TAG_RAW, Le64(a.size), a.bytes, s, Le64(b.size), b.bytes, t);
    assert a.size == b.size by { Le64Injective(a.size, b.size); }
    SizesMatch(a, b);
    SameHeads(a.bytes, s, b.bytes, t);
  }

  /** The encoding loses nothing: different argument lists have different encodings, so two lists
      share a key only if their encodings collide under the hash. */
  lemma {:induction false} EncodingIsInjective(a: seq<Argument>, b: seq<Argument>)
    requires AllEncodable(a) && AllEncodable(b) && EncodeAll(a) == EncodeAll(b)
    ensures a == b
    decreases |a|
  {
    if a != [] && b != [] {
      EncodeIsPrefixFree(a[0], b[0], EncodeAll(a[1..]), EncodeAll(b[1..]));
      EncodingIsInjective(a[1..], b[1..]);
    }
  }

  function Key(args: seq<Argument>): bv64 {
    Fnv(FNV1A64_OFFSET, EncodeAll(args))
  }

  /** Two argument lists whose encodings have one length and differ in one byte never share a key. */
  lemma OneByteChangesKey(a: seq<Argument>, b: seq<Argument>, at: nat)
    requires |EncodeAll(a)| == |EncodeAll(b)| && at < |EncodeAll(a)| && EncodeAll(a)[at] != EncodeAll(b)[at]
    requires forall k :: 0 <= k < |EncodeAll(a)| && k != at ==> EncodeAll(a)[k] == EncodeAll(b)[k]
    ensures Key(a) != Key(b)
  {
    OneByteChangesHash(FNV1A64_OFFSET, EncodeAll(a), EncodeAll(b), at);
  }

  lemma {:induction false} EncodeAllSplit(a: seq<Argument>, b: seq<Argument>)
    ensures EncodeAll(a + b) == EncodeAll(a) + EncodeAll(b)
  {
    if a == [] {
      assert a + b == b;
    } else {
      assert (a + b)[1..] == a[1..] + b;
      EncodeAllSplit(a[1..], b);
    }
  }

  /** In particular the two settings of any one flag have different keys, whatever is pushed around it. */
  lemma FlagChangesKey(before: seq<Argument>, after: seq<Argument>)
    ensures Key(before + [BoolArgument(true)] + after) != Key(before + [BoolArgument(false)] + after)
  {
    FlagEncoding(before, after, true);
    FlagEncoding(before, after, false);
    SecondByteChangesHash(EncodeAll(before), EncodeAll(after), TAG_BOOL, 0x01, 0x00);
  }

  lemma SecondByteChangesHash(s: seq<bv8>, t: seq<bv8>, tag: bv8, b: bv8, c: bv8)
    requires b != c
    ensures Fnv(FNV1A64_OFFSET, s + [tag, b] + t) != Fnv(FNV1A64_OFFSET, s + [tag, c] + t)
  {
    OneByteChangesHash(FNV1A64_OFFSET, s + [tag, b] + t, s + [tag, c] + t, |s| + 1);
  }

  lemma FlagEncoding(before: seq<Argument>, after: seq<Argument>, flag: bool)
    ensures EncodeAll(before + [BoolArgument(flag)] + after)
      == EncodeAll(before) + [TAG_BOOL, if flag then 0x01 else 0x00] + EncodeAll(after)
  {
    var arg := [BoolArgument(flag)];
    assert arg[1..] == [];
    EncodeAllSplit(before, arg);
    EncodeAllSplit(before + arg, after);
    assert EncodeAll(arg) == [TAG_BOOL, if flag then 0x01 else 0x00];
  }
}

/** Which bytes are no precompiled chunk. */
module ChunkErrors {
  import opened Limits
  import opened Chunks
  import opened ChunkFormat

  /** A stream that does not begin with the header of this machine is refused. */
  lemma HeaderChecked(s: Bytes, depth: nat, check: Proto -> bool)
    ensures |s| < 12 ==> Decode(s, depth, check) == Fail(UnexpectedEnd)
    ensures |s| >= 12 && s[..12] != [0x1B, 'L' as int, 'u' as int, 'a' as int, 0x51, 0, 1, 4, 8, 4, 8, 0] ==>
              Decode(s, depth, check) == Fail(BadHeader)
  {
  }

  /** A count must not be negative. */
  lemma CountChecked(u: Word32, tail: Bytes)
    ensures DecodeInt(Four(u) + tail) == if u >= 0x8000_0000 then Fail(BadInteger) else Got(u, tail)
  {
    FourBytes(u);
    BlockBack(EncodeWord(u), tail);
    WordBack(u);
  }

  /** Only four types can be constants. */
  lemma TagChecked(t: Byte, tail: Bytes)
    ensures t != 0 && t != 1 && t != 3 && t != 4 ==> DecodeConstant([t] + tail) == Fail(BadConstant)
  {
  }

  // ---- chunks that are cut short ----

  /** The first `k` bytes fail with an unexpected end, or decode to the same value if they are enough for it. */
  ghost predicate CutAt<T>(decode: Bytes -> Parse<T>, s: Bytes, k: nat) {
    k <= |s| && decode(s).Got? ==>
      var rest := decode(s).rest;
      && |rest| <= |s|
      && decode(s[..k]) == if k + |rest| < |s| then Fail(UnexpectedEnd) else Got(decode(s).v, rest[..k + |rest| - |s|])
  }

  lemma BlockCut(s: Bytes, n: nat, k: nat)
    ensures CutAt(x => DecodeBlock(x, n), s, k)
  {
    if n <= k <= |s| {
      assert s[..k][..n] == s[..n] && s[..k][n..] == s[n..][..k - n];
    }
  }

  lemma ByteCut(s: Bytes, k: nat)
    ensures CutAt(DecodeByte, s, k)
  {
    if 0 < k <= |s| {
      assert s[..k][1..] == s[1..][..k - 1];
    }
  }

  lemma IntCut(s: Bytes, k: nat)
    ensures CutAt(DecodeInt, s, k)
  {
    hide Word;
    BlockCut(s, 4, k);
  }

  lemma NameCut(s: Bytes, k: nat)
    ensures CutAt(DecodeName, s, k)
  {
    hide FromLittleEndian;
    BlockCut(s, 8, k);
    if 8 <= k <= |s| {
      BlockCut(s[8..], FromLittleEndian(s[..8]), k - 8);
    }
  }

  /** How many of the first `k` bytes of `s` are left when `rest` is left of `s`. */
  function Left(s: Bytes, k: nat, rest: Bytes): nat {
    if |s| <= k + |rest| then k + |rest| - |s| else 0
  }

  lemma ConstantCut(s: Bytes, k: nat)
    ensures CutAt(DecodeConstant, s, k)
  {
    hide DecodeName;
    ByteCut(s, k);
    if s != [] && k <= |s| {
      var k1 := if k > 0 then k - 1 else 0;
      if k > 0 {
        assert s[..k][0] == s[0];
      }
      ByteCut(s[1..], k1);
      BlockCut(s[1..], 8, k1);
      NameCut(s[1..], k1);
    }
  }

  lemma LocVarCut(s: Bytes, k: nat)
    ensures CutAt(DecodeLocVar, s, k)
  {
    hide DecodeName;
    hide DecodeInt;
    if k <= |s| && DecodeLocVar(s).Got? {
      NameCut(s, k);
      var n, s1 := DecodeName(s).v, DecodeName(s).rest;
      var k1 := Left(s, k, s1);
      IntCut(s1, k1);
      var s2 := DecodeInt(s1).rest;
      IntCut(s2, Left(s1, k1, s2));
    }
  }

  lemma HeadCut(s: Bytes, parent: Name, k: nat)
    ensures CutAt(x => DecodeHead(x, parent), s, k)
  {
    hide DecodeName;
    hide DecodeInt;
    if k <= |s| && DecodeHead(s, parent).Got? {
      NameCut(s, k);
      var s1 := DecodeName(s).rest;
      var k1 := Left(s, k, s1);
      IntCut(s1, k1);
      var s2 := DecodeInt(s1).rest;
      var k2 := Left(s1, k1, s2);
      IntCut(s2, k2);
      var s3 := DecodeInt(s2).rest;
      BlockCut(s3, 4, Left(s2, k2, s3));
    }
  }

  lemma CodeCut(s: Bytes, k: nat)
    ensures CutAt(DecodeCode, s, k)
  {
    hide DecodeInt;
    hide Words;
    if k <= |s| && DecodeCode(s).Got? {
      IntCut(s, k);
      var s1 := DecodeInt(s).rest;
      BlockCut(s1, DecodeInt(s).v * 4, Left(s, k, s1));
    }
  }

  lemma {:induction false} ManyCut<T(!new)>(decode: Bytes -> Parse<T>, s: Bytes, n: nat, k: nat)
    requires forall x, i :: CutAt(decode, x, i)
    ensures CutAt(x => DecodeMany(decode, x, n), s, k)
    decreases n
  {
    if n > 0 && k <= |s| && DecodeMany(decode, s, n).Got? {
      assert CutAt(decode, s, k);
      var s1 := decode(s).rest;
      ManyCut(decode, s1, n - 1, Left(s, k, s1));
    }
  }

  lemma CountedCut<T(!new)>(decode: Bytes -> Parse<T>, s: Bytes, k: nat)
    requires forall x, i :: CutAt(decode, x, i)
    ensures CutAt(x => DecodeCounted(decode, x), s, k)
  {
    hide DecodeInt;
    if k <= |s| && DecodeCounted(decode, s).Got? {
      IntCut(s, k);
      var s1 := DecodeInt(s).rest;
      ManyCut(decode, s1, DecodeInt(s).v, Left(s, k, s1));
    }
  }

  lemma DebugCut(s: Bytes, k: nat)
    ensures CutAt(DecodeDebug, s, k)
  {
    hide DecodeCode;
    hide DecodeCounted;
    hide DecodeLocVar;
    hide DecodeName;
    if k <= |s| && DecodeDebug(s).Got? {
      CodeCut(s, k);
      var s1 := DecodeCode(s).rest;
      var k1 := Left(s, k, s1);
      forall x, i
        ensures CutAt(DecodeLocVar, x, i) && CutAt(DecodeName, x, i)
      {
        LocVarCut(x, i);
        NameCut(x, i);
      }
      CountedCut(DecodeLocVar, s1, k1);
      var s2 := DecodeCounted(DecodeLocVar, s1).rest;
      CountedCut(DecodeName, s2, Left(s1, k1, s2));
    }
  }

  lemma {:induction false} FunctionCut(s: Bytes, parent: Name, depth: nat, check: Proto -> bool, k: nat)
    ensures CutAt(x => DecodeFunction(x, parent, depth, check), s, k)
    decreases LUAI_MAXCCALLS - depth, 0, 1
  {
    hide DecodeHead;
    hide DecodeCode;
    hide DecodeCounted;
    hide DecodeConstant;
    hide DecodeNested;
    hide DecodeDebug;
    if k <= |s| && DecodeFunction(s, parent, depth, check).Got? {
      HeadCut(s, parent, k);
      var s1 := DecodeHead(s, parent).rest;
      var k1 := Left(s, k, s1);
      CodeCut(s1, k1);
      var s2 := DecodeCode(s1).rest;
      var k2 := Left(s1, k1, s2);
      forall x, i
        ensures CutAt(DecodeConstant, x, i)
      {
        ConstantCut(x, i);
      }
      CountedCut(DecodeConstant, s2, k2);
      var s3 := DecodeCounted(DecodeConstant, s2).rest;
      var k3 := Left(s2, k2, s3);
      var source := DecodeHead(s, parent).v.source;
      NestedCut(s3, source, depth + 1, check, k3);
      var s4 := DecodeNested(s3, source, depth + 1, check).rest;
      DebugCut(s4, Left(s3, k3, s4));
    }
  }

  lemma {:induction false} NestedCut(s: Bytes, source: Name, depth: nat, check: Proto -> bool, k: nat)
    requires depth <= LUAI_MAXCCALLS
    ensures CutAt(x => DecodeNested(x, source, depth, check), s, k)
    decreases LUAI_MAXCCALLS - depth, 1, 0
  {
    hide DecodeInt;
    hide DecodeFunctions;
    if k <= |s| && DecodeNested(s, source, depth, check).Got? {
      IntCut(s, k);
      var s1 := DecodeInt(s).rest;
      FunctionsCut(s1, DecodeInt(s).v, source, depth, check, Left(s, k, s1));
    }
  }

  lemma {:induction false} FunctionsCut(s: Bytes, n: nat, source: Name, depth: nat, check: Proto -> bool, k: nat)
    requires depth <= LUAI_MAXCCALLS
    ensures CutAt(x => DecodeFunctions(x, n, source, depth, check), s, k)
    decreases LUAI_MAXCCALLS - depth, 0, n + 2
  {
    hide DecodeFunction;
    if n > 0 && k <= |s| && DecodeFunctions(s, n, source, depth, check).Got? {
      FunctionCut(s, source, depth, check, k);
      var s1 := DecodeFunction(s, source, depth, check).rest;
      FunctionsCut(s1, n - 1, source, depth, check, Left(s, k, s1));
    }
  }

  /** A chunk that is cut short is refused for that reason; what follows a chunk does not matter. */
  lemma CutShort(s: Bytes, depth: nat, check: Proto -> bool, k: nat)
    requires k <= |s| && Decode(s, depth, check).Got?
    ensures |Decode(s, depth, check).rest| <= |s|
    ensures var r := Decode(s, depth, check);
      Decode(s[..k], depth, check) == if k + |r.rest| < |s| then Fail(UnexpectedEnd) else Got(r.v, r.rest[..k + |r.rest| - |s|])
  {
    hide DecodeFunction;
    BlockCut(s, LUAC_HEADERSIZE, k);
    var s1 := s[LUAC_HEADERSIZE..];
    FunctionCut(s1, DEFAULT_SOURCE, depth, check, Left(s, k, s1));
  }

  /** No dumped chunk can lose its end unnoticed. */
  lemma DumpedCutShort(f: Proto, strip: bool, depth: nat, check: Proto -> bool, k: nat)
    requires Fits(f) && NonNegative(f) && depth + Nesting(f) <= LUAI_MAXCCALLS
    requires Accepted(Restored(f, Null, DEFAULT_SOURCE, strip), check) && k < |Encode(f, strip)|
    ensures Decode(Encode(f, strip)[..k], depth, check) == Fail(UnexpectedEnd)
  {
    hide Encode;
    hide Decode;
    hide Restored;
    hide Accepted;
    hide Nesting;
    RoundTrip(f, strip, depth, check);
    CutShort(Encode(f, strip), depth, check, k);
  }
}

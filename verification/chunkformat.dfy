/** The bytes of a precompiled chunk, written down without the functions that write them. */
module ChunkFormat {
  import opened Limits
  import opened Chunks

  /** The byte number `i` of a number whose low-order byte comes first. */
  lemma {:induction false} ByteAt(u: nat, n: nat, i: nat)
    requires i < n
    ensures LittleEndian(u, n)[i] == u / Power256(i) % 256
  {
    if i > 0 {
      ByteAt(u / 256, n - 1, i - 1);
      DivideTwice(u, Power256(i - 1));
    }
  }

  lemma DivideTwice(u: nat, k: nat)
    requires k > 0
    ensures u / 256 / k == u / (256 * k)
  {
    var a, r := u / 256, u % 256;
    var q, s := a / k, a % k;
    assert u == 256 * (k * q + s) + r == (256 * k) * q + (256 * s + r);
    assert 256 * s + r < 256 * k;
    Quotient(u, 256 * k, q, 256 * s + r);
  }

  lemma Quotient(u: nat, d: nat, q: nat, r: nat)
    requires u == d * q + r && r < d
    ensures u / d == q
  {
    var e := u / d - q;
    assert d * (u / d) == d * q + d * e;
    Multiple(d, e);
  }

  lemma Multiple(d: int, e: int)
    requires d >= 0
    ensures e >= 1 ==> d * e >= d
    ensures e <= -1 ==> d * e <= -d
  {
  }

  function Four(u: nat): Bytes {
    [u % 256, u / 256 % 256, u / 0x1_0000 % 256, u / 0x100_0000 % 256]
  }

  lemma FourBytes(u: Word32)
    ensures EncodeWord(u) == Four(u)
  {
    assert Power256(1) == 256 && Power256(2) == 0x1_0000 && Power256(3) == 0x100_0000;
    ByteAt(u, 4, 0);
    ByteAt(u, 4, 1);
    ByteAt(u, 4, 2);
    ByteAt(u, 4, 3);
  }

  /** A size of less than 2^32. */
  lemma EightBytes(u: Word32)
    ensures LittleEndian(u, 8) == Four(u) + [0, 0, 0, 0]
  {
    LowHalf(u, 8);
    FourBytes(u);
    assert LittleEndian(0, 4) == [0, 0, 0, 0];
  }

  lemma LowHalf(u: Word32, n: nat)
    requires n == 8
    ensures LittleEndian(u, n) == LittleEndian(u, 4) + LittleEndian(0, 4)
  {
    var a := u / 256;
    var b := a / 256;
    var c := b / 256;
    assert c / 256 == 0;
    assert LittleEndian(u, 8) == [u % 256] + LittleEndian(a, 7);
    assert LittleEndian(a, 7) == [a % 256] + LittleEndian(b, 6);
    assert LittleEndian(b, 6) == [b % 256] + LittleEndian(c, 5);
    assert LittleEndian(c, 5) == [c % 256] + LittleEndian(0, 4);
    assert LittleEndian(u, 4) == [u % 256] + LittleEndian(a, 3);
    assert LittleEndian(a, 3) == [a % 256] + LittleEndian(b, 2);
    assert LittleEndian(b, 2) == [b % 256] + LittleEndian(c, 1);
    assert LittleEndian(c, 1) == [c % 256] + LittleEndian(0, 0);
  }

  /** The signature, the version, the format, and the sizes of a 64-bit little-endian machine. */
  lemma HeaderBytes(f: Proto, strip: bool)
    requires Fits(f)
    ensures |Encode(f, strip)| > 12 && Encode(f, strip)[..12] == [0x1B, 'L' as int, 'u' as int, 'a' as int, 0x51, 0, 1, 4, 8, 4, 8, 0]
  {
    hide EncodeFunction;
    EncodeNotEmpty(f, Null, strip);
  }

  lemma EncodeNotEmpty(f: Proto, parent: Name, strip: bool)
    requires Fits(f)
    ensures EncodeFunction(f, parent, strip) != []
  {
    hide EncodeConstants;
    hide EncodeWords;
    hide EncodeFunctions;
    hide EncodeDebug;
    hide EncodeName;
  }

  lemma StringBytes(s: Bytes)
    requires |s| + 1 < TWO32
    ensures NameFits(Str(s)) && EncodeName(Str(s)) == Four(|s| + 1) + [0, 0, 0, 0] + s + [0]
    ensures EncodeName(Null) == [0, 0, 0, 0, 0, 0, 0, 0]
  {
    EightBytes(|s| + 1);
    EightBytes(0);
  }

  /** The tags of the constants are the numbers of their types. */
  lemma ConstantBytes(b: bool, n: Number, s: Bytes)
    requires |s| + 1 < TWO32
    ensures EncodeConstant(KNil) == [0]
    ensures EncodeConstant(KBoolean(b)) == [1, if b then 1 else 0]
    ensures EncodeConstant(KNumber(n)) == [3] + n
    ensures NameFits(Str(s)) && EncodeConstant(KString(Str(s))) == [4] + (Four(|s| + 1) + [0, 0, 0, 0] + s + [0])
  {
    StringBytes(s);
  }

  /** The bytes of a function without constants, nested functions and debug data, and with one instruction. */
  lemma SmallFunction(f: Proto, source: Bytes)
    requires f == Proto(Str(source), f.linedefined, f.lastlinedefined, f.nups, f.numparams, f.isVararg, f.maxstacksize, f.code, [], [], [], [], [])
    requires |source| + 1 < TWO32 && f.linedefined >= 0 && f.lastlinedefined >= 0 && |f.code| == 1
    ensures Fits(f)
    ensures EncodeFunction(f, Null, false) ==
            Four(|source| + 1) + [0, 0, 0, 0] + source + [0]
            + Four(f.linedefined) + Four(f.lastlinedefined) + [f.nups, f.numparams, f.isVararg, f.maxstacksize]
            + Four(1) + Four(f.code[0])
            + Four(0) + Four(0) + Four(0) + Four(0) + Four(0)
  {
    hide EncodeInt;
    hide EncodeName;
    hide EncodeWord;
    hide Four;
    StringBytes(source);
    IntBytes(f.linedefined);
    IntBytes(f.lastlinedefined);
    IntBytes(1);
    IntBytes(0);
    FourBytes(f.code[0]);
    assert EncodeWords(f.code) == EncodeWord(f.code[0]) by {
      assert f.code[1..] == [];
    }
    assert EncodeFunctions(f, 0, false) == [] && EncodeConstants(f.k) == [];
    assert EncodeDebug(f, false) == Four(0) + Four(0) + Four(0);
    hide EncodeWords;
    hide EncodeDebug;
    hide EncodeConstants;
    hide EncodeFunctions;
  }

  lemma IntBytes(x: Int32)
    requires x >= 0
    ensures EncodeInt(x) == Four(x)
  {
    FourBytes(x);
  }

  /** The source name of a chunk that comes without one is `=?`. */
  lemma DefaultName(f: Proto, depth: nat, check: Proto -> bool)
    requires Fits(f) && NonNegative(f) && depth + Nesting(f) <= LUAI_MAXCCALLS && Accepted(Restored(f, Null, DEFAULT_SOURCE, true), check)
    ensures var r := Decode(Encode(f, true), depth, check); r.Got? && r.v.source == Str(['=' as int, '?' as int])
  {
    RoundTrip(f, true, depth, check);
    hide Decode;
    hide Encode;
    hide Accepted;
    hide RestoredFrom;
  }
}

/** Precompiled chunks: prototypes, their binary form, and its inverse. */
module Chunks {
  import opened Limits

  const TWO32 := 0x1_0000_0000
  const TWO64 := 0x1_0000_0000_0000_0000

  type Word32 = n: int | 0 <= n < TWO32

  /** The memory image of a lua_Number. */
  type Number = b: Bytes | |b| == 8 witness [0, 0, 0, 0, 0, 0, 0, 0]

  /** A TString pointer, which may be NULL. */
  datatype Name = Null | Str(s: Bytes)

  datatype Constant = KNil | KBoolean(b: bool) | KNumber(n: Number) | KString(s: Name)

  datatype LocVar = LocVar(varname: Name, startpc: Int32, endpc: Int32)

  datatype Proto = Proto(
    source: Name, linedefined: Int32, lastlinedefined: Int32,
    nups: Byte, numparams: Byte, isVararg: Byte, maxstacksize: Byte,
    code: seq<Word32>, k: seq<Constant>, p: seq<Proto>,
    lineinfo: seq<Int32>, locvars: seq<LocVar>, upvalues: seq<Name>)

  datatype Error = UnexpectedEnd | BadInteger | BadConstant | CodeTooDeep | BadCode | BadHeader

  datatype Parse<T> = Got(v: T, rest: Bytes) | Fail(e: Error)

  const LUA_TNIL: Byte := 0
  const LUA_TBOOLEAN: Byte := 1
  const LUA_TNUMBER: Byte := 3
  const LUA_TSTRING: Byte := 4

  const LUAC_HEADERSIZE := 12

  /** luaU_header, for a little-endian machine with 4-byte ints and instructions, 8-byte sizes and doubles. */
  const HEADER: Bytes := [27, 76, 117, 97, 0x51, 0, 1, 4, 8, 4, 8, 0]

  // ---- integers in memory ----

  function Power256(n: nat): (r: nat)
    ensures r > 0
  {
    if n == 0 then 1 else 256 * Power256(n - 1)
  }

  function LittleEndian(u: nat, n: nat): (b: Bytes)
    ensures |b| == n
  {
    if n == 0 then [] else [u % 256] + LittleEndian(u / 256, n - 1)
  }

  function FromLittleEndian(b: Bytes): nat {
    if b == [] then 0 else b[0] + 256 * FromLittleEndian(b[1..])
  }

  lemma {:induction false} LittleEndianBack(u: nat, n: nat)
    requires u < Power256(n)
    ensures FromLittleEndian(LittleEndian(u, n)) == u
  {
    if n > 0 {
      LittleEndianBack(u / 256, n - 1);
      assert LittleEndian(u, n)[1..] == LittleEndian(u / 256, n - 1);
    }
  }

  lemma {:induction false} FromLittleEndianLess(b: Bytes)
    ensures FromLittleEndian(b) < Power256(|b|)
  {
    if b != [] {
      FromLittleEndianLess(b[1..]);
    }
  }

  lemma Powers()
    ensures Power256(4) == TWO32 && Power256(8) == TWO64
  {
    assert Power256(2) == 65536;
    assert Power256(4) == TWO32;
    assert Power256(6) == 0x1_0000_0000_0000;
  }

  /** Two's complement. */
  function Unsigned(x: Int32): Word32 {
    if x < 0 then x + TWO32 else x
  }

  function Signed(u: Word32): Int32 {
    if u > MAX_INT then u - TWO32 else u
  }

  function Word(b: Bytes): Word32
    requires |b| == 4
  {
    FromLittleEndianLess(b);
    Powers();
    FromLittleEndian(b)
  }

  function EncodeWord(u: Word32): (b: Bytes)
    ensures |b| == 4
  {
    LittleEndian(u, 4)
  }

  function EncodeInt(x: Int32): (b: Bytes)
    ensures |b| == 4
  {
    EncodeWord(Unsigned(x))
  }

  lemma WordBack(u: Word32)
    ensures Word(EncodeWord(u)) == u
  {
    Powers();
    LittleEndianBack(u, 4);
  }

  lemma IntBack(x: Int32)
    ensures Signed(Word(EncodeInt(x))) == x
  {
    WordBack(Unsigned(x));
  }

  function EncodeWords(ws: seq<Word32>): (b: Bytes)
    ensures |b| == 4 * |ws|
  {
    if ws == [] then [] else EncodeWord(ws[0]) + EncodeWords(ws[1..])
  }

  function Words(b: Bytes): (ws: seq<Word32>)
    requires |b| % 4 == 0
    ensures |ws| == |b| / 4
  {
    if b == [] then [] else [Word(b[..4])] + Words(b[4..])
  }

  lemma {:induction false} WordsBack(ws: seq<Word32>)
    ensures Words(EncodeWords(ws)) == ws
  {
    if ws != [] {
      WordsBack(ws[1..]);
      WordBack(ws[0]);
      var b := EncodeWords(ws);
      assert b[..4] == EncodeWord(ws[0]) && b[4..] == EncodeWords(ws[1..]);
    }
  }

  function AllUnsigned(xs: seq<Int32>): (ws: seq<Word32>)
    ensures |ws| == |xs|
  {
    seq(|xs|, i requires 0 <= i < |xs| => Unsigned(xs[i]))
  }

  function AllSigned(ws: seq<Word32>): (xs: seq<Int32>)
    ensures |xs| == |ws|
  {
    seq(|ws|, i requires 0 <= i < |ws| => Signed(ws[i]))
  }

  // ---- what luaU_dump writes ----

  function EncodeName(n: Name): Bytes
    requires NameFits(n)
  {
    match n
    case Null => LittleEndian(0, 8)
    case Str(s) => LittleEndian(|s| + 1, 8) + s + [0]
  }

  predicate NameFits(n: Name) {
    n.Str? ==> |n.s| + 1 < TWO64
  }

  predicate ConstantFits(c: Constant) {
    c.KString? ==> NameFits(c.s)
  }

  function EncodeConstant(c: Constant): Bytes
    requires ConstantFits(c)
  {
    match c
    case KNil => [LUA_TNIL]
    case KBoolean(b) => [LUA_TBOOLEAN, if b then 1 else 0]
    case KNumber(n) => [LUA_TNUMBER] + n
    case KString(s) => [LUA_TSTRING] + EncodeName(s)
  }

  function EncodeConstants(cs: seq<Constant>): Bytes
    requires forall i :: 0 <= i < |cs| ==> ConstantFits(cs[i])
  {
    if cs == [] then [] else EncodeConstant(cs[0]) + EncodeConstants(cs[1..])
  }

  function EncodeLocVar(v: LocVar): Bytes
    requires NameFits(v.varname)
  {
    EncodeName(v.varname) + EncodeInt(v.startpc) + EncodeInt(v.endpc)
  }

  function EncodeLocVars(vs: seq<LocVar>): Bytes
    requires forall i :: 0 <= i < |vs| ==> NameFits(vs[i].varname)
  {
    if vs == [] then [] else EncodeLocVar(vs[0]) + EncodeLocVars(vs[1..])
  }

  function EncodeNames(ns: seq<Name>): Bytes
    requires forall i :: 0 <= i < |ns| ==> NameFits(ns[i])
  {
    if ns == [] then [] else EncodeName(ns[0]) + EncodeNames(ns[1..])
  }

  /** Sizes fit into ints, and string sizes into size_t. */
  predicate Fits(f: Proto) {
    && NameFits(f.source)
    && |f.code| <= MAX_INT && |f.k| <= MAX_INT && |f.p| <= MAX_INT
    && |f.lineinfo| <= MAX_INT && |f.locvars| <= MAX_INT && |f.upvalues| <= MAX_INT
    && (forall i :: 0 <= i < |f.k| ==> ConstantFits(f.k[i]))
    && (forall i :: 0 <= i < |f.locvars| ==> NameFits(f.locvars[i].varname))
    && (forall i :: 0 <= i < |f.upvalues| ==> NameFits(f.upvalues[i]))
    && (forall i :: 0 <= i < |f.p| ==> Fits(f.p[i]))
  }

  function EncodeDebug(f: Proto, strip: bool): Bytes
    requires Fits(f)
  {
    if strip then EncodeInt(0) + EncodeInt(0) + EncodeInt(0)
    else
      EncodeInt(|f.lineinfo|) + EncodeWords(AllUnsigned(f.lineinfo))
      + EncodeInt(|f.locvars|) + EncodeLocVars(f.locvars)
      + EncodeInt(|f.upvalues|) + EncodeNames(f.upvalues)
  }

  function WrittenSource(f: Proto, parent: Name, strip: bool): Name {
    if f.source == parent || strip then Null else f.source
  }

  function EncodeFunction(f: Proto, parent: Name, strip: bool): Bytes
    requires Fits(f)
    decreases f, 1
  {
    EncodeHead(f, parent, strip)
    + EncodeInt(|f.code|) + EncodeWords(f.code)
    + EncodeInt(|f.k|) + EncodeConstants(f.k)
    + EncodeInt(|f.p|) + EncodeFunctions(f, 0, strip)
    + EncodeDebug(f, strip)
  }

  function EncodeHead(f: Proto, parent: Name, strip: bool): Bytes
    requires Fits(f)
  {
    EncodeName(WrittenSource(f, parent, strip)) + EncodeInt(f.linedefined) + EncodeInt(f.lastlinedefined)
    + [f.nups, f.numparams, f.isVararg, f.maxstacksize]
  }

  /** The prototypes from number `i` on. */
  function EncodeFunctions(f: Proto, i: nat, strip: bool): Bytes
    requires Fits(f) && i <= |f.p|
    decreases f, 0, |f.p| - i
  {
    if i == |f.p| then [] else EncodeFunction(f.p[i], f.source, strip) + EncodeFunctions(f, i + 1, strip)
  }

  function Encode(f: Proto, strip: bool): Bytes
    requires Fits(f)
  {
    HEADER + EncodeFunction(f, Null, strip)
  }

  // ---- what luaU_undump makes of any bytes ----

  function DecodeBlock(s: Bytes, n: nat): Parse<Bytes> {
    if |s| < n then Fail(UnexpectedEnd) else Got(s[..n], s[n..])
  }

  function DecodeByte(s: Bytes): Parse<Byte> {
    if s == [] then Fail(UnexpectedEnd) else Got(s[0], s[1..])
  }

  /** LoadInt: negative numbers are errors. */
  function DecodeInt(s: Bytes): (r: Parse<Int32>)
    ensures r.Got? ==> r.v >= 0
  {
    match DecodeBlock(s, 4)
    case Fail(e) => Fail(e)
    case Got(b, rest) => if Signed(Word(b)) < 0 then Fail(BadInteger) else Got(Signed(Word(b)), rest)
  }

  function DecodeName(s: Bytes): Parse<Name> {
    match DecodeBlock(s, 8)
    case Fail(e) => Fail(e)
    case Got(b, rest) =>
      var size := FromLittleEndian(b);
      if size == 0 then Got(Null, rest)
      else
        match DecodeBlock(rest, size)
        case Fail(e) => Fail(e)
        case Got(t, rest1) => Got(Str(t[..size - 1]), rest1)
  }

  function DecodeWords(s: Bytes, n: nat): Parse<seq<Word32>> {
    match DecodeBlock(s, n * 4)
    case Fail(e) => Fail(e)
    case Got(b, rest) => Got(Words(b), rest)
  }

  function DecodeConstant(s: Bytes): Parse<Constant> {
    match DecodeByte(s)
    case Fail(e) => Fail(e)
    case Got(t, rest) =>
      if t == LUA_TNIL then Got(KNil, rest)
      else if t == LUA_TBOOLEAN then (match DecodeByte(rest) case Fail(e) => Fail(e) case Got(b, rest1) => Got(KBoolean(b != 0), rest1))
      else if t == LUA_TNUMBER then (match DecodeBlock(rest, 8) case Fail(e) => Fail(e) case Got(b, rest1) => Got(KNumber(b), rest1))
      else if t == LUA_TSTRING then (match DecodeName(rest) case Fail(e) => Fail(e) case Got(n, rest1) => Got(KString(n), rest1))
      else Fail(BadConstant)
  }

  function DecodeLocVar(s: Bytes): Parse<LocVar> {
    match DecodeName(s)
    case Fail(e) => Fail(e)
    case Got(n, rest) =>
      match DecodeInt(rest)
      case Fail(e) => Fail(e)
      case Got(a, rest1) =>
        match DecodeInt(rest1)
        case Fail(e) => Fail(e)
        case Got(b, rest2) => Got(LocVar(n, a, b), rest2)
  }

  /** `n` items, one after the other. */
  function DecodeMany<T>(decode: Bytes -> Parse<T>, s: Bytes, n: nat): Parse<seq<T>>
    decreases n
  {
    if n == 0 then Got([], s)
    else
      match decode(s)
      case Fail(e) => Fail(e)
      case Got(x, rest) => Before([x], DecodeMany(decode, rest, n - 1))
  }

  /** The items `xs` stand in front of those that were read. */
  function Before<T>(xs: seq<T>, p: Parse<seq<T>>): Parse<seq<T>> {
    match p
    case Fail(e) => Fail(e)
    case Got(ys, rest) => Got(xs + ys, rest)
  }

  datatype Head = Head(source: Name, linedefined: Int32, lastlinedefined: Int32, bytes: Bytes)

  function DecodeHead(s: Bytes, parent: Name): (r: Parse<Head>)
    ensures r.Got? ==> |r.v.bytes| == 4
  {
    match DecodeName(s)
    case Fail(e) => Fail(e)
    case Got(n, s1) =>
      match DecodeInt(s1)
      case Fail(e) => Fail(e)
      case Got(a, s2) =>
        match DecodeInt(s2)
        case Fail(e) => Fail(e)
        case Got(b, s3) =>
          match DecodeBlock(s3, 4)
          case Fail(e) => Fail(e)
          case Got(bs, s4) => Got(Head(if n == Null then parent else n, a, b, bs), s4)
  }

  function DecodeCode(s: Bytes): Parse<seq<Word32>> {
    match DecodeInt(s)
    case Fail(e) => Fail(e)
    case Got(n, rest) => DecodeWords(rest, n)
  }

  function DecodeCounted<T>(decode: Bytes -> Parse<T>, s: Bytes): Parse<seq<T>> {
    match DecodeInt(s)
    case Fail(e) => Fail(e)
    case Got(n, rest) => DecodeMany(decode, rest, n)
  }

  datatype Debug = Debug(lineinfo: seq<Int32>, locvars: seq<LocVar>, upvalues: seq<Name>)

  function DecodeDebug(s: Bytes): Parse<Debug> {
    match DecodeCode(s)
    case Fail(e) => Fail(e)
    case Got(ls, s1) =>
      match DecodeCounted(DecodeLocVar, s1)
      case Fail(e) => Fail(e)
      case Got(vs, s2) =>
        match DecodeCounted(DecodeName, s2)
        case Fail(e) => Fail(e)
        case Got(us, s3) => Got(Debug(AllSigned(ls), vs, us), s3)
  }

  /** LoadFunction; `depth` is nCcalls before the call, and `check` is luaG_checkcode. */
  function DecodeFunction(s: Bytes, parent: Name, depth: nat, check: Proto -> bool): Parse<Proto>
    decreases LUAI_MAXCCALLS - depth, 0, 1
  {
    if depth + 1 > LUAI_MAXCCALLS then Fail(CodeTooDeep)
    else
      match DecodeHead(s, parent)
      case Fail(e) => Fail(e)
      case Got(h, s1) =>
        match DecodeCode(s1)
        case Fail(e) => Fail(e)
        case Got(code, s2) =>
          match DecodeCounted(DecodeConstant, s2)
          case Fail(e) => Fail(e)
          case Got(ks, s3) =>
            match DecodeNested(s3, h.source, depth + 1, check)
            case Fail(e) => Fail(e)
            case Got(ps, s4) =>
              match DecodeDebug(s4)
              case Fail(e) => Fail(e)
              case Got(d, s5) =>
                var f := Assemble(h, code, ks, ps, d);
                if check(f) then Got(f, s5) else Fail(BadCode)
  }

  function Assemble(h: Head, code: seq<Word32>, ks: seq<Constant>, ps: seq<Proto>, d: Debug): Proto
    requires |h.bytes| == 4
  {
    Proto(h.source, h.linedefined, h.lastlinedefined, h.bytes[0], h.bytes[1], h.bytes[2], h.bytes[3],
      code, ks, ps, d.lineinfo, d.locvars, d.upvalues)
  }

  function DecodeNested(s: Bytes, source: Name, depth: nat, check: Proto -> bool): Parse<seq<Proto>>
    requires depth <= LUAI_MAXCCALLS
    decreases LUAI_MAXCCALLS - depth, 1, 0
  {
    match DecodeInt(s)
    case Fail(e) => Fail(e)
    case Got(n, rest) => DecodeFunctions(rest, n, source, depth, check)
  }

  function DecodeFunctions(s: Bytes, n: nat, source: Name, depth: nat, check: Proto -> bool): Parse<seq<Proto>>
    requires depth <= LUAI_MAXCCALLS
    decreases LUAI_MAXCCALLS - depth, 0, n + 2
  {
    if n == 0 then Got([], s)
    else
      match DecodeFunction(s, source, depth, check)
      case Fail(e) => Fail(e)
      case Got(f, rest) => Before([f], DecodeFunctions(rest, n - 1, source, depth, check))
  }

  const DEFAULT_SOURCE: Name := Str(['=' as int, '?' as int])

  function Decode(s: Bytes, depth: nat, check: Proto -> bool): Parse<Proto> {
    match DecodeBlock(s, LUAC_HEADERSIZE)
    case Fail(e) => Fail(e)
    case Got(h, rest) => if h != HEADER then Fail(BadHeader) else DecodeFunction(rest, DEFAULT_SOURCE, depth, check)
  }

  // ---- the round trip ----

  lemma BlockBack(b: Bytes, tail: Bytes)
    ensures DecodeBlock(b + tail, |b|) == Got(b, tail)
  {
    assert (b + tail)[..|b|] == b && (b + tail)[|b|..] == tail;
  }

  lemma IntBackIn(x: Int32, tail: Bytes)
    requires x >= 0
    ensures DecodeInt(EncodeInt(x) + tail) == Got(x, tail)
  {
    BlockBack(EncodeInt(x), tail);
    IntBack(x);
  }

  lemma NameBack(n: Name, tail: Bytes)
    requires NameFits(n)
    ensures DecodeName(EncodeName(n) + tail) == Got(n, tail)
  {
    Powers();
    match n
    case Null =>
      BlockBack(LittleEndian(0, 8), tail);
      LittleEndianBack(0, 8);
    case Str(s) =>
      var text := s + [0];
      LittleEndianBack(|s| + 1, 8);
      assert EncodeName(n) + tail == LittleEndian(|s| + 1, 8) + (text + tail);
      BlockBack(LittleEndian(|s| + 1, 8), text + tail);
      BlockBack(text, tail);
      assert text[..|s|] == s;
  }

  lemma WordsBackIn(ws: seq<Word32>, tail: Bytes)
    requires |ws| <= MAX_INT
    ensures DecodeCode(EncodeInt(|ws|) + EncodeWords(ws) + tail) == Got(ws, tail)
  {
    hide EncodeInt;
    hide EncodeWords;
    hide Words;
    hide DecodeInt;
    assert EncodeInt(|ws|) + EncodeWords(ws) + tail == EncodeInt(|ws|) + (EncodeWords(ws) + tail);
    IntBackIn(|ws|, EncodeWords(ws) + tail);
    BlockBack(EncodeWords(ws), tail);
    WordsBack(ws);
  }

  lemma SignedBack(xs: seq<Int32>)
    ensures AllSigned(AllUnsigned(xs)) == xs
  {
  }

  lemma ConstantBack(c: Constant, tail: Bytes)
    requires ConstantFits(c)
    ensures DecodeConstant(EncodeConstant(c) + tail) == Got(c, tail)
  {
    hide DecodeName;
    hide EncodeName;
    var s := EncodeConstant(c) + tail;
    match c
    case KNil =>
      assert s[1..] == tail;
    case KBoolean(b) =>
      assert s[1..][1..] == tail;
    case KNumber(n) =>
      assert s[1..] == n + tail;
      BlockBack(n, tail);
    case KString(n) =>
      assert s[1..] == EncodeName(n) + tail;
      NameBack(n, tail);
  }

  lemma NoneLeft<T>(decode: Bytes -> Parse<T>, s: Bytes)
    ensures DecodeMany(decode, s, 0) == Got([], s)
  {
  }

  lemma ManyStep<T>(decode: Bytes -> Parse<T>, s: Bytes, xs: seq<T>, rest: Bytes, tail: Bytes)
    requires xs != [] && decode(s) == Got(xs[0], rest) && DecodeMany(decode, rest, |xs| - 1) == Got(xs[1..], tail)
    ensures DecodeMany(decode, s, |xs|) == Got(xs, tail)
  {
    assert [xs[0]] + xs[1..] == xs;
  }

  lemma {:induction false} ConstantsBack(cs: seq<Constant>, tail: Bytes)
    requires forall i :: 0 <= i < |cs| ==> ConstantFits(cs[i])
    ensures DecodeMany(DecodeConstant, EncodeConstants(cs) + tail, |cs|) == Got(cs, tail)
  {
    hide EncodeConstant;
    hide DecodeConstant;
    hide DecodeMany;
    if cs == [] {
      assert EncodeConstants(cs) + tail == tail;
      NoneLeft(DecodeConstant, tail);
    } else {
      var rest := EncodeConstants(cs[1..]) + tail;
      assert EncodeConstants(cs) + tail == EncodeConstant(cs[0]) + rest;
      ConstantBack(cs[0], rest);
      ConstantsBack(cs[1..], tail);
      ManyStep(DecodeConstant, EncodeConstants(cs) + tail, cs, rest, tail);
    }
  }

  lemma LocVarBack(v: LocVar, tail: Bytes)
    requires NameFits(v.varname) && v.startpc >= 0 && v.endpc >= 0
    ensures DecodeLocVar(EncodeLocVar(v) + tail) == Got(v, tail)
  {
    var s2 := EncodeInt(v.endpc) + tail;
    var s1 := EncodeInt(v.startpc) + s2;
    assert EncodeLocVar(v) + tail == EncodeName(v.varname) + s1;
    NameBack(v.varname, s1);
    IntBackIn(v.startpc, s2);
    IntBackIn(v.endpc, tail);
  }

  lemma {:induction false} LocVarsBack(vs: seq<LocVar>, tail: Bytes)
    requires forall i :: 0 <= i < |vs| ==> NameFits(vs[i].varname) && vs[i].startpc >= 0 && vs[i].endpc >= 0
    ensures DecodeMany(DecodeLocVar, EncodeLocVars(vs) + tail, |vs|) == Got(vs, tail)
  {
    hide EncodeLocVar;
    hide DecodeLocVar;
    hide DecodeMany;
    if vs == [] {
      assert EncodeLocVars(vs) + tail == tail;
      NoneLeft(DecodeLocVar, tail);
    } else {
      var rest := EncodeLocVars(vs[1..]) + tail;
      assert EncodeLocVars(vs) + tail == EncodeLocVar(vs[0]) + rest;
      LocVarBack(vs[0], rest);
      LocVarsBack(vs[1..], tail);
      ManyStep(DecodeLocVar, EncodeLocVars(vs) + tail, vs, rest, tail);
    }
  }

  lemma {:induction false} NamesBack(ns: seq<Name>, tail: Bytes)
    requires forall i :: 0 <= i < |ns| ==> NameFits(ns[i])
    ensures DecodeMany(DecodeName, EncodeNames(ns) + tail, |ns|) == Got(ns, tail)
  {
    hide EncodeName;
    hide DecodeName;
    hide DecodeMany;
    if ns == [] {
      assert EncodeNames(ns) + tail == tail;
      NoneLeft(DecodeName, tail);
    } else {
      var rest := EncodeNames(ns[1..]) + tail;
      assert EncodeNames(ns) + tail == EncodeName(ns[0]) + rest;
      NameBack(ns[0], rest);
      NamesBack(ns[1..], tail);
      ManyStep(DecodeName, EncodeNames(ns) + tail, ns, rest, tail);
    }
  }

  lemma CountedBack<T>(decode: Bytes -> Parse<T>, xs: seq<T>, body: Bytes, tail: Bytes)
    requires |xs| <= MAX_INT && DecodeMany(decode, body + tail, |xs|) == Got(xs, tail)
    ensures DecodeCounted(decode, EncodeInt(|xs|) + body + tail) == Got(xs, tail)
  {
    assert EncodeInt(|xs|) + body + tail == EncodeInt(|xs|) + (body + tail);
    IntBackIn(|xs|, body + tail);
  }

  /** The counts that LoadInt reads back must not be negative. */
  predicate NonNegative(f: Proto) {
    && f.linedefined >= 0 && f.lastlinedefined >= 0
    && (forall i :: 0 <= i < |f.locvars| ==> f.locvars[i].startpc >= 0 && f.locvars[i].endpc >= 0)
    && (forall i :: 0 <= i < |f.p| ==> NonNegative(f.p[i]))
  }

  /** How deep prototypes are nested. */
  function Nesting(f: Proto): nat
    decreases f, 1
  {
    1 + NestingFrom(f, 0)
  }

  function NestingFrom(f: Proto, i: nat): nat
    requires i <= |f.p|
    decreases f, 0, |f.p| - i
  {
    if i == |f.p| then 0 else Max(Nesting(f.p[i]), NestingFrom(f, i + 1))
  }

  /** What comes back: a stripped chunk has no debug data and no source names but the inherited one. */
  function Restored(f: Proto, parent: Name, inherited: Name, strip: bool): (r: Proto)
    decreases f, 1
  {
    var source := if WrittenSource(f, parent, strip) == Null then inherited else f.source;
    Proto(source, f.linedefined, f.lastlinedefined, f.nups, f.numparams, f.isVararg, f.maxstacksize, f.code, f.k,
      RestoredFrom(f, 0, source, strip), if strip then [] else f.lineinfo, if strip then [] else f.locvars, if strip then [] else f.upvalues)
  }

  function RestoredFrom(f: Proto, i: nat, inherited: Name, strip: bool): (r: seq<Proto>)
    requires i <= |f.p|
    ensures |r| == |f.p| - i
    decreases f, 0, |f.p| - i
  {
    if i == |f.p| then [] else [Restored(f.p[i], f.source, inherited, strip)] + RestoredFrom(f, i + 1, inherited, strip)
  }

  /** luaG_checkcode accepts the prototype and all that are nested in it. */
  predicate Accepted(f: Proto, check: Proto -> bool) {
    check(f) && forall i :: 0 <= i < |f.p| ==> Accepted(f.p[i], check)
  }

  lemma HeadBack(f: Proto, parent: Name, inherited: Name, strip: bool, tail: Bytes)
    requires Fits(f) && f.linedefined >= 0 && f.lastlinedefined >= 0
    ensures var r := Restored(f, parent, inherited, strip);
      DecodeHead(EncodeHead(f, parent, strip) + tail, inherited)
        == Got(Head(r.source, f.linedefined, f.lastlinedefined, [f.nups, f.numparams, f.isVararg, f.maxstacksize]), tail)
  {
    var bytes := [f.nups, f.numparams, f.isVararg, f.maxstacksize];
    var s3 := bytes + tail;
    var s2 := EncodeInt(f.lastlinedefined) + s3;
    var s1 := EncodeInt(f.linedefined) + s2;
    var n := WrittenSource(f, parent, strip);
    assert EncodeHead(f, parent, strip) + tail == EncodeName(n) + s1;
    NameBack(n, s1);
    IntBackIn(f.linedefined, s2);
    IntBackIn(f.lastlinedefined, s3);
    BlockBack(bytes, tail);
  }

  lemma NothingEncoded()
    ensures EncodeWords([]) == EncodeLocVars([]) == EncodeNames([]) == []
  {
  }

  lemma DebugJoined(f: Proto, strip: bool, tail: Bytes, ls: seq<Int32>, vs: seq<LocVar>, us: seq<Name>)
    requires Fits(f) && |ls| <= MAX_INT && |vs| <= MAX_INT && |us| <= MAX_INT
    requires ls == (if strip then [] else f.lineinfo) && vs == (if strip then [] else f.locvars) && us == (if strip then [] else f.upvalues)
    ensures EncodeDebug(f, strip) + tail ==
            EncodeInt(|ls|) + EncodeWords(AllUnsigned(ls))
              + (EncodeInt(|vs|) + EncodeLocVars(vs) + (EncodeInt(|us|) + EncodeNames(us) + tail))
  {
    hide EncodeInt;
    NothingEncoded();
    hide EncodeWords;
    hide EncodeLocVars;
    hide EncodeNames;
    if strip {
      assert ls == [] && vs == [] && us == [] && AllUnsigned(ls) == [];
    }
  }

  lemma DebugBack(f: Proto, strip: bool, tail: Bytes)
    requires Fits(f) && NonNegative(f)
    ensures DecodeDebug(EncodeDebug(f, strip) + tail)
      == Got(Debug(if strip then [] else f.lineinfo, if strip then [] else f.locvars, if strip then [] else f.upvalues), tail)
  {
    var ls, vs, us := if strip then [] else f.lineinfo, if strip then [] else f.locvars, if strip then [] else f.upvalues;
    var s2 := EncodeInt(|us|) + EncodeNames(us) + tail;
    var s1 := EncodeInt(|vs|) + EncodeLocVars(vs) + s2;
    var ws := AllUnsigned(ls);
    DebugJoined(f, strip, tail, ls, vs, us);
    hide EncodeDebug;
    hide EncodeInt;
    hide EncodeWords;
    hide EncodeLocVars;
    hide EncodeNames;
    hide DecodeCode;
    hide DecodeCounted;
    hide DecodeMany;
    hide AllSigned;
    hide AllUnsigned;
    WordsBackIn(ws, s1);
    SignedBack(ls);
    LocVarsBack(vs, s2);
    CountedBack(DecodeLocVar, vs, EncodeLocVars(vs), s2);
    NamesBack(us, tail);
    CountedBack(DecodeName, us, EncodeNames(us), tail);
  }

  lemma FunctionJoined(f: Proto, parent: Name, strip: bool, tail: Bytes)
    requires Fits(f)
    ensures EncodeFunction(f, parent, strip) + tail ==
            EncodeHead(f, parent, strip) + (EncodeInt(|f.code|) + EncodeWords(f.code)
              + (EncodeInt(|f.k|) + EncodeConstants(f.k) + (EncodeInt(|f.p|) + EncodeFunctions(f, 0, strip) + (EncodeDebug(f, strip) + tail))))
  {
    hide EncodeHead;
    hide EncodeInt;
    hide EncodeWords;
    hide EncodeConstants;
    hide EncodeFunctions;
    hide EncodeDebug;
  }

  /** Undumping what was dumped rebuilds the prototype and all that are nested in it, exactly if they are not
      nested too deep. */
  lemma {:induction false} FunctionBack(f: Proto, parent: Name, inherited: Name, strip: bool, depth: nat, check: Proto -> bool, tail: Bytes)
    requires Fits(f) && NonNegative(f) && depth <= LUAI_MAXCCALLS && Accepted(Restored(f, parent, inherited, strip), check)
    ensures DecodeFunction(EncodeFunction(f, parent, strip) + tail, inherited, depth, check) ==
            if depth + Nesting(f) <= LUAI_MAXCCALLS then Got(Restored(f, parent, inherited, strip), tail) else Fail(CodeTooDeep)
    decreases f, 1
  {
    hide EncodeHead;
    hide EncodeDebug;
    hide EncodeConstants;
    hide EncodeWords;
    hide EncodeInt;
    hide EncodeFunctions;
    hide DecodeHead;
    hide DecodeCode;
    hide DecodeCounted;
    hide DecodeDebug;
    hide DecodeInt;
    hide DecodeFunctions;
    hide DecodeMany;
    hide NestingFrom;
    hide RestoredFrom;
    if depth == LUAI_MAXCCALLS {
      return;
    }
    var r := Restored(f, parent, inherited, strip);
    var s4 := EncodeDebug(f, strip) + tail;
    var s3 := EncodeInt(|f.p|) + EncodeFunctions(f, 0, strip) + s4;
    var s2 := EncodeInt(|f.k|) + EncodeConstants(f.k) + s3;
    var s1 := EncodeInt(|f.code|) + EncodeWords(f.code) + s2;
    FunctionJoined(f, parent, strip, tail);
    hide EncodeFunction;
    HeadBack(f, parent, inherited, strip, s1);
    WordsBackIn(f.code, s2);
    ConstantsBack(f.k, s3);
    CountedBack(DecodeConstant, f.k, EncodeConstants(f.k), s3);
    assert r.p == RestoredFrom(f, 0, r.source, strip);
    FunctionsBack(f, 0, r.source, strip, depth + 1, check, s4);
    assert s3 == EncodeInt(|f.p|) + (EncodeFunctions(f, 0, strip) + s4);
    IntBackIn(|f.p|, EncodeFunctions(f, 0, strip) + s4);
    DebugBack(f, strip, tail);
  }

  lemma {:induction false} FunctionsBack(f: Proto, i: nat, inherited: Name, strip: bool, depth: nat, check: Proto -> bool, tail: Bytes)
    requires Fits(f) && NonNegative(f) && i <= |f.p| && depth <= LUAI_MAXCCALLS
    requires forall j :: 0 <= j < |RestoredFrom(f, i, inherited, strip)| ==> Accepted(RestoredFrom(f, i, inherited, strip)[j], check)
    ensures DecodeFunctions(EncodeFunctions(f, i, strip) + tail, |f.p| - i, inherited, depth, check) ==
            if depth + NestingFrom(f, i) <= LUAI_MAXCCALLS then Got(RestoredFrom(f, i, inherited, strip), tail) else Fail(CodeTooDeep)
    decreases f, 0, |f.p| - i
  {
    hide EncodeFunction;
    hide DecodeFunction;
    hide Restored;
    if i == |f.p| {
      assert EncodeFunctions(f, i, strip) + tail == tail;
    } else {
      var rest := EncodeFunctions(f, i + 1, strip) + tail;
      var rs, later := RestoredFrom(f, i, inherited, strip), RestoredFrom(f, i + 1, inherited, strip);
      assert EncodeFunctions(f, i, strip) + tail == EncodeFunction(f.p[i], f.source, strip) + rest;
      assert rs[0] == Restored(f.p[i], f.source, inherited, strip);
      assert forall j :: 0 <= j < |later| ==> later[j] == rs[j + 1];
      FunctionBack(f.p[i], f.source, inherited, strip, depth, check, rest);
      FunctionsBack(f, i + 1, inherited, strip, depth, check, tail);
    }
  }

  /** The whole chunk comes back, exactly if its prototypes are not nested too deep. */
  lemma RoundTrip(f: Proto, strip: bool, depth: nat, check: Proto -> bool)
    requires Fits(f) && NonNegative(f) && depth <= LUAI_MAXCCALLS
    requires Accepted(Restored(f, Null, DEFAULT_SOURCE, strip), check)
    ensures Decode(Encode(f, strip), depth, check) ==
            if depth + Nesting(f) <= LUAI_MAXCCALLS then Got(Restored(f, Null, DEFAULT_SOURCE, strip), []) else Fail(CodeTooDeep)
  {
    BlockBack(HEADER, EncodeFunction(f, Null, strip));
    assert EncodeFunction(f, Null, strip) + [] == EncodeFunction(f, Null, strip);
    FunctionBack(f, Null, DEFAULT_SOURCE, strip, depth, check, []);
  }

  /** All source names are known. */
  predicate Sourced(f: Proto) {
    f.source != Null && forall i :: 0 <= i < |f.p| ==> Sourced(f.p[i])
  }

  /** Without strip, the tree that comes back is equal, inherited source names included. */
  lemma {:induction false} RestoredSame(f: Proto, parent: Name, inherited: Name)
    requires Sourced(f) && (parent == Null || parent == inherited)
    ensures Restored(f, parent, inherited, false) == f
    decreases f, 1
  {
    RestoredFromSame(f, 0);
  }

  lemma {:induction false} RestoredFromSame(f: Proto, i: nat)
    requires Sourced(f) && i <= |f.p|
    ensures RestoredFrom(f, i, f.source, false) == f.p[i..]
    decreases f, 0, |f.p| - i
  {
    if i < |f.p| {
      RestoredSame(f.p[i], f.source, f.source);
      RestoredFromSame(f, i + 1);
    }
  }

  /** With strip, every prototype has the default source name and no debug data, and everything else is equal. */
  predicate StrippedFrom(r: Proto, f: Proto, source: Name) {
    && r == f.(source := source, p := r.p, lineinfo := [], locvars := [], upvalues := [])
    && |r.p| == |f.p| && forall i :: 0 <= i < |f.p| ==> StrippedFrom(r.p[i], f.p[i], source)
  }

  lemma {:induction false} RestoredStripped(f: Proto, parent: Name, inherited: Name)
    ensures StrippedFrom(Restored(f, parent, inherited, true), f, inherited)
    decreases f, 1
  {
    var r := Restored(f, parent, inherited, true);
    RestoredFromStripped(f, 0, inherited);
    forall j | 0 <= j < |f.p|
      ensures StrippedFrom(r.p[j], f.p[j], inherited)
    {
      assert r.p[j] == RestoredFrom(f, 0, inherited, true)[j];
    }
  }

  lemma {:induction false} RestoredFromStripped(f: Proto, i: nat, inherited: Name)
    requires i <= |f.p|
    ensures forall j :: i <= j < |f.p| ==> StrippedFrom(RestoredFrom(f, i, inherited, true)[j - i], f.p[j], inherited)
    decreases f, 0, |f.p| - i
  {
    if i < |f.p| {
      RestoredStripped(f.p[i], f.source, inherited);
      RestoredFromStripped(f, i + 1, inherited);
      forall j | i < j < |f.p|
        ensures StrippedFrom(RestoredFrom(f, i, inherited, true)[j - i], f.p[j], inherited)
      {
        assert RestoredFrom(f, i, inherited, true)[j - i] == RestoredFrom(f, i + 1, inherited, true)[j - (i + 1)];
      }
    }
  }
}

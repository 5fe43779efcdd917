/** lzio.c and lundump.c: reading a precompiled chunk from a stream that delivers blocks of any sizes. */
module Undumper {
  import opened Limits
  import opened Chunks
  import opened Wrappers

  /** What the stream delivers: an empty block ends it. */
  function Flat(blocks: seq<Bytes>): Bytes {
    if blocks == [] || blocks[0] == [] then [] else blocks[0] + Flat(blocks[1..])
  }

  class Zio {
    /** What the reader has still to deliver. */
    var blocks: seq<Bytes>
    /** The current block, of which `n` bytes from `p` on have not been read. */
    var buf: Bytes
    var p: nat
    var n: nat

    ghost predicate Valid()
      reads this
    {
      p + n == |buf|
    }

    /** The bytes that have not been read. */
    ghost function Rest(): Bytes
      requires Valid()
      reads this
    {
      buf[p..] + Flat(blocks)
    }

    constructor (input: seq<Bytes>)
      ensures Valid() && Rest() == Flat(input)
    {
      blocks, buf, p, n := input, [], 0, 0;
    }

    /** luaZ_fill: the first byte of the next block. */
    method Fill() returns (c: int)
      requires Valid() && n == 0
      modifies this
      ensures Valid() && (c == EOZ <==> old(Rest()) == [])
      ensures c != EOZ ==> 0 <= c < 256 && p == 1 && [c] + Rest() == old(Rest()) && buf[0] == c
    {
      assert buf[p..] == [];
      if blocks == [] {
        return EOZ;
      }
      var b := blocks[0];
      blocks := blocks[1..];
      if b == [] {
        return EOZ;
      }
      buf, n, p := b, |b| - 1, 1;
      c := b[0];
      assert b == [c] + b[1..];
    }

    /** luaZ_lookahead. */
    method LookAhead() returns (c: int)
      requires Valid()
      modifies this
      ensures Valid() && (c == EOZ <==> old(Rest()) == [])
      ensures c != EOZ ==> n > 0 && Rest() == old(Rest()) && c == buf[p]
    {
      if n == 0 {
        c := Fill();
        if c == EOZ {
          return;
        }
        n := n + 1;
        p := p - 1;
        assert buf[0..] == [buf[0]] + buf[1..];
      }
      c := buf[p];
    }

    /** The next `m` bytes of the current block. */
    method Take(m: nat) returns (part: Bytes)
      requires Valid() && m <= n
      modifies this`p, this`n
      ensures Valid() && n == old(n) - m && |part| == m && part + Rest() == old(Rest())
    {
      hide Flat;
      part := buf[p..p + m];
      assert buf[p..] == part + buf[p + m..];
      p, n := p + m, n - m;
    }

    /** luaZ_read: `size` bytes, across block borders; `missing` is how many the stream did not have. */
    method Read(size: nat) returns (b: Bytes, missing: nat)
      requires Valid()
      modifies this
      ensures Valid() && missing == if |old(Rest())| >= size then 0 else size - |old(Rest())|
      ensures if missing == 0 then b == old(Rest())[..size] && Rest() == old(Rest())[size..] else b == old(Rest())
    {
      hide *;
      ghost var all := Rest();
      b := [];
      missing := size;
      while missing > 0
        invariant Valid() && |b| + missing == size && b + Rest() == all
        decreases missing
      {
        var c := LookAhead();
        if c == EOZ {
          return;
        }
        var m := if missing <= n then missing else n;
        var part := Take(m);
        b := b + part;
        missing := missing - m;
      }
    }
  }

  /** The result is what the bytes say, and the bytes that were not used are left. */
  ghost predicate Loaded<T>(r: Result<T, Error>, d: Parse<T>, rest: Bytes) {
    match d
    case Got(v, s) => r == Ok(v) && rest == s
    case Fail(e) => r == Err(e)
  }

  class LoadState {
    const z: Zio
    /** luaG_checkcode. */
    const check: Proto -> bool
    var nCcalls: nat

    ghost predicate Valid()
      reads this, z
    {
      z.Valid() && nCcalls <= LUAI_MAXCCALLS
    }

    constructor (stream: Zio, c: Proto -> bool, calls: nat)
      requires stream.Valid() && calls <= LUAI_MAXCCALLS
      ensures Valid() && z == stream && check == c && nCcalls == calls
    {
      z, check, nCcalls := stream, c, calls;
    }

    method LoadBlock(size: nat) returns (r: Result<Bytes, Error>)
      requires Valid()
      modifies z
      ensures Valid() && Loaded(r, DecodeBlock(old(z.Rest()), size), z.Rest())
    {
      var b, missing := z.Read(size);
      r := if missing != 0 then Err(UnexpectedEnd) else Ok(b);
    }

    method LoadByte() returns (r: Result<Byte, Error>)
      requires Valid()
      modifies z
      ensures Valid() && Loaded(r, DecodeByte(old(z.Rest())), z.Rest())
    {
      var b := LoadBlock(1);
      r := if b.Err? then Err(b.e) else Ok(b.v[0]);
    }

    method LoadInt() returns (r: Result<Int32, Error>)
      requires Valid()
      modifies z
      ensures Valid() && Loaded(r, DecodeInt(old(z.Rest())), z.Rest()) && (r.Ok? ==> r.v >= 0)
    {
      hide Word;
      var b := LoadBlock(4);
      if b.Err? {
        return Err(b.e);
      }
      var x := Signed(Word(b.v));
      r := if x < 0 then Err(BadInteger) else Ok(x);
    }

    method LoadString() returns (r: Result<Name, Error>)
      requires Valid()
      modifies z
      ensures Valid() && Loaded(r, DecodeName(old(z.Rest())), z.Rest())
    {
      hide FromLittleEndian;
      var b := LoadBlock(8);
      if b.Err? {
        return Err(b.e);
      }
      var size := FromLittleEndian(b.v);
      if size == 0 {
        return Ok(Null);
      }
      var t := LoadBlock(size);
      r := if t.Err? then Err(t.e) else Ok(Str(t.v[..size - 1]));
    }

    /** LoadCode, and the line numbers of LoadDebug. */
    method LoadCode() returns (r: Result<seq<Word32>, Error>)
      requires Valid()
      modifies z
      ensures Valid() && Loaded(r, DecodeCode(old(z.Rest())), z.Rest())
    {
      hide DecodeInt;
      hide Words;
      var n := LoadInt();
      if n.Err? {
        return Err(n.e);
      }
      var b := LoadBlock(n.v * 4);
      r := if b.Err? then Err(b.e) else Ok(Words(b.v));
    }

    method LoadConstant() returns (r: Result<Constant, Error>)
      requires Valid()
      modifies z
      ensures Valid() && Loaded(r, DecodeConstant(old(z.Rest())), z.Rest())
    {
      hide DecodeName;
      var t := LoadByte();
      if t.Err? {
        return Err(t.e);
      }
      if t.v == LUA_TNIL {
        r := Ok(KNil);
      } else if t.v == LUA_TBOOLEAN {
        var b := LoadByte();
        r := if b.Err? then Err(b.e) else Ok(KBoolean(b.v != 0));
      } else if t.v == LUA_TNUMBER {
        var b := LoadBlock(8);
        r := if b.Err? then Err(b.e) else Ok(KNumber(b.v));
      } else if t.v == LUA_TSTRING {
        var n := LoadString();
        r := if n.Err? then Err(n.e) else Ok(KString(n.v));
      } else {
        r := Err(BadConstant);
      }
    }

    method LoadLocVar() returns (r: Result<LocVar, Error>)
      requires Valid()
      modifies z
      ensures Valid() && Loaded(r, DecodeLocVar(old(z.Rest())), z.Rest())
    {
      hide DecodeName;
      hide DecodeInt;
      var n := LoadString();
      if n.Err? {
        return Err(n.e);
      }
      var a := LoadInt();
      if a.Err? {
        return Err(a.e);
      }
      var b := LoadInt();
      r := if b.Err? then Err(b.e) else Ok(LocVar(n.v, a.v, b.v));
    }

    /** The first loop of LoadConstants. */
    method LoadValues() returns (r: Result<seq<Constant>, Error>)
      requires Valid()
      modifies z
      ensures Valid() && Loaded(r, DecodeCounted(DecodeConstant, old(z.Rest())), z.Rest())
    {
      hide DecodeInt;
      hide DecodeConstant;
      hide DecodeMany;
      var n := LoadInt();
      if n.Err? {
        return Err(n.e);
      }
      ghost var s := z.Rest();
      var ks: seq<Constant> := [];
      BeforeNothing(DecodeMany(DecodeConstant, s, n.v));
      for i := 0 to n.v
        invariant Valid() && DecodeMany(DecodeConstant, s, n.v) == Before(ks, DecodeMany(DecodeConstant, z.Rest(), n.v - i))
      {
        ManyNext(DecodeConstant, z.Rest(), n.v - i, ks);
        var k := LoadConstant();
        if k.Err? {
          return Err(k.e);
        }
        ks := ks + [k.v];
      }
      ManyDone(DecodeConstant, z.Rest(), ks);
      r := Ok(ks);
    }

    method LoadLocVars() returns (r: Result<seq<LocVar>, Error>)
      requires Valid()
      modifies z
      ensures Valid() && Loaded(r, DecodeCounted(DecodeLocVar, old(z.Rest())), z.Rest())
    {
      hide DecodeInt;
      hide DecodeLocVar;
      hide DecodeMany;
      var n := LoadInt();
      if n.Err? {
        return Err(n.e);
      }
      ghost var s := z.Rest();
      var vs: seq<LocVar> := [];
      BeforeNothing(DecodeMany(DecodeLocVar, s, n.v));
      for i := 0 to n.v
        invariant Valid() && DecodeMany(DecodeLocVar, s, n.v) == Before(vs, DecodeMany(DecodeLocVar, z.Rest(), n.v - i))
      {
        ManyNext(DecodeLocVar, z.Rest(), n.v - i, vs);
        var v := LoadLocVar();
        if v.Err? {
          return Err(v.e);
        }
        vs := vs + [v.v];
      }
      ManyDone(DecodeLocVar, z.Rest(), vs);
      r := Ok(vs);
    }

    method LoadNames() returns (r: Result<seq<Name>, Error>)
      requires Valid()
      modifies z
      ensures Valid() && Loaded(r, DecodeCounted(DecodeName, old(z.Rest())), z.Rest())
    {
      hide DecodeInt;
      hide DecodeName;
      hide DecodeMany;
      var n := LoadInt();
      if n.Err? {
        return Err(n.e);
      }
      ghost var s := z.Rest();
      var us: seq<Name> := [];
      BeforeNothing(DecodeMany(DecodeName, s, n.v));
      for i := 0 to n.v
        invariant Valid() && DecodeMany(DecodeName, s, n.v) == Before(us, DecodeMany(DecodeName, z.Rest(), n.v - i))
      {
        ManyNext(DecodeName, z.Rest(), n.v - i, us);
        var u := LoadString();
        if u.Err? {
          return Err(u.e);
        }
        us := us + [u.v];
      }
      ManyDone(DecodeName, z.Rest(), us);
      r := Ok(us);
    }

    method LoadDebug() returns (r: Result<Debug, Error>)
      requires Valid()
      modifies z
      ensures Valid() && Loaded(r, DecodeDebug(old(z.Rest())), z.Rest())
    {
      hide DecodeCode;
      hide DecodeCounted;
      var ls := LoadCode();
      if ls.Err? {
        return Err(ls.e);
      }
      var vs := LoadLocVars();
      if vs.Err? {
        return Err(vs.e);
      }
      var us := LoadNames();
      r := if us.Err? then Err(us.e) else Ok(Debug(AllSigned(ls.v), vs.v, us.v));
    }

    /** The fields that LoadFunction reads first. */
    method LoadHead(p: Name) returns (r: Result<Head, Error>)
      requires Valid()
      modifies z
      ensures Valid() && Loaded(r, DecodeHead(old(z.Rest()), p), z.Rest()) && (r.Ok? ==> |r.v.bytes| == 4)
    {
      hide DecodeName;
      hide DecodeInt;
      var n := LoadString();
      if n.Err? {
        return Err(n.e);
      }
      var a := LoadInt();
      if a.Err? {
        return Err(a.e);
      }
      var b := LoadInt();
      if b.Err? {
        return Err(b.e);
      }
      var bs := LoadBlock(4);
      r := if bs.Err? then Err(bs.e) else Ok(Head(if n.v == Null then p else n.v, a.v, b.v, bs.v));
    }

    /** The second loop of LoadConstants. */
    method LoadNested(source: Name) returns (r: Result<seq<Proto>, Error>)
      requires Valid()
      modifies z, this
      ensures z.Valid() && Loaded(r, DecodeNested(old(z.Rest()), source, old(nCcalls), check), z.Rest()) && (r.Ok? ==> nCcalls == old(nCcalls))
      decreases LUAI_MAXCCALLS - nCcalls, 2
    {
      hide DecodeInt;
      hide DecodeFunctions;
      ghost var depth := nCcalls;
      var n := LoadInt();
      if n.Err? {
        return Err(n.e);
      }
      ghost var s := z.Rest();
      var ps: seq<Proto> := [];
      BeforeNothing(DecodeFunctions(s, n.v, source, depth, check));
      for i := 0 to n.v
        invariant Valid() && nCcalls == depth
        invariant DecodeFunctions(s, n.v, source, depth, check) == Before(ps, DecodeFunctions(z.Rest(), n.v - i, source, depth, check))
      {
        FunctionsNext(z.Rest(), n.v - i, source, depth, check, ps);
        var f := LoadFunction(source);
        if f.Err? {
          return Err(f.e);
        }
        ps := ps + [f.v];
      }
      FunctionsDone(z.Rest(), source, depth, check, ps);
      r := Ok(ps);
    }

    /** LoadFunction. */
    method LoadFunction(p: Name) returns (r: Result<Proto, Error>)
      requires Valid()
      modifies z, this
      ensures z.Valid() && Loaded(r, DecodeFunction(old(z.Rest()), p, old(nCcalls), check), z.Rest()) && (r.Ok? ==> nCcalls == old(nCcalls))
      decreases LUAI_MAXCCALLS - nCcalls, 1
    {
      hide DecodeHead;
      hide DecodeCode;
      hide DecodeCounted;
      hide DecodeNested;
      hide DecodeDebug;
      ghost var depth := nCcalls;
      nCcalls := nCcalls + 1;
      if nCcalls > LUAI_MAXCCALLS {
        return Err(CodeTooDeep);
      }
      var h := LoadHead(p);
      if h.Err? {
        return Err(h.e);
      }
      var code := LoadCode();
      if code.Err? {
        return Err(code.e);
      }
      var ks := LoadValues();
      if ks.Err? {
        return Err(ks.e);
      }
      var ps := LoadNested(h.v.source);
      if ps.Err? {
        return Err(ps.e);
      }
      var d := LoadDebug();
      if d.Err? {
        return Err(d.e);
      }
      var f := Assemble(h.v, code.v, ks.v, ps.v, d.v);
      if !check(f) {
        return Err(BadCode);
      }
      nCcalls := nCcalls - 1;
      r := Ok(f);
    }
  }

  lemma BeforeNothing<T>(d: Parse<seq<T>>)
    ensures Before([], d) == d
  {
    assert d.Got? ==> [] + d.v == d.v;
  }

  lemma ManyNext<T>(decode: Bytes -> Parse<T>, s: Bytes, n: nat, xs: seq<T>)
    requires n > 0
    ensures Before(xs, DecodeMany(decode, s, n)) ==
      match decode(s) { case Fail(e) => Fail(e) case Got(x, rest) => Before(xs + [x], DecodeMany(decode, rest, n - 1)) }
  {
    if decode(s).Got? {
      var d := DecodeMany(decode, decode(s).rest, n - 1);
      assert d.Got? ==> xs + ([decode(s).v] + d.v) == xs + [decode(s).v] + d.v;
    }
  }

  lemma ManyDone<T>(decode: Bytes -> Parse<T>, s: Bytes, xs: seq<T>)
    ensures Before(xs, DecodeMany(decode, s, 0)) == Got(xs, s)
  {
    assert xs + [] == xs;
  }

  lemma FunctionsNext(s: Bytes, n: nat, source: Name, depth: nat, check: Proto -> bool, xs: seq<Proto>)
    requires n > 0 && depth <= LUAI_MAXCCALLS
    ensures Before(xs, DecodeFunctions(s, n, source, depth, check)) ==
      match DecodeFunction(s, source, depth, check) { case Fail(e) => Fail(e) case Got(x, rest) => Before(xs + [x], DecodeFunctions(rest, n - 1, source, depth, check)) }
  {
    hide DecodeFunction;
    var r := DecodeFunction(s, source, depth, check);
    if r.Got? {
      var d := DecodeFunctions(r.rest, n - 1, source, depth, check);
      assert d.Got? ==> xs + ([r.v] + d.v) == xs + [r.v] + d.v;
    }
  }

  lemma FunctionsDone(s: Bytes, source: Name, depth: nat, check: Proto -> bool, xs: seq<Proto>)
    requires depth <= LUAI_MAXCCALLS
    ensures Before(xs, DecodeFunctions(s, 0, source, depth, check)) == Got(xs, s)
  {
    assert xs + [] == xs;
  }

  /** luaU_undump. */
  method Undump(blocks: seq<Bytes>, check: Proto -> bool, calls: nat) returns (r: Result<Proto, Error>)
    requires calls <= LUAI_MAXCCALLS
    ensures match Decode(Flat(blocks), calls, check) case Got(f, _) => r == Ok(f) case Fail(e) => r == Err(e)
  {
    hide DecodeFunction;
    var z := new Zio(blocks);
    var s := new LoadState(z, check, calls);
    var h := s.LoadBlock(LUAC_HEADERSIZE);
    if h.Err? {
      return Err(h.e);
    }
    if h.v != HEADER {
      return Err(BadHeader);
    }
    r := s.LoadFunction(DEFAULT_SOURCE);
  }

  predicate NonEmpty(blocks: seq<Bytes>) {
    forall i :: 0 <= i < |blocks| ==> blocks[i] != []
  }

  function Joined(blocks: seq<Bytes>): Bytes {
    if blocks == [] then [] else blocks[0] + Joined(blocks[1..])
  }

  lemma {:induction false} FlatIsJoined(blocks: seq<Bytes>)
    requires NonEmpty(blocks)
    ensures Flat(blocks) == Joined(blocks)
  {
    if blocks != [] {
      FlatIsJoined(blocks[1..]);
    }
  }

  /** A dumped chunk, cut into non-empty blocks in any way, is undumped to the same prototype; stripped, to the
      prototype without its debug data; and only too deep a nesting is an error. */
  method Reload(f: Proto, strip: bool, blocks: seq<Bytes>, check: Proto -> bool, calls: nat) returns (r: Result<Proto, Error>)
    requires Fits(f) && NonNegative(f) && calls <= LUAI_MAXCCALLS
    requires NonEmpty(blocks) && Joined(blocks) == Encode(f, strip)
    requires Accepted(Restored(f, Null, DEFAULT_SOURCE, strip), check)
    ensures calls + Nesting(f) > LUAI_MAXCCALLS <==> r == Err(CodeTooDeep)
    ensures calls + Nesting(f) <= LUAI_MAXCCALLS ==>
              r.Ok? && (!strip && Sourced(f) ==> r.v == f) && (strip ==> StrippedFrom(r.v, f, DEFAULT_SOURCE))
  {
    hide *;
    FlatIsJoined(blocks);
    RoundTrip(f, strip, calls, check);
    if strip {
      RestoredStripped(f, Null, DEFAULT_SOURCE);
    } else if Sourced(f) {
      RestoredSame(f, Null, DEFAULT_SOURCE);
    }
    r := Undump(blocks, check, calls);
  }
}

/** ldump.c: writing a precompiled chunk, block by block. */
module Dumper {
  import opened Limits
  import opened Chunks

  type Writer = (Bytes, Bytes) -> int

  /** From data `d0` and status `s0`, the bytes `b` were written until the writer answered an error, which is the
      status from then on. */
  ghost predicate Wrote(w: Writer, d0: Bytes, s0: int, d: Bytes, s: int, b: Bytes) {
    && (s == 0 ==> s0 == 0 && d == d0 + b)
    && (s0 != 0 ==> d == d0 && s == s0)
    && d0 <= d <= d0 + b
    && (s != 0 && s0 == 0 ==> exists block :: d + block <= d0 + b && w(d, block) == s)
  }

  lemma WroteBoth(w: Writer, d0: Bytes, s0: int, d1: Bytes, s1: int, d: Bytes, s: int, a: Bytes, b: Bytes)
    requires Wrote(w, d0, s0, d1, s1, a) && Wrote(w, d1, s1, d, s, b)
    ensures Wrote(w, d0, s0, d, s, a + b)
  {
    assert d0 + a + b == d0 + (a + b);
    assert d0 + a <= d0 + (a + b);
  }

  class DumpState {
    /** The status that the writer returns for a block, after the data that it has accepted. */
    const writer: Writer
    const strip: bool
    var data: Bytes
    var status: int

    constructor (w: Writer, stripped: bool)
      ensures writer == w && strip == stripped && data == [] && status == 0
    {
      writer, strip, data, status := w, stripped, [], 0;
    }

    /** DumpBlock: nothing is written after an error. */
    method DumpBlock(b: Bytes)
      modifies this
      ensures Wrote(writer, old(data), old(status), data, status, b)
    {
      if status == 0 {
        status := writer(data, b);
        if status == 0 {
          data := data + b;
        }
      }
    }

    method DumpChar(y: Byte)
      modifies this
      ensures Wrote(writer, old(data), old(status), data, status, [y])
    {
      DumpBlock([y]);
    }

    method DumpInt(x: Int32)
      modifies this
      ensures Wrote(writer, old(data), old(status), data, status, EncodeInt(x))
    {
      DumpBlock(EncodeInt(x));
    }

    method DumpSize(n: nat)
      modifies this
      ensures Wrote(writer, old(data), old(status), data, status, LittleEndian(n, 8))
    {
      DumpBlock(LittleEndian(n, 8));
    }

    /** DumpVector, for words. */
    method DumpVector(ws: seq<Word32>)
      requires |ws| <= MAX_INT
      modifies this
      ensures Wrote(writer, old(data), old(status), data, status, EncodeInt(|ws|) + EncodeWords(ws))
    {
      hide Wrote;
      ghost var d0, s0 := data, status;
      DumpInt(|ws|);
      ghost var d1, s1 := data, status;
      DumpBlock(EncodeWords(ws));
      WroteBoth(writer, d0, s0, d1, s1, data, status, EncodeInt(|ws|), EncodeWords(ws));
    }

    method DumpString(s: Name)
      requires NameFits(s)
      modifies this
      ensures Wrote(writer, old(data), old(status), data, status, EncodeName(s))
    {
      hide Wrote;
      if s == Null {
        DumpSize(0);
      } else {
        ghost var d0, s0 := data, status;
        DumpSize(|s.s| + 1);
        ghost var d1, s1 := data, status;
        DumpBlock(s.s + [0]);
        WroteBoth(writer, d0, s0, d1, s1, data, status, LittleEndian(|s.s| + 1, 8), s.s + [0]);
        assert LittleEndian(|s.s| + 1, 8) + (s.s + [0]) == EncodeName(s);
      }
    }

    method DumpConstant(c: Constant)
      requires ConstantFits(c)
      modifies this
      ensures Wrote(writer, old(data), old(status), data, status, EncodeConstant(c))
    {
      hide Wrote;
      ghost var d0, s0 := data, status;
      match c
      case KNil =>
        DumpChar(LUA_TNIL);
      case KBoolean(b) =>
        DumpChar(LUA_TBOOLEAN);
        ghost var d1, s1 := data, status;
        DumpChar(if b then 1 else 0);
        WroteBoth(writer, d0, s0, d1, s1, data, status, [LUA_TBOOLEAN], [if b then 1 else 0]);
        assert [LUA_TBOOLEAN] + [if b then 1 else 0] == EncodeConstant(c);
      case KNumber(n) =>
        DumpChar(LUA_TNUMBER);
        ghost var d1, s1 := data, status;
        DumpBlock(n);
        WroteBoth(writer, d0, s0, d1, s1, data, status, [LUA_TNUMBER], n);
      case KString(n) =>
        DumpChar(LUA_TSTRING);
        ghost var d1, s1 := data, status;
        DumpString(n);
        WroteBoth(writer, d0, s0, d1, s1, data, status, [LUA_TSTRING], EncodeName(n));
    }

    /** The first loop of DumpConstants. */
    method DumpValues(f: Proto)
      requires Fits(f)
      modifies this
      ensures Wrote(writer, old(data), old(status), data, status, EncodeInt(|f.k|) + EncodeConstants(f.k))
    {
      hide *;
      ghost var d0, s0 := data, status;
      FitsParts(f);
      DumpInt(|f.k|);
      ghost var w, all := EncodeInt(|f.k|), EncodeInt(|f.k|) + EncodeConstants(f.k);
      assert f.k[0..] == f.k;
      for i := 0 to |f.k|
        invariant Wrote(writer, d0, s0, data, status, w) && w + EncodeConstants(f.k[i..]) == all
      {
        ghost var d1, s1 := data, status;
        DumpConstant(f.k[i]);
        WroteBoth(writer, d0, s0, d1, s1, data, status, w, EncodeConstant(f.k[i]));
        ConstantStep(f.k, i, w, all);
        w := w + EncodeConstant(f.k[i]);
      }
      ConstantEnd(f.k[|f.k|..], w, all);
    }

    /** The second loop of DumpConstants. */
    method DumpNested(f: Proto)
      requires Fits(f)
      modifies this
      ensures Wrote(writer, old(data), old(status), data, status, EncodeInt(|f.p|) + EncodeFunctions(f, 0, strip))
      decreases f, 0
    {
      hide *;
      ghost var d0, s0 := data, status;
      FitsParts(f);
      DumpInt(|f.p|);
      ghost var w, all := EncodeInt(|f.p|), EncodeInt(|f.p|) + EncodeFunctions(f, 0, strip);
      for i := 0 to |f.p|
        invariant Wrote(writer, d0, s0, data, status, w) && w + EncodeFunctions(f, i, strip) == all
      {
        ghost var d1, s1 := data, status;
        DumpFunction(f.p[i], f.source);
        WroteBoth(writer, d0, s0, d1, s1, data, status, w, EncodeFunction(f.p[i], f.source, strip));
        FunctionStep(f, i, strip, w, all);
        w := w + EncodeFunction(f.p[i], f.source, strip);
      }
      FunctionEnd(f, strip, w, all);
    }

    method DumpLocVar(v: LocVar)
      requires NameFits(v.varname)
      modifies this
      ensures Wrote(writer, old(data), old(status), data, status, EncodeLocVar(v))
    {
      hide Wrote;
      ghost var d1, s1 := data, status;
      DumpString(v.varname);
      ghost var d2, s2 := data, status;
      DumpInt(v.startpc);
      ghost var d3, s3 := data, status;
      DumpInt(v.endpc);
      WroteBoth(writer, d1, s1, d2, s2, d3, s3, EncodeName(v.varname), EncodeInt(v.startpc));
      WroteBoth(writer, d1, s1, d3, s3, data, status, EncodeName(v.varname) + EncodeInt(v.startpc), EncodeInt(v.endpc));
    }

    method DumpLocVars(vs: seq<LocVar>)
      requires |vs| <= MAX_INT && forall i :: 0 <= i < |vs| ==> NameFits(vs[i].varname)
      modifies this
      ensures Wrote(writer, old(data), old(status), data, status, EncodeInt(|vs|) + EncodeLocVars(vs))
    {
      hide *;
      ghost var d0, s0 := data, status;
      DumpInt(|vs|);
      ghost var w, all := EncodeInt(|vs|), EncodeInt(|vs|) + EncodeLocVars(vs);
      assert vs[0..] == vs;
      for i := 0 to |vs|
        invariant Wrote(writer, d0, s0, data, status, w) && w + EncodeLocVars(vs[i..]) == all
      {
        ghost var d1, s1 := data, status;
        DumpLocVar(vs[i]);
        WroteBoth(writer, d0, s0, d1, s1, data, status, w, EncodeLocVar(vs[i]));
        LocVarStep(vs, i, w, all);
        w := w + EncodeLocVar(vs[i]);
      }
      LocVarEnd(vs[|vs|..], w, all);
    }

    method DumpNames(ns: seq<Name>)
      requires |ns| <= MAX_INT && forall i :: 0 <= i < |ns| ==> NameFits(ns[i])
      modifies this
      ensures Wrote(writer, old(data), old(status), data, status, EncodeInt(|ns|) + EncodeNames(ns))
    {
      hide *;
      ghost var d0, s0 := data, status;
      DumpInt(|ns|);
      ghost var w, all := EncodeInt(|ns|), EncodeInt(|ns|) + EncodeNames(ns);
      assert ns[0..] == ns;
      for i := 0 to |ns|
        invariant Wrote(writer, d0, s0, data, status, w) && w + EncodeNames(ns[i..]) == all
      {
        ghost var d1, s1 := data, status;
        DumpString(ns[i]);
        WroteBoth(writer, d0, s0, d1, s1, data, status, w, EncodeName(ns[i]));
        NameStep(ns, i, w, all);
        w := w + EncodeName(ns[i]);
      }
      NameEnd(ns[|ns|..], w, all);
    }

    /** DumpDebug; with `strip`, the three lists are empty. */
    method DumpDebug(f: Proto)
      requires Fits(f)
      modifies this
      ensures Wrote(writer, old(data), old(status), data, status, EncodeDebug(f, strip))
    {
      hide *;
      ghost var d0, s0 := data, status;
      FitsDebug(f);
      var ls := if strip then [] else f.lineinfo;
      DumpVector(AllUnsigned(ls));
      ghost var d1, s1 := data, status;
      var vs := if strip then [] else f.locvars;
      DumpLocVars(vs);
      ghost var d2, s2 := data, status;
      var us := if strip then [] else f.upvalues;
      DumpNames(us);
      ghost var a := EncodeInt(|ls|) + EncodeWords(AllUnsigned(ls));
      ghost var b := EncodeInt(|vs|) + EncodeLocVars(vs);
      ghost var c := EncodeInt(|us|) + EncodeNames(us);
      WroteBoth(writer, d0, s0, d1, s1, d2, s2, a, b);
      WroteBoth(writer, d0, s0, d2, s2, data, status, a + b, c);
      DebugParts(f, strip, ls, vs, us);
    }

    /** The fields that DumpFunction writes first. */
    method DumpHead(f: Proto, p: Name)
      requires Fits(f)
      modifies this
      ensures Wrote(writer, old(data), old(status), data, status, EncodeHead(f, p, strip))
    {
      hide *;
      SourceFits(f, p, strip);
      ghost var d0, s0 := data, status;
      var n := if f.source == p || strip then Null else f.source;
      DumpString(n);
      ghost var w := EncodeName(n);
      ghost var d1, s1 := data, status;
      DumpInt(f.linedefined);
      WroteBoth(writer, d0, s0, d1, s1, data, status, w, EncodeInt(f.linedefined));
      w, d1, s1 := w + EncodeInt(f.linedefined), data, status;
      DumpInt(f.lastlinedefined);
      WroteBoth(writer, d0, s0, d1, s1, data, status, w, EncodeInt(f.lastlinedefined));
      w, d1, s1 := w + EncodeInt(f.lastlinedefined), data, status;
      DumpChar(f.nups);
      WroteBoth(writer, d0, s0, d1, s1, data, status, w, [f.nups]);
      w, d1, s1 := w + [f.nups], data, status;
      DumpChar(f.numparams);
      WroteBoth(writer, d0, s0, d1, s1, data, status, w, [f.numparams]);
      w, d1, s1 := w + [f.numparams], data, status;
      DumpChar(f.isVararg);
      WroteBoth(writer, d0, s0, d1, s1, data, status, w, [f.isVararg]);
      w, d1, s1 := w + [f.isVararg], data, status;
      DumpChar(f.maxstacksize);
      WroteBoth(writer, d0, s0, d1, s1, data, status, w, [f.maxstacksize]);
      HeadParts(f, p, strip);
    }

    /** DumpFunction. */
    method DumpFunction(f: Proto, p: Name)
      requires Fits(f)
      modifies this
      ensures Wrote(writer, old(data), old(status), data, status, EncodeFunction(f, p, strip))
      decreases f, 1
    {
      hide *;
      ghost var d0, s0 := data, status;
      FitsParts(f);
      ghost var w := EncodeHead(f, p, strip);
      DumpHead(f, p);
      ghost var d1, s1 := data, status;
      ghost var code, values, nested := EncodeInt(|f.code|) + EncodeWords(f.code), EncodeInt(|f.k|) + EncodeConstants(f.k), EncodeInt(|f.p|) + EncodeFunctions(f, 0, strip);
      DumpVector(f.code);
      WroteBoth(writer, d0, s0, d1, s1, data, status, w, code);
      w, d1, s1 := w + code, data, status;
      DumpValues(f);
      WroteBoth(writer, d0, s0, d1, s1, data, status, w, values);
      w, d1, s1 := w + values, data, status;
      DumpNested(f);
      WroteBoth(writer, d0, s0, d1, s1, data, status, w, nested);
      w, d1, s1 := w + nested, data, status;
      DumpDebug(f);
      WroteBoth(writer, d0, s0, d1, s1, data, status, w, EncodeDebug(f, strip));
      FunctionParts(f, p, strip);
    }
  }

  lemma FitsParts(f: Proto)
    requires Fits(f)
    ensures |f.code| <= MAX_INT && |f.k| <= MAX_INT && |f.p| <= MAX_INT
    ensures forall i :: 0 <= i < |f.k| ==> ConstantFits(f.k[i])
    ensures forall i :: 0 <= i < |f.p| ==> Fits(f.p[i])
  {
  }

  lemma SourceFits(f: Proto, p: Name, strip: bool)
    requires Fits(f)
    ensures NameFits(if f.source == p || strip then Null else f.source)
  {
  }

  lemma HeadParts(f: Proto, p: Name, strip: bool)
    requires Fits(f)
    ensures NameFits(if f.source == p || strip then Null else f.source)
    ensures EncodeName(if f.source == p || strip then Null else f.source) + EncodeInt(f.linedefined) + EncodeInt(f.lastlinedefined)
              + [f.nups] + [f.numparams] + [f.isVararg] + [f.maxstacksize] == EncodeHead(f, p, strip)
  {
    hide EncodeName;
    hide EncodeInt;
  }

  lemma FitsDebug(f: Proto)
    requires Fits(f)
    ensures |f.lineinfo| <= MAX_INT && |f.locvars| <= MAX_INT && |f.upvalues| <= MAX_INT
    ensures forall i :: 0 <= i < |f.locvars| ==> NameFits(f.locvars[i].varname)
    ensures forall i :: 0 <= i < |f.upvalues| ==> NameFits(f.upvalues[i])
  {
  }

  lemma DebugParts(f: Proto, strip: bool, ls: seq<Int32>, vs: seq<LocVar>, us: seq<Name>)
    requires Fits(f) && |ls| <= MAX_INT && |vs| <= MAX_INT && |us| <= MAX_INT
    requires ls == (if strip then [] else f.lineinfo) && vs == (if strip then [] else f.locvars) && us == (if strip then [] else f.upvalues)
    ensures EncodeInt(|ls|) + EncodeWords(AllUnsigned(ls)) + (EncodeInt(|vs|) + EncodeLocVars(vs)) + (EncodeInt(|us|) + EncodeNames(us))
         == EncodeDebug(f, strip)
  {
    DebugJoined(f, strip, [], ls, vs, us);
    hide *;
    assert EncodeDebug(f, strip) + [] == EncodeDebug(f, strip);
    assert EncodeInt(|us|) + EncodeNames(us) + [] == EncodeInt(|us|) + EncodeNames(us);
  }

  lemma ConstantStep(cs: seq<Constant>, i: nat, w: Bytes, all: Bytes)
    requires i < |cs| && (forall k :: 0 <= k < |cs| ==> ConstantFits(cs[k])) && w + EncodeConstants(cs[i..]) == all
    ensures w + EncodeConstant(cs[i]) + EncodeConstants(cs[i + 1..]) == all
  {
    assert cs[i..][1..] == cs[i + 1..];
  }

  lemma ConstantEnd(cs: seq<Constant>, w: Bytes, all: Bytes)
    requires cs == [] && w + EncodeConstants(cs) == all
    ensures w == all
  {
  }

  lemma FunctionStep(f: Proto, i: nat, strip: bool, w: Bytes, all: Bytes)
    requires Fits(f) && i < |f.p| && w + EncodeFunctions(f, i, strip) == all
    ensures w + EncodeFunction(f.p[i], f.source, strip) + EncodeFunctions(f, i + 1, strip) == all
  {
    hide EncodeFunction;
  }

  lemma FunctionEnd(f: Proto, strip: bool, w: Bytes, all: Bytes)
    requires Fits(f) && w + EncodeFunctions(f, |f.p|, strip) == all
    ensures w == all
  {
  }

  lemma LocVarStep(vs: seq<LocVar>, i: nat, w: Bytes, all: Bytes)
    requires i < |vs| && (forall k :: 0 <= k < |vs| ==> NameFits(vs[k].varname)) && w + EncodeLocVars(vs[i..]) == all
    ensures w + EncodeLocVar(vs[i]) + EncodeLocVars(vs[i + 1..]) == all
  {
    hide EncodeLocVar;
    assert vs[i..][1..] == vs[i + 1..];
  }

  lemma LocVarEnd(vs: seq<LocVar>, w: Bytes, all: Bytes)
    requires vs == [] && w + EncodeLocVars(vs) == all
    ensures w == all
  {
  }

  lemma NameStep(ns: seq<Name>, i: nat, w: Bytes, all: Bytes)
    requires i < |ns| && (forall k :: 0 <= k < |ns| ==> NameFits(ns[k])) && w + EncodeNames(ns[i..]) == all
    ensures w + EncodeName(ns[i]) + EncodeNames(ns[i + 1..]) == all
  {
    hide EncodeName;
    assert ns[i..][1..] == ns[i + 1..];
  }

  lemma NameEnd(ns: seq<Name>, w: Bytes, all: Bytes)
    requires ns == [] && w + EncodeNames(ns) == all
    ensures w == all
  {
  }

  lemma FunctionParts(f: Proto, p: Name, strip: bool)
    requires Fits(f)
    ensures EncodeHead(f, p, strip) + (EncodeInt(|f.code|) + EncodeWords(f.code)) + (EncodeInt(|f.k|) + EncodeConstants(f.k))
      + (EncodeInt(|f.p|) + EncodeFunctions(f, 0, strip)) + EncodeDebug(f, strip) == EncodeFunction(f, p, strip)
  {
    hide EncodeHead;
    hide EncodeInt;
    hide EncodeWords;
    hide EncodeConstants;
    hide EncodeFunctions;
    hide EncodeDebug;
  }

  /** luaU_dump: if the writer reports no error, it has received the whole chunk, and else a part of it; the error
      is what it answered to a block of the chunk. */
  method DumpChunk(f: Proto, w: Writer, strip: bool) returns (status: int, data: Bytes)
    requires Fits(f)
    ensures data <= Encode(f, strip) && (status == 0 ==> data == Encode(f, strip))
    ensures status != 0 ==> exists block :: data + block <= Encode(f, strip) && w(data, block) == status
  {
    var d := new DumpState(w, strip);
    d.DumpBlock(HEADER);
    ghost var d1, s1 := d.data, d.status;
    d.DumpFunction(f, Null);
    WroteBoth(w, [], 0, d1, s1, d.data, d.status, HEADER, EncodeFunction(f, Null, strip));
    assert [] + Encode(f, strip) == Encode(f, strip);
    status, data := d.status, d.data;
  }
}

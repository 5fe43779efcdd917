/** How the emission and the patching of instructions affect a run of the code. */
module GenSteps {
  import opened Machine
  import opened JumpLists

  /** Instructions that only patch pending jumps are kept for runs that have not reached those jumps. */
  lemma PatchedRun(m: Arithmetic, s: Gen, code1: seq<Instr>, n: nat)
    requires GenInv(m, s, n) && IsPatched(s.code, code1, s.js, |s.code|)
    ensures IsRun(m, s.k, code1, s.tr) && forall i :: 0 <= i < |code1| ==> ConstsIn(code1[i], |s.k|)
  {
    forall p | 0 <= p < |s.code| && Visited(s.tr, p)
      ensures p < |code1| && SameEffect(s.code[p], code1[p])
    {
      assert code1[p] == PatchedInstr(s.code, s.js, |s.code|, p);
      assert p + 1 in s.js ==> NoTarget(s.code, p + 1);
    }
    RunFrame(m, s.k, s.code, s.tr, s.k, code1);
    forall i | 0 <= i < |code1|
      ensures ConstsIn(code1[i], |s.k|)
    {
      assert code1[i] == PatchedInstr(s.code, s.js, |s.code|, i) && ConstsIn(s.code[i], |s.k|);
    }
  }

  /** luaK_code: pending jumps lead to the new instruction. */
  ghost function AfterCode(s: Gen, code1: seq<Instr>, i: Instr): Gen
    requires s.tr != []
  {
    s.(code := code1 + [i], jpc := NO_JUMP, js := [], tr := if s.Pc() in s.js then s.tr + [Config(|s.code|, s.Regs())] else s.tr)
  }

  ghost predicate Coded(s: Gen, s1: Gen, i: Instr)
    requires s.tr != []
  {
    && s1.tr == (if s.Pc() in s.js then s.tr + [Config(|s.code|, s.Regs())] else s.tr)
    && s1 == s.(code := s1.code, tr := s1.tr, jpc := NO_JUMP, js := [])
    && |s1.code| == |s.code| + 1 && s1.code[|s.code|] == i
    && (forall q :: 0 <= q < |s.code| ==> s1.code[q] == PatchedInstr(s.code, s.js, |s.code|, q))
    && (Live(s) ==> Last(s1.tr) == Config(|s.code|, s.Regs()))
    && (!Live(s) ==> s1.tr == s.tr)
    && (forall p :: Visited(s1.tr, p) ==> Visited(s.tr, p) || p in s.js)
  }

  lemma CodeStep(m: Arithmetic, s: Gen, code1: seq<Instr>, i: Instr, n: nat)
    requires GenInv(m, s, n) && IsPatched(s.code, code1, s.js, |s.code|)
    requires ConstsIn(i, |s.k|) && (i.TestSet? ==> i.t.NoReg?)
    ensures GenInv(m, AfterCode(s, code1, i), n) && Coded(s, AfterCode(s, code1, i), i)
  {
    var s1 := AfterCode(s, code1, i);
    PatchedRun(m, s, code1, n);
    ListInCode(s.code, s.jpc, s.js);
    CodeRun(m, s, code1, i, n);
    hide RunOk;
    hide Visited;
    hide IsList;
  }

  lemma CodeRun(m: Arithmetic, s: Gen, code1: seq<Instr>, i: Instr, n: nat)
    requires RunOk(m, s, n) && (s.js != [] ==> s.lasttarget == |s.code|) && IsRun(m, s.k, code1, s.tr) && IsPatched(s.code, code1, s.js, |s.code|)
    requires (forall q :: 0 <= q < |code1| ==> ConstsIn(code1[q], |s.k|)) && (forall p :: p in s.js ==> IsJump(s.code, p))
    ensures RunOk(m, AfterCode(s, code1, i), n)
    ensures forall p :: Visited(AfterCode(s, code1, i).tr, p) ==> Visited(s.tr, p) || p in s.js
  {
    var s1 := AfterCode(s, code1, i);
    CodeExtended(m, s.k, code1, s.tr, i);
    hide IsRun;
    hide Visited;
    hide Clean;
    if s.Pc() in s.js {
      assert code1[s.Pc()] == PatchedInstr(s.code, s.js, |s.code|, s.Pc());
      RunStep(m, s.k, s1.code, s.tr);
      VisitedMore(s.tr, Config(|s.code|, s.Regs()));
    }
    assert s.Pc() > 0 && s.Pc() <= |s.code| && !s1.code[s.Pc() - 1].Jmp? ==> !s.code[s.Pc() - 1].Jmp? by {
      if 0 < s.Pc() <= |s.code| {
        assert code1[s.Pc() - 1] == PatchedInstr(s.code, s.js, |s.code|, s.Pc() - 1);
      }
    }
  }

  lemma CodeExtended(m: Arithmetic, k: seq<Value>, code: seq<Instr>, tr: seq<Config>, i: Instr)
    requires IsRun(m, k, code, tr) && forall q :: 0 <= q < |code| ==> ConstsIn(code[q], |k|)
    ensures IsRun(m, k, code + [i], tr)
  {
    RunFrame(m, k, code, tr, k, code + [i]);
  }

  /** Jumps that are on no pending list, and that no run has reached, may be relinked. */
  lemma Relinked(m: Arithmetic, s: Gen, code1: seq<Instr>, n: nat)
    requires GenInv(m, s, n) && |code1| == |s.code|
    requires forall q :: 0 <= q < |s.code| ==> code1[q] == s.code[q] || (s.code[q].Jmp? && code1[q].Jmp? && q !in s.js && !Visited(s.tr, q))
    ensures GenInv(m, s.(code := code1), n)
  {
    RunFrame(m, s.k, s.code, s.tr, s.k, code1);
    ListKept(s.code, code1, s.jpc, s.js);
  }

  /** The last instruction has been executed. */
  lemma ExecutedLast(m: Arithmetic, s: Gen, n: nat)
    requires GenInv(m, s, n) && |s.code| > 0 && s.Pc() == |s.code| - 1 && IsPlain(s.code[|s.code| - 1])
    ensures var s1 := s.(tr := s.tr + [Step(m, s.k, s.code[|s.code| - 1], Last(s.tr))]); GenInv(m, s1, n) && s1.Pc() == |s.code|
    ensures var s1 := s.(tr := s.tr + [Step(m, s.k, s.code[|s.code| - 1], Last(s.tr))]);
      forall p :: Visited(s1.tr, p) ==> Visited(s.tr, p) || p == |s.code| - 1
  {
    var c := Step(m, s.k, s.code[|s.code| - 1], Last(s.tr));
    RunStep(m, s.k, s.code, s.tr);
    VisitedMore(s.tr, c);
  }

  /** The test before the last jump has been executed: the run is at the jump or behind it. */
  lemma ExecutedTest(m: Arithmetic, s: Gen, n: nat)
    requires GenInv(m, s, n) && |s.code| >= 2 && s.Pc() == |s.code| - 2 && IsTest(s.code[|s.code| - 2]) && s.code[|s.code| - 1].Jmp?
    requires NoTarget(s.code, |s.code| - 1) && s.js == []
    ensures var s1 := s.(tr := s.tr + [Step(m, s.k, s.code[|s.code| - 2], Last(s.tr))]);
      GenInv(m, s1, n) && s1.Regs() == s.Regs() && s1.Pc() == if Taken(m, s.k, s.code[|s.code| - 2], s.Regs()) then |s.code| - 1 else |s.code|
    ensures var s1 := s.(tr := s.tr + [Step(m, s.k, s.code[|s.code| - 2], Last(s.tr))]);
      forall p :: Visited(s1.tr, p) ==> Visited(s.tr, p) || p == |s.code| - 2
  {
    var c := Step(m, s.k, s.code[|s.code| - 2], Last(s.tr));
    RunStep(m, s.k, s.code, s.tr);
    VisitedMore(s.tr, c);
  }

  /** The list of pending jumps grows by jumps that are to lead here. */
  lemma PatchedHere(m: Arithmetic, s: Gen, code1: seq<Instr>, h: int, l: seq<int>, n: nat)
    requires GenInv(m, s, n) && |code1| == |s.code| && IsList(code1, h, s.js + l) && Unvisited(s, l)
    requires forall q :: 0 <= q < |s.code| ==> code1[q] == s.code[q] || (q in s.js && code1[q].Jmp?)
    ensures GenInv(m, s.(code := code1, jpc := h, js := s.js + l, lasttarget := |s.code|), n)
  {
    forall q | 0 <= q < |s.code| && q in s.js
      ensures s.code[q].Jmp?
    {
      var i :| 0 <= i < |s.js| && s.js[i] == q;
      assert IsJump(s.code, s.js[i]);
    }
    RunFrame(m, s.k, s.code, s.tr, s.k, code1);
  }

  /** Pending jumps are put on hold: they are no longer to lead here. */
  lemma OnHold(m: Arithmetic, s: Gen, n: nat)
    requires GenInv(m, s, n)
    ensures GenInv(m, s.(jpc := NO_JUMP, js := []), n)
  {
  }

  lemma ConstAdded(m: Arithmetic, s: Gen, v: Value, n: nat)
    requires GenInv(m, s, n)
    ensures GenInv(m, s.(k := s.k + [v]), n)
  {
    RunFrame(m, s.k, s.code, s.tr, s.k + [v], s.code);
    forall i | 0 <= i < |s.code|
      ensures ConstsIn(s.code[i], |s.k + [v]|)
    {
      assert ConstsIn(s.code[i], |s.k|);
    }
  }

  /** The last instruction, which no run has executed, is replaced. */
  lemma LastReplaced(m: Arithmetic, s: Gen, p: nat, i: Instr, n: nat)
    requires GenInv(m, s, n) && p < |s.code| && p !in s.js && p + 1 !in s.js && !Visited(s.tr, p) && ConstsIn(i, |s.k|)
    requires !s.code[p].Jmp? && !i.Jmp? && !i.TestSet?
    ensures GenInv(m, s.(code := s.code[p := i]), n)
  {
    var code1 := s.code[p := i];
    RunFrame(m, s.k, s.code, s.tr, s.k, code1);
    forall q | q in s.js
      ensures q < |code1| && code1[q] == s.code[q] && (q >= 1 && code1[q - 1].TestSet? ==> code1[q - 1] == s.code[q - 1])
    {
      var j :| 0 <= j < |s.js| && s.js[j] == q;
      assert IsJump(s.code, s.js[j]);
    }
    ListKept(s.code, code1, s.jpc, s.js);
  }

  /** The last instruction is removed; no run has executed it. */
  lemma LastRemoved(m: Arithmetic, s: Gen, n: nat)
    requires GenInv(m, s, n) && |s.code| > 0 && s.js == [] && !Visited(s.tr, |s.code| - 1) && s.Pc() < |s.code|
    requires s.lasttarget < |s.code| && NoTarget(s.code, |s.code| - 1)
    ensures GenInv(m, s.(code := s.code[..|s.code| - 1]), n)
  {
    var code1 := s.code[..|s.code| - 1];
    forall p | 0 <= p < |s.code| && Visited(s.tr, p)
      ensures p < |code1| && SameEffect(s.code[p], code1[p])
    {
      VisitedBefore(m, s.k, s.code, s.tr, p);
    }
    RunFrame(m, s.k, s.code, s.tr, s.k, code1);
  }

  /** luaK_nil: the preceding OP_LOADNIL takes over more registers. */
  ghost function NilMerged(s: Gen, to: int): Gen
    requires s.tr != [] && |s.code| > 0 && s.code[|s.code| - 1].LoadNil?
  {
    var a := s.code[|s.code| - 1].a;
    s.(code := s.code[|s.code| - 1 := LoadNil(a, to)],
       tr := if s.Pc() == |s.code| && |s.tr| >= 2 then s.tr[..|s.tr| - 1] + [Config(|s.code|, NilRange(s.tr[|s.tr| - 2].g, a, to))] else s.tr)
  }

  lemma NilMergedInv(m: Arithmetic, s: Gen, to: int, n: nat)
    requires GenInv(m, s, n) && |s.code| > s.lasttarget && |s.code| > 0 && s.code[|s.code| - 1].LoadNil?
    ensures s.js == [] && GenInv(m, NilMerged(s, to), n) && NilMerged(s, to).tr != [] && NilMerged(s, to).Pc() == s.Pc() && NilMerged(s, to).tr[0] == s.tr[0]
    ensures s.Pc() != |s.code| ==> NilMerged(s, to).tr == s.tr
    ensures forall p :: Visited(NilMerged(s, to).tr, p) ==> Visited(s.tr, p)
    ensures s.Pc() == |s.code| ==> |s.tr| >= 2 && s.Regs() == NilRange(s.tr[|s.tr| - 2].g, s.code[|s.code| - 1].a, s.code[|s.code| - 1].to)
    ensures s.Pc() == |s.code| ==> NilMerged(s, to).Regs() == NilRange(s.tr[|s.tr| - 2].g, s.code[|s.code| - 1].a, to)
  {
    var s1 := NilMerged(s, to);
    NilMergedRun(m, s, to, n);
    hide IsRun;
    hide Visited;
    hide ConstsIn;
    hide NilRange;
    NilMergedList(m, s, to, n);
    hide IsList;
    assert ConstsOk(s1);
  }

  lemma NilMergedList(m: Arithmetic, s: Gen, to: int, n: nat)
    requires GenInv(m, s, n) && |s.code| > s.lasttarget && |s.code| > 0 && s.code[|s.code| - 1].LoadNil?
    ensures s.js == [] && IsList(NilMerged(s, to).code, s.jpc, []) && ConstsOk(NilMerged(s, to))
  {
    assert s.tr != [];
    hide IsRun;
    hide Visited;
    forall i | 0 <= i < |s.code|
      ensures ConstsIn(NilMerged(s, to).code[i], |s.k|)
    {
      assert ConstsIn(s.code[i], |s.k|);
    }
  }

  lemma NilMergedRun(m: Arithmetic, s: Gen, to: int, n: nat)
    requires GenInv(m, s, n) && |s.code| > s.lasttarget && |s.code| > 0 && s.code[|s.code| - 1].LoadNil?
    ensures var s1 := NilMerged(s, to);
      && IsRun(m, s1.k, s1.code, s1.tr) && s1.tr[0] == s.tr[0] && s1.Pc() == s.Pc() && |s1.tr| == |s.tr|
      && (|s.tr| >= 2 ==> s1.tr[|s.tr| - 2].pc == s.tr[|s.tr| - 2].pc)
      && (s.Pc() != |s.code| ==> s1.tr == s.tr)
      && (forall p :: Visited(s1.tr, p) ==> Visited(s.tr, p))
      && (s.Pc() == |s.code| ==> |s.tr| >= 2 && s.Regs() == NilRange(s.tr[|s.tr| - 2].g, s.code[|s.code| - 1].a, s.code[|s.code| - 1].to))
      && (s.Pc() == |s.code| ==> s1.Regs() == NilRange(s.tr[|s.tr| - 2].g, s.code[|s.code| - 1].a, to))
  {
    hide IsList;
    hide Clean;
    var s1 := NilMerged(s, to);
    var last := |s.code| - 1;
    if s.Pc() == |s.code| {
      var i := |s.tr| - 2;
      assert s.tr[i].pc == last && Stepped(m, s.k, s.code, s.tr[i], s.tr[i + 1]);
      var before := s.tr[..|s.tr| - 1];
      RunPrefix(m, s.k, s.code, s.tr, |s.tr| - 1);
      forall p | 0 <= p < |s.code| && Visited(before, p)
        ensures p < |s1.code| && SameEffect(s.code[p], s1.code[p])
      {
        VisitedBefore(m, s.k, s.code, before, p);
      }
      RunFrame(m, s.k, s.code, before, s.k, s1.code);
      RunStep(m, s.k, s1.code, before);
      assert s1.tr == before + [Step(m, s.k, s1.code[last], Last(before))];
      VisitedMore(before, Last(s1.tr));
      VisitedMore(before, Last(s.tr));
      assert s.tr == before + [Last(s.tr)];
    } else {
      forall p | 0 <= p < |s.code| && Visited(s.tr, p)
        ensures p < |s1.code| && SameEffect(s.code[p], s1.code[p])
      {
        VisitedBefore(m, s.k, s.code, s.tr, p);
      }
      RunFrame(m, s.k, s.code, s.tr, s.k, s1.code);
    }
  }

  lemma RunPrefix(m: Arithmetic, k: seq<Value>, code: seq<Instr>, tr: seq<Config>, n: nat)
    requires IsRun(m, k, code, tr) && 0 < n <= |tr|
    ensures IsRun(m, k, code, tr[..n])
  {
    forall i | 0 <= i < n - 1
      ensures Stepped(m, k, code, tr[..n][i], tr[..n][i + 1])
    {
      assert Stepped(m, k, code, tr[i], tr[i + 1]);
    }
  }
}

/** Tables: the operations of ltable.c on the array part and the node vector. */
module LuaTables {
  import opened Limits
  import opened Powers
  import opened Nodes
  import opened Counting
  import opened TableValues
  import opened Slices
  import opened Traversals
  import opened Wrappers

  datatype Error = IndexIsNil | IndexIsNaN | TableOverflow | InvalidKeyToNext

  /** What luaH_next leaves on the stack: a key with its value, or nothing. */
  datatype Field = NoMore | Field(key: TValue, val: TValue)

  class Table {
    const hash: Hash
    var arr: array<TValue>
    var sizearray: nat
    var node: array<Node>
    var lsizenode: nat
    var lastfree: int
    var isDummy: bool

    ghost predicate Shaped()
      reads this
    {
      sizearray <= arr.Length && lsizenode <= MAXBITS && node.Length == Pow2(lsizenode)
    }

    ghost function View(): TableValue
      requires sizearray <= arr.Length
      reads this, arr, node
    {
      TableValue(arr[..sizearray], node[..], lastfree, isDummy)
    }

    lemma ViewIs()
      requires sizearray <= arr.Length
      ensures View() == TableValue(arr[..sizearray], node[..], lastfree, isDummy)
    {
    }

    ghost predicate Valid()
      reads this, arr, node
    {
      Shaped() && TableInv(hash, View())
    }

    lemma ValidIs()
      requires Valid()
      ensures Shaped() && sizearray <= arr.Length && TableInv(hash, View())
      ensures View() == TableValue(arr[..sizearray], node[..], lastfree, isDummy)
      ensures sizearray <= MAXASIZE < MAX_INT && 0 < node.Length <= MAXASIZE && ChainInv(hash, node[..])
    {
    }

    lemma ValidNow()
      requires Shaped() && TableInv(hash, View())
      ensures Valid()
    {
    }

    lemma ShapeOf()
      requires Shaped()
      ensures sizearray <= arr.Length && lsizenode <= MAXBITS && node.Length == Pow2(lsizenode)
    {
    }

    lemma ShapedIs()
      requires sizearray <= arr.Length && lsizenode <= MAXBITS && node.Length == Pow2(lsizenode)
      ensures Shaped() && 0 < node.Length <= MAXASIZE
    {
      MaxASize();
      Pow2Mono(lsizenode, MAXBITS);
    }

    /** The chain loop that the search functions share: the node that holds `key`, or NULL. */
    method FindNode(key: TValue) returns (n: int)
      requires Valid() && key != Nil
      ensures n != NULL <==> HasKey(View().ns, key)
      ensures n != NULL ==> n == IndexOf(View().ns, key)
    {
      hide *;
      ValidIs();
      ghost var ns := node[..];
      n := hash(key, node.Length);
      ghost var found := HasKey(ns, key);
      ghost var at := if found then IndexOf(ns, key) else 0;
      if found {
        ChainHasKey(hash, ns, key);
      }
      ghost var left := ChainLength(ns, n);
      while true
        invariant 0 <= n < node.Length && Walk(ns, n, NULL, left)
        invariant found ==> OnChain(ns, n, at)
        decreases left
      {
        if node[n].key == key {
          NodeFound(ns, n, key);
          return;
        }
        if found {
          Advance(ns, n, at);
        }
        if node[n].next == NULL {
          return NULL;
        }
        Advanced(ns, n, left);
        n := node[n].next;
        left := left - 1;
      }
    }

    /** luaH_getnum. */
    method GetNum(key: Int32) returns (p: Slot)
      requires Valid()
      ensures p == SlotOf(View(), Int(key))
    {
      if 1 <= key <= sizearray {
        return ArraySlot(key - 1);
      }
      var n := FindNode(Int(key));
      p := if n == NULL then NilObject else NodeSlot(n);
    }

    /** luaH_get, and luaH_getstr, which is its search loop for strings. */
    method Get(key: TValue) returns (p: Slot)
      requires Valid()
      ensures p == SlotOf(View(), key)
    {
      if key == Nil {
        return NilObject;
      } else if key.Int? {
        p := GetNum(key.n);
      } else {
        var n := FindNode(key);
        p := if n == NULL then NilObject else NodeSlot(n);
      }
    }

    /** What a pointer points to. */
    method Deref(p: Slot) returns (v: TValue)
      requires Shaped() && (p != NilObject ==> SlotIn(View(), p))
      ensures v == match p { case NilObject => Nil case ArraySlot(i) => View().arr[i] case NodeSlot(i) => View().ns[i].val }
    {
      match p
      case NilObject => v := Nil;
      case ArraySlot(i) => v := arr[i];
      case NodeSlot(i) => v := node[i].val;
    }

    /** The value of a key. */
    method RawGet(key: TValue) returns (v: TValue)
      requires Valid()
      ensures v == Lookup(View(), key)
    {
      var p := Get(key);
      SlotOfIn(View(), key);
      v := Deref(p);
    }

    /** getfreepos. */
    method GetFreePos() returns (n: int)
      requires Valid()
      modifies this`lastfree
      ensures View() == old(View()).(lastfree := lastfree) && (n == NULL ==> Valid())
      ensures n == NULL ==> isDummy || forall i :: 0 <= i < node.Length ==> node[i].key != Nil
      ensures n != NULL ==> 0 <= n < node.Length && n == lastfree && node[n].key == Nil && !isDummy
      ensures n != NULL ==> forall i :: n < i < node.Length ==> node[i].key != Nil
    {
      while lastfree > 0
        invariant lastfree <= old(lastfree)
        invariant !isDummy ==> forall i :: 0 <= i < node.Length && lastfree <= i ==> node[i].key != Nil
      {
        lastfree := lastfree - 1;
        if node[lastfree].key == Nil {
          n := lastfree;
          return;
        }
      }
      lastfree := lastfree - 1;
      n := NULL;
    }

    /** The node before `mp` on the chain from the main position of its key. */
    method FindPrevious(mp: nat) returns (p: nat)
      requires Shaped() && ChainInv(hash, node[..]) && mp < node.Length && node[mp].val != Nil
      requires hash(node[mp].key, node.Length) != mp
      ensures p < node.Length && p != mp && node[p].next == mp
    {
      ghost var ns := node[..];
      hide *;
      p := hash(node[mp].key, node.Length);
      CollidingChain(hash, ns, mp);
      ghost var left := ChainLength(ns, p);
      while node[p].next != mp
        invariant 0 <= p < node.Length && p != mp && Walk(ns, p, NULL, left) && OnChain(ns, p, mp)
        decreases left
      {
        Advance(ns, p, mp);
        Advanced(ns, p, left);
        p := node[p].next;
        left := left - 1;
      }
    }

    /** The colliding node is out of its main position: it goes to `n`, and `key` takes its place. */
    method MoveColliding(key: TValue, mp: nat, n: nat, ghost t0: TableValue)
      requires Shaped() && View() == t0.(lastfree := n) && TableInv(hash, t0) && NewKeyOk(t0, key)
      requires !isDummy && mp < node.Length && hash(key, node.Length) == mp && n < node.Length
      requires node[n].key == Nil && node[mp].val != Nil && hash(node[mp].key, node.Length) != mp
      requires forall i :: n < i < node.Length ==> node[i].key != Nil
      modifies node
      ensures Shaped() && KeyAdded(hash, t0, View(), key, mp)
    {
      ghost var ns := node[..];
      var othern := FindPrevious(mp);
      AddedByMove(hash, t0, key, mp, n, othern);
      hide TableInv;
      node[othern] := node[othern].(next := n);
      node[n] := node[mp];
      node[mp] := Node(key, Nil, NULL);
      assert node[..] == Moved(ns, mp, n, othern, key);
    }

    /** The colliding node is in its main position: the new key goes to `n`. */
    method AppendColliding(key: TValue, mp: nat, n: nat, ghost t0: TableValue)
      requires Shaped() && View() == t0.(lastfree := n) && TableInv(hash, t0) && NewKeyOk(t0, key)
      requires !isDummy && mp < node.Length && hash(key, node.Length) == mp && n < node.Length
      requires node[n].key == Nil && node[mp].val != Nil && hash(node[mp].key, node.Length) == mp
      requires forall i :: n < i < node.Length ==> node[i].key != Nil
      modifies node
      ensures Shaped() && KeyAdded(hash, t0, View(), key, n)
    {
      ghost var ns := node[..];
      AddedByAppend(hash, t0, key, mp, n);
      node[n] := Node(key, Nil, node[mp].next);
      node[mp] := node[mp].(next := n);
      assert node[..] == Appended(ns, mp, n, key);
    }

    /** The main position is free for the new key. */
    method TakeMainPosition(key: TValue, mp: nat)
      requires Valid() && NewKeyOk(View(), key) && !isDummy
      requires mp < node.Length && hash(key, node.Length) == mp && node[mp].val == Nil
      modifies node
      ensures Shaped() && KeyAdded(hash, old(View()), View(), key, mp)
    {
      ghost var t0 := View();
      AddedByOverwrite(hash, t0, key, mp);
      node[mp] := node[mp].(key := key);
      assert node[..] == t0.ns[mp := t0.ns[mp].(key := key)];
    }

    /** A write through a pointer that luaH_set returned. */
    method Store(p: Slot, v: TValue)
      requires Shaped() && SlotIn(View(), p)
      modifies arr, node
      ensures Shaped() && View() == Stored(old(View()), p, v)
      ensures arr[sizearray..] == old(arr[sizearray..])
    {
      ghost var t0 := View();
      match p
      case ArraySlot(i) =>
        arr[i] := v;
        assert arr[..sizearray] == t0.arr[i := v];
      case NodeSlot(i) =>
        node[i] := node[i].(val := v);
        assert node[..] == t0.ns[i := t0.ns[i].(val := v)];
    }

    /** newkey when there is a free node for the key, or its main position can take it. */
    method InsertKey(key: TValue) returns (p: Slot, full: bool)
      requires Valid() && NewKeyOk(View(), key)
      modifies this`lastfree, node
      ensures Valid()
      ensures full <==> Full(hash, old(View()), key)
      ensures full ==> !HasRoom(View()) && View() == old(View()).(lastfree := lastfree)
      ensures !full ==> p.NodeSlot? && KeyAdded(hash, old(View()), View(), key, p.i)
    {
      ghost var t0 := View();
      full := false;
      var mp := hash(key, node.Length);
      if node[mp].val != Nil || isDummy {
        var n := GetFreePos();
        if n == NULL {
          full := true;
          NoRoom(View());
          return NilObject, full;
        }
        if hash(node[mp].key, node.Length) != mp {
          MoveColliding(key, mp, n, t0);
          p := NodeSlot(mp);
        } else {
          AppendColliding(key, mp, n, t0);
          p := NodeSlot(n);
        }
      } else {
        TakeMainPosition(key, mp);
        p := NodeSlot(mp);
      }
    }

    /** setarrayvector. */
    method SetArrayVector(size: nat)
      requires sizearray <= arr.Length
      modifies this`arr, this`sizearray
      ensures fresh(arr) && arr.Length == size == sizearray
      ensures forall i :: 0 <= i < size ==> arr[i] == if i < old(sizearray) then old(arr)[i] else Nil
    {
      var a := new TValue[size];
      for i := 0 to size
        modifies a
        invariant forall k :: 0 <= k < i ==> a[k] == if k < sizearray then arr[k] else Nil
      {
        a[i] := if i < sizearray then arr[i] else Nil;
      }
      arr, sizearray := a, size;
    }

    /** setnodevector, which fails when the vector would be too large. */
    method SetNodeVector(size: nat) returns (ok: bool)
      modifies this`node, this`lsizenode, this`lastfree, this`isDummy
      ensures ok <==> size <= MAXASIZE
      ensures !ok ==> node == old(node) && lsizenode == old(lsizenode) && lastfree == old(lastfree) && isDummy == old(isDummy)
      ensures ok ==> fresh(node) && lsizenode <= MAXBITS && node.Length == Pow2(lsizenode) && size <= node.Length
      ensures ok ==> node[..] == seq(node.Length, _ => FREE_NODE) && (isDummy <==> size == 0)
      ensures ok ==> (if size == 0 then node.Length == 1 else node.Length < 2 * size) && lastfree == if size == 0 then 0 else node.Length
    {
      var lsize := 0;
      MaxASize();
      if size > 0 {
        lsize := CeilLog2(size);
        if lsize > MAXBITS {
          Pow2Mono(MAXBITS, lsize - 1);
          return false;
        }
        Pow2Mono(lsize, MAXBITS);
      }
      var n := 1;
      for i := 0 to lsize
        invariant n == Pow2(i)
      {
        n := n * 2;
      }
      node := new Node[n];
      for i := 0 to n
        modifies node
        invariant forall k :: 0 <= k < i ==> node[k] == FREE_NODE
      {
        node[i] := FREE_NODE;
      }
      assert node[..] == seq(n, _ => FREE_NODE);
      lsizenode, isDummy, lastfree := lsize, size == 0, if size == 0 then 0 else n;
      ok := true;
    }

    /** Counts the values in the array part from the key `from` up to `lim`, all in the slice (lo, hi]. */
    method CountSlice(from: nat, lim: nat, ghost lo: nat, ghost hi: nat) returns (lc: nat, i: nat)
      requires 0 < from <= lim + 1 && lim <= sizearray <= arr.Length && sizearray <= MAXASIZE && lo < from && lim <= hi
      requires Count(ArrayKeys(arr[..sizearray], from - 1), lo, hi) == 0
      ensures i == lim + 1 && lc == Count(ArrayKeys(arr[..sizearray], lim), lo, hi)
      ensures |ArrayKeys(arr[..sizearray], lim)| == |ArrayKeys(arr[..sizearray], from - 1)| + lc
    {
      hide Count;
      hide ArrayKeys;
      ghost var vals := arr[..sizearray];
      lc, i := 0, from;
      while i <= lim
        invariant from <= i <= lim + 1
        invariant lc == Count(ArrayKeys(vals, i - 1), lo, hi) && |ArrayKeys(vals, from - 1)| + lc == |ArrayKeys(vals, i - 1)|
      {
        CountNext(vals, i - 1, lo, hi);
        if arr[i - 1] != Nil {
          lc := lc + 1;
        }
        i := i + 1;
      }
    }

    /** numusearray: counts the keys in the array part, slice by slice. */
    method NumUseArray(nums: array<nat>) returns (ause: nat)
      requires sizearray <= arr.Length && sizearray <= MAXASIZE && Tallied(nums[..], {})
      modifies nums
      ensures var s := ArrayKeys(arr[..sizearray], sizearray); Tallied(nums[..], s) && ause == |s| == Count(s, 0, MAXASIZE)
    {
      hide Tallied;
      hide Count;
      hide ArrayKeys;
      ghost var vals := arr[..sizearray];
      MaxASize();
      ause := 0;
      var i, ttlg := 1, 1;
      TallyStart(nums[..], vals);
      for lg := 0 to MAXBITS + 1
        invariant ttlg == Pow2(lg) && i == 1 + Least(SliceLo(lg), sizearray)
        invariant Tallied(nums[..], ArrayKeys(vals, i - 1)) && ause == |ArrayKeys(vals, i - 1)| && nums.Length == MAXBITS + 1
      {
        var lim := ttlg;
        if lim > sizearray {
          lim := sizearray;
          if i > lim {
            break;
          }
        }
        assert i - 1 == SliceLo(lg);
        CountNothing(vals, i - 1, SliceLo(lg), ttlg);
        var lc;
        lc, i := CountSlice(i, lim, SliceLo(lg), ttlg);
        SliceTallied(nums[..], vals, lg, lim, lc);
        ghost var was := nums[..];
        nums[lg] := nums[lg] + lc;
        assert nums[..] == was[lg := was[lg] + lc];
        ause := ause + lc;
        ttlg := ttlg * 2;
      }
      AllCandidates(vals);
    }

    /** numusehash: counts the keys of the live nodes; `pnasize` is how many of them are array candidates. */
    method NumUseHash(nums: array<nat>, ghost t: TableValue) returns (totaluse: nat, pnasize: nat)
      requires Valid() && t == View() && Tallied(nums[..], Counted(t, |t.ns|))
      modifies nums
      ensures Tallied(nums[..], Counted(t, 0)) && |Counted(t, 0)| == |Counted(t, |t.ns|)| + totaluse
      ensures Count(Counted(t, 0), 0, MAXASIZE) == Count(Counted(t, |t.ns|), 0, MAXASIZE) + pnasize
    {
      hide *;
      ValidIs();
      totaluse, pnasize := 0, 0;
      var i := node.Length;
      while i > 0
        modifies nums
        invariant 0 <= i <= node.Length && Tallied(nums[..], Counted(t, i))
        invariant |Counted(t, i)| == |Counted(t, |t.ns|)| + totaluse
        invariant Count(Counted(t, i), 0, MAXASIZE) == Count(Counted(t, |t.ns|), 0, MAXASIZE) + pnasize
      {
        i := i - 1;
        NodeCounted(hash, t, i);
        assert node[i] == t.ns[i];
        if node[i].val != Nil {
          var c := CountInt(node[i].key, nums, Counted(t, i + 1));
          pnasize := pnasize + c;
          totaluse := totaluse + 1;
        }
      }
    }

    // ---- insertion, which may rehash once: with `level` 0 there is room for the key ----

    ghost predicate SameParts(a: array<TValue>, vals: seq<TValue>, n: array<Node>, size: nat, d: bool)
      reads this, arr
    {
      arr == a && arr[..] == vals && node == n && sizearray == size && isDummy == d
    }

    /** newkey. */
    method NewKey(key: TValue, ghost level: nat) returns (r: Result<Slot, Error>)
      requires Valid() && NewKeyOk(View(), key) && level <= 1 && (level == 0 ==> HasRoom(View()))
      modifies this, arr, node
      ensures Valid() && SameValues(old(View()), View())
      ensures r.Ok? ==> r.v != NilObject && r.v == SlotOf(View(), key)
      ensures r.Err? ==> level == 1 && r.e == TableOverflow
      ensures level == 1 ==> (r.Err? <==> old(Overflows(hash, View(), key)))
      ensures level == 0 ==> SameParts(old(arr), old(arr[..]), old(node), old(sizearray), old(isDummy))
      ensures level == 0 ==> r.v.NodeSlot? && KeyAdded(hash, old(View()), View(), key, r.v.i)
      ensures old(HasRoom(View())) ==> sizearray == old(sizearray) && node == old(node)
      ensures r.Ok? && old(Full(hash, View(), key)) ==> BestSize(old(Present(View())) + {key}, sizearray)
      ensures (arr == old(arr) || fresh(arr)) && (node == old(node) || fresh(node))
      decreases level, 2
    {
      hide *;
      ValidIs();
      ghost var t0 := View();
      var p, full := InsertKey(key);
      ValidIs();
      OverflowsIs(hash, t0, key);
      HasRoomSame(t0, View());
      if !full {
        SamePartsIs();
        return Ok(p);
      }
      LastFreeOnly(t0, View(), key);
      SamePresent(hash, t0, View());
      ghost var t1 := View();
      var ok := Rehash(key);
      ValidIs();
      SameValuesTrans(t0, t1, View());
      if !ok {
        return Err(TableOverflow);
      }
      ghost var t2 := View();
      ghost var arr1, vals, node1, size, dummy := arr, arr[..], node, sizearray, isDummy;
      r := Set(key, level - 1);
      ValidIs();
      SamePartsAre(arr1, vals, node1, size, dummy);
      SameValuesTrans(t0, t2, View());
    }

    /** luaH_set, and luaH_setstr. */
    method Set(key: TValue, ghost level: nat) returns (r: Result<Slot, Error>)
      requires Valid() && level <= 1
      requires level == 0 ==> key != Nil && key != NaN && (SlotOf(View(), key) != NilObject || HasRoom(View()))
      modifies this, arr, node
      ensures Valid() && SameValues(old(View()), View())
      ensures r.Ok? ==> r.v != NilObject && r.v == SlotOf(View(), key)
      ensures (r == Err(IndexIsNil) <==> key == Nil) && (r == Err(IndexIsNaN) <==> key == NaN)
      ensures r.Err? ==> level == 1 && r.e != InvalidKeyToNext
      ensures level == 1 ==> (r == Err(TableOverflow) <==> old(Overflows(hash, View(), key)))
      ensures old(SlotOf(View(), key)) != NilObject ==> r.Ok? && View() == old(View())
      ensures level == 0 ==> SameParts(old(arr), old(arr[..]), old(node), old(sizearray), old(isDummy))
      ensures level == 0 && old(SlotOf(View(), key)) == NilObject ==> r.v.NodeSlot? && KeyAdded(hash, old(View()), View(), key, r.v.i)
      ensures old(HasRoom(View())) ==> sizearray == old(sizearray) && node == old(node)
      ensures r.Ok? && old(SlotOf(View(), key) == NilObject && Full(hash, View(), key)) ==> BestSize(old(Present(View())) + {key}, sizearray)
      ensures (arr == old(arr) || fresh(arr)) && (node == old(node) || fresh(node))
      decreases level, 3
    {
      hide *;
      ValidIs();
      ghost var t0 := View();
      var p := Get(key);
      SameValuesRefl(t0);
      if p != NilObject {
        KeyOfSlot(hash, t0, key);
        SamePartsIs();
        KnownFits(hash, t0, key);
        return Ok(p);
      }
      KnownFits(hash, t0, key);
      if key == Nil {
        return Err(IndexIsNil);
      } else if key == NaN {
        return Err(IndexIsNaN);
      }
      NoSlot(t0, key);
      r := NewKey(key, level);
    }

    /** luaH_setnum. */
    method SetNum(key: Int32, ghost level: nat) returns (r: Result<Slot, Error>)
      requires Valid() && level <= 1
      requires level == 0 ==> SlotOf(View(), Int(key)) != NilObject || HasRoom(View())
      modifies this, arr, node
      ensures Valid() && SameValues(old(View()), View())
      ensures r.Ok? ==> r.v != NilObject && r.v == SlotOf(View(), Int(key))
      ensures r.Err? ==> level == 1 && r.e == TableOverflow
      ensures level == 1 ==> (r.Err? <==> old(Overflows(hash, View(), Int(key))))
      ensures old(SlotOf(View(), Int(key))) != NilObject ==> r.Ok? && View() == old(View())
      ensures level == 0 ==> SameParts(old(arr), old(arr[..]), old(node), old(sizearray), old(isDummy))
      ensures level == 0 && old(SlotOf(View(), Int(key))) == NilObject ==> r.v.NodeSlot? && KeyAdded(hash, old(View()), View(), Int(key), r.v.i)
      ensures old(HasRoom(View())) ==> sizearray == old(sizearray) && node == old(node)
      ensures r.Ok? && old(SlotOf(View(), Int(key)) == NilObject && Full(hash, View(), Int(key))) ==>
                BestSize(old(Present(View())) + {Int(key)}, sizearray)
      ensures (arr == old(arr) || fresh(arr)) && (node == old(node) || fresh(node))
      decreases level, 3
    {
      hide *;
      ValidIs();
      ghost var t0 := View();
      var p := GetNum(key);
      SameValuesRefl(t0);
      KnownFits(hash, t0, Int(key));
      if p != NilObject {
        SamePartsIs();
        return Ok(p);
      }
      NoSlot(t0, Int(key));
      r := NewKey(Int(key), level);
    }

    lemma SamePartsIs()
      ensures SameParts(arr, arr[..], node, sizearray, isDummy)
    {
    }

    /** rehash: the sizes fit the keys that are present and the one to be added, so that its insertion needs no
        further rehash. */
    method Rehash(key: TValue) returns (ok: bool)
      requires Valid() && NewKeyOk(View(), key)
      modifies this, arr, node
      ensures Valid() && SameValues(old(View()), View())
      ensures ok ==> SlotOf(View(), key) != NilObject || HasRoom(View())
      ensures ok ==> BestSize(old(Present(View())) + {key}, sizearray)
      ensures ok <==> !Overflowing(old(Present(View())) + {key})
      ensures (arr == old(arr) || fresh(arr)) && (node == old(node) || fresh(node))
      decreases 1, 1
    {
      hide *;
      ValidIs();
      ghost var t0 := View();
      ghost var s := Present(t0) + {key};
      var nums := new nat[MAXBITS + 1];
      for i := 0 to MAXBITS + 1
        modifies nums
        invariant forall k :: 0 <= k < i ==> nums[k] == 0
      {
        nums[i] := 0;
      }
      ZeroTally(nums[..]);
      CountedEnds(t0);
      RehashNeeds(hash, t0, key, 0);
      var nasize := NumUseArray(nums);
      assert arr[..sizearray] == t0.arr;
      var totaluse := nasize;
      var used, fromHash := NumUseHash(nums, t0);
      totaluse, nasize := totaluse + used, nasize + fromHash;
      var c := CountInt(key, nums, Present(t0));
      nasize, totaluse := nasize + c, totaluse + 1;
      var n, na := ComputeSizes(nums, nasize, s);
      RehashNeeds(hash, t0, key, n);
      CountInside(s, n);
      OverflowingIs(s, n);
      ok := Resize(n, totaluse - na);
      if ok {
        ValidIs();
        RehashRoom(View(), key);
      } else {
        OverflowKeeps(hash, t0, n);
        ValidNow();
      }
    }

    /** resize: both parts are rebuilt with new sizes and every value is moved. */
    method Resize(nasize: nat, nhsize: nat) returns (ok: bool)
      requires Valid() && nasize <= MAXASIZE && |Outside(Present(View()), nasize)| <= nhsize
      modifies this, arr, node
      ensures ok ==> Valid() && SameValues(old(View()), View()) && sizearray == nasize
      ensures ok ==> Used(View().ns) <= |Outside(old(Present(View())), nasize)| && nhsize <= node.Length && (isDummy ==> nhsize == 0)
      ensures ok <==> nhsize <= MAXASIZE
      ensures !ok ==> Shaped() && View() == old(View()).(arr := Grown(old(View()).arr, nasize))
      ensures (arr == old(arr) || fresh(arr)) && (node == old(node) || fresh(node))
      decreases 1, 0
    {
      hide *;
      ValidIs();
      ghost var t0 := View();
      var oldasize, nold := sizearray, node;
      if nasize > oldasize {
        SetArrayVector(nasize);
      }
      GrownIs(t0.arr, nasize, arr[..sizearray]);
      ok := SetNodeVector(nhsize);
      ShapedIs();
      ViewIs();
      if !ok {
        return;
      }
      sizearray := if nasize < oldasize then nasize else sizearray;
      ViewIs();
      ShapedIs();
      TransferBegins(hash, t0, View(), nasize);
      if nasize < oldasize {
        ReinsertSlice(oldasize, t0);
        ShapeOf();
        ViewIs();
        ghost var vals := arr[..sizearray];
        SetArrayVector(nasize);
        SameElements(vals, arr[..sizearray]);
        ViewIs();
        ShapedIs();
      }
      ReinsertNodes(nold, t0);
      ViewIs();
      TransferEnd(hash, t0, View());
      ValidNow();
    }

    /** The values of the vanishing slice of the array part go into nodes. */
    method ReinsertSlice(oldasize: nat, ghost t0: TableValue)
      requires Shaped() && sizearray < oldasize <= arr.Length && TableInv(hash, t0) && arr[..oldasize] == t0.arr
      requires |t0.arr| <= MAXASIZE
      requires Transferred(hash, t0, View(), Done(t0, sizearray, sizearray, |t0.ns|))
      modifies this, arr, node
      ensures Shaped() && arr == old(arr) && arr[..] == old(arr[..]) && node == old(node) && sizearray == old(sizearray) && isDummy == old(isDummy)
      ensures Transferred(hash, t0, View(), Done(t0, sizearray, |t0.arr|, |t0.ns|))
      decreases 0, 5
    {
      hide *;
      ghost var size, vals := sizearray, arr[..];
      SamePartsIs();
      for i := sizearray to oldasize
        invariant sizearray == size <= arr.Length && Shaped() && SameParts(old(arr), vals, old(node), size, old(isDummy))
        invariant Transferred(hash, t0, View(), Done(t0, size, i, |t0.ns|))
      {
        SamePartsAre(old(arr), vals, old(node), size, old(isDummy));
        ghost var done := Done(t0, size, i, |t0.ns|);
        DoneArray(t0, size, i, |t0.ns|);
        assert arr[i] == vals[i];
        if arr[i] != Nil {
          NotDoneArray(hash, t0, size, i);
          ghost var t1 := View();
          TransferReady(hash, t0, t1, done, Int(i + 1));
          ValidNow();
          var r := SetNum(i + 1, 0);
          SamePartsAre(old(arr), vals, old(node), size, old(isDummy));
          ValidIs();
          TransferStep(hash, t0, t1, View(), done, Int(i + 1), r.v);
          ViewIs();
          NodeSlotOnly(View(), Int(i + 1), arr[i]);
          Store(r.v, arr[i]);
          ViewIs();
          SamePartsAgain(vals);
        }
      }
      SamePartsAre(old(arr), vals, old(node), size, old(isDummy));
    }

    /** The values of the old nodes go to their new places. */
    method ReinsertNodes(nold: array<Node>, ghost t0: TableValue)
      requires Shaped() && TableInv(hash, t0) && |t0.arr| <= MAXASIZE && nold != node && nold[..] == t0.ns
      requires sizearray <= arr.Length
      requires Transferred(hash, t0, View(), Done(t0, sizearray, |t0.arr|, |t0.ns|))
      modifies this, arr, node
      ensures Shaped() && arr == old(arr) && node == old(node) && sizearray == old(sizearray) && isDummy == old(isDummy)
      ensures Transferred(hash, t0, View(), Done(t0, sizearray, |t0.arr|, 0))
      decreases 0, 5
    {
      hide *;
      ghost var size := sizearray;
      var i := nold.Length;
      while i > 0
        invariant 0 <= i <= nold.Length && nold[..] == t0.ns
        invariant Shaped() && arr == old(arr) && node == old(node) && sizearray == size <= arr.Length && isDummy == old(isDummy)
        invariant Transferred(hash, t0, View(), Done(t0, size, |t0.arr|, i))
      {
        i := i - 1;
        ghost var done := Done(t0, size, |t0.arr|, i + 1);
        DoneNode(t0, size, |t0.arr|, i);
        assert nold[i] == t0.ns[i];
        if nold[i].val != Nil {
          NotDoneNode(hash, t0, size, i);
          ghost var t1, vals := View(), arr[..];
          TransferReady(hash, t0, t1, done, nold[i].key);
          ValidNow();
          var r := Set(nold[i].key, 0);
          SamePartsAre(old(arr), vals, old(node), size, old(isDummy));
          ValidIs();
          TransferStep(hash, t0, t1, View(), done, nold[i].key, r.v);
          Store(r.v, nold[i].val);
        }
      }
    }

    lemma SamePartsAgain(vals: seq<TValue>)
      requires sizearray <= arr.Length == |vals| && arr[sizearray..] == vals[sizearray..] && arr[..sizearray] == vals[..sizearray]
      ensures SameParts(arr, vals, node, sizearray, isDummy)
    {
      assert arr[..] == arr[..sizearray] + arr[sizearray..];
      assert vals == vals[..sizearray] + vals[sizearray..];
    }

    lemma SamePartsAre(a: array<TValue>, vals: seq<TValue>, n: array<Node>, size: nat, d: bool)
      requires SameParts(a, vals, n, size, d)
      ensures arr == a && arr[..] == vals && node == n && sizearray == size && isDummy == d
    {
    }

    // ---- whole operations ----

    /** luaH_new. */
    constructor (narray: nat, nhash: nat, f: Hash)
      requires narray <= MAXASIZE && nhash <= MAXASIZE
      ensures Valid() && hash == f && fresh(arr) && fresh(node) && sizearray == narray
      ensures forall k :: Lookup(View(), k) == Nil
    {
      hash := f;
      arr, sizearray := new TValue[0], 0;
      node, lsizenode, lastfree, isDummy := new Node[0], 0, 0, true;
      new;
      SetArrayVector(narray);
      var ok := SetNodeVector(nhash);
      FreshNodes(hash, node.Length);
      MaxASize();
      Pow2Mono(lsizenode, MAXBITS);
      assert node[..] == View().ns;
    }

    /** A raw assignment: luaH_set, and the write through the pointer that it returns. The parts keep their sizes as
        long as a node is free; when the new key needs a rehash, the array part gets the best size for all keys. */
    method RawSet(key: TValue, v: TValue) returns (r: Result<(), Error>)
      requires Valid()
      modifies this, arr, node
      ensures Valid() && (arr == old(arr) || fresh(arr)) && (node == old(node) || fresh(node))
      ensures r.Ok? ==> Updated(old(View()), key, v, View())
      ensures r.Err? ==> SameValues(old(View()), View())
      ensures (r == Err(IndexIsNil) <==> key == Nil) && (r == Err(IndexIsNaN) <==> key == NaN)
      ensures r.Err? ==> r.e == IndexIsNil || r.e == IndexIsNaN || r.e == TableOverflow
      ensures r == Err(TableOverflow) <==> old(Overflows(hash, View(), key))
      ensures old(Lookup(View(), key)) != Nil ==> r.Ok?
      ensures var p := old(SlotOf(View(), key)); p != NilObject ==> r.Ok? && SlotIn(old(View()), p) && View() == Stored(old(View()), p, v)
      ensures old(HasRoom(View())) ==> sizearray == old(sizearray) && node == old(node)
      ensures r.Ok? && old(SlotOf(View(), key) == NilObject && Full(hash, View(), key)) ==> BestSize(old(Present(View())) + {key}, sizearray)
    {
      hide *;
      ValidIs();
      ghost var t0 := View();
      SlotOfIn(t0, key);
      var p := Set(key, 1);
      ValidIs();
      if p.Err? {
        return Err(p.e);
      }
      ghost var t1 := View();
      StoredUpdates(hash, t1, key, v);
      Store(p.v, v);
      ViewIs();
      ValidNow();
      UpdatedAfterSame(t0, t1, key, v, View());
      r := Ok(());
    }

    /** luaH_resizearray, which is only called to make the array part larger. */
    method ResizeArray(nasize: nat)
      requires Valid() && sizearray <= nasize <= MAXASIZE
      modifies this, arr, node
      ensures Valid() && SameValues(old(View()), View()) && sizearray == nasize
      ensures (arr == old(arr) || fresh(arr)) && (node == old(node) || fresh(node))
    {
      hide *;
      ValidIs();
      var nsize := if isDummy then 0 else node.Length;
      GrowFits(hash, View(), nasize);
      var ok := Resize(nasize, nsize);
    }

    /** findindex. */
    method FindIndex(key: TValue) returns (r: Result<int, Error>)
      requires Valid()
      ensures r == if key == Nil || SlotOf(View(), key) != NilObject then Ok(Position(View(), key)) else Err(InvalidKeyToNext)
    {
      if key == Nil {
        return Ok(-1);
      }
      if key.Int? && 0 < key.n <= sizearray {
        return Ok(key.n - 1);
      }
      var n := FindNode(key);
      r := if n == NULL then Err(InvalidKeyToNext) else Ok(sizearray + n);
    }

    /** luaH_next. */
    method Next(key: TValue) returns (r: Result<Field, Error>)
      requires Valid()
      ensures r.Err? <==> key != Nil && SlotOf(View(), key) == NilObject
      ensures r.Err? ==> r.e == InvalidKeyToNext
      ensures r.Ok? && r.v.Field? ==> StepsTo(View(), key, r.v.key) && r.v.val == Lookup(View(), r.v.key) != Nil
      ensures r.Ok? && r.v.NoMore? ==> DeadBetween(View(), Position(View(), key), Size(View()))
    {
      hide *;
      ValidIs();
      ghost var t := View();
      PositionFrom(t, key);
      var f := FindIndex(key);
      if f.Err? {
        return Err(f.e);
      }
      var i := f.v + 1;
      while i < sizearray && arr[i] == Nil
        invariant f.v < i && DeadBetween(t, f.v, i)
      {
        DeadOn(t, f.v, i);
        i := i + 1;
      }
      if i < sizearray {
        SteppedTo(hash, t, key, i);
        return Ok(Field(Int(i + 1), arr[i]));
      }
      i := i - sizearray;
      while i < node.Length && node[i].val == Nil
        invariant i >= 0 && f.v < i + sizearray && DeadBetween(t, f.v, i + sizearray)
      {
        DeadOn(t, f.v, i + sizearray);
        i := i + 1;
      }
      if i < node.Length {
        SteppedTo(hash, t, key, i + sizearray);
        return Ok(Field(node[i].key, node[i].val));
      }
      EndReached(t, f.v, i + sizearray);
      r := Ok(NoMore);
    }

    /** unbound_search. */
    method UnboundSearch(j0: nat) returns (i: nat)
      requires Valid() && j0 <= MAXASIZE && (j0 == 0 || Lookup(View(), Int(j0)) != Nil)
      ensures Border(View(), i)
    {
      hide *;
      ValidIs();
      ghost var t := View();
      i := j0;
      var j := j0 + 1;
      var v := RawGet(Int(j));
      while v != Nil
        invariant i < j <= MAX_INT && (i == 0 || Lookup(t, Int(i)) != Nil) && v == Lookup(t, Int(j))
        decreases MAX_INT - j
      {
        i := j;
        j := j * 2;
        if j > MAX_INT {
          i := LinearSearch();
          return;
        }
        v := RawGet(Int(j));
      }
      while j - i > 1
        invariant i < j <= MAX_INT && (i == 0 || Lookup(t, Int(i)) != Nil) && Lookup(t, Int(j)) == Nil
      {
        var m := (i + j) / 2;
        v := RawGet(Int(m));
        if v == Nil {
          j := m;
        } else {
          i := m;
        }
      }
      BorderFound(t, i);
    }

    /** The linear search of unbound_search, for tables "built with bad purposes". */
    method LinearSearch() returns (n: nat)
      requires Valid()
      ensures Border(View(), n)
    {
      ghost var t := View();
      hide TableInv;
      ValidIs();
      var i := 1;
      var v := RawGet(Int(i));
      while v != Nil
        invariant 1 <= i <= 2 * MAXASIZE + 1 && v == Lookup(t, Int(i))
        invariant forall k :: 1 <= k < i ==> Lookup(t, Int(k)) != Nil
        decreases 2 * MAXASIZE + 1 - i
      {
        FewPresent(hash, t, i);
        i := i + 1;
        v := RawGet(Int(i));
      }
      n := i - 1;
    }

    /** luaH_getn. */
    method GetN() returns (n: nat)
      requires Valid()
      ensures Border(View(), n)
    {
      ghost var t := View();
      hide ChainInv;
      ValidIs();
      var j := sizearray;
      if j > 0 && arr[j - 1] == Nil {
        var i := 0;
        while j - i > 1
          invariant 0 <= i < j <= sizearray && (i == 0 || arr[i - 1] != Nil) && arr[j - 1] == Nil
        {
          var m := (i + j) / 2;
          if arr[m - 1] == Nil {
            j := m;
          } else {
            i := m;
          }
        }
        n := i;
      } else if isDummy {
        n := j;
      } else {
        n := UnboundSearch(j);
      }
    }
  }

  ghost method ChainLength(ns: seq<Node>, n: nat) returns (left: nat)
    requires Acyclic(ns) && n < |ns|
    ensures Walk(ns, n, NULL, left)
  {
    assert Ends(ns, ns[n].next);
    var k: nat :| Walk(ns, ns[n].next, NULL, k);
    left := k + 1;
  }

  lemma CollidingChain(f: Hash, ns: seq<Node>, mp: nat)
    requires ChainInv(f, ns) && mp < |ns| && ns[mp].val != Nil
    ensures ns[mp].key != Nil && OnChain(ns, f(ns[mp].key, |ns|), mp)
  {
  }

  lemma Advanced(ns: seq<Node>, a: nat, left: nat)
    requires Walk(ns, a, NULL, left) && a < |ns| && ns[a].next != NULL
    ensures left > 0 && Walk(ns, ns[a].next, NULL, left - 1) && 0 <= ns[a].next < |ns|
  {
  }

  lemma NoRoom(t: TableValue)
    requires t.dummy || forall i :: 0 <= i < |t.ns| ==> t.ns[i].key != Nil
    ensures !HasRoom(t)
  {
    if HasRoom(t) {
      RoomIs(t);
    }
  }

  lemma SameValuesTrans(t: TableValue, t1: TableValue, t2: TableValue)
    requires SameValues(t, t1) && SameValues(t1, t2)
    ensures SameValues(t, t2)
  {
  }

  lemma SameValuesRefl(t: TableValue)
    ensures SameValues(t, t)
  {
  }

  lemma LastFreeOnly(t: TableValue, t1: TableValue, k: TValue)
    requires t1 == t.(lastfree := t1.lastfree)
    ensures SameValues(t, t1) && (NewKeyOk(t, k) ==> NewKeyOk(t1, k)) && (HasRoom(t) ==> HasRoom(t1))
  {
  }

  lemma HasRoomSame(t: TableValue, t1: TableValue)
    ensures t1 == t.(lastfree := t1.lastfree) ==> (HasRoom(t1) <==> HasRoom(t))
  {
  }

  lemma OverflowsIs(f: Hash, t: TableValue, k: TValue)
    requires TableInv(f, t) && NewKeyOk(t, k)
    ensures |t.arr| <= MAXASIZE && (Overflows(f, t, k) <==> Full(f, t, k) && Overflowing(Present(t) + {k}))
  {
    hide ChainInv;
    hide Present;
  }

  lemma KnownFits(f: Hash, t: TableValue, k: TValue)
    ensures SlotOf(t, k) != NilObject || k == Nil || k == NaN ==> !Overflows(f, t, k)
  {
    hide Present;
  }

  lemma SamePresent(f: Hash, t: TableValue, t1: TableValue)
    requires TableInv(f, t) && TableInv(f, t1) && SameValues(t, t1)
    ensures Present(t1) == Present(t)
  {
    PresentIs(f, t);
    PresentIs(f, t1);
    hide TableInv;
    hide Lookup;
  }

  lemma KeyOfSlot(f: Hash, t: TableValue, k: TValue)
    requires TableInv(f, t) && SlotOf(t, k) != NilObject
    ensures k != Nil && k != NaN
  {
    hide Chained;
    hide HomesHeld;
  }

  lemma NoSlot(t: TableValue, k: TValue)
    requires SlotOf(t, k) == NilObject && k != Nil && k != NaN
    ensures NewKeyOk(t, k)
  {
  }

  lemma ZeroTally(nums: seq<nat>)
    requires |nums| == MAXBITS + 1 && forall i :: 0 <= i < |nums| ==> nums[i] == 0
    ensures Tallied(nums, {})
  {
    forall i | 0 <= i <= MAXBITS
      ensures Count({}, SliceLo(i), Pow2(i)) == 0
    {
      assert IntsIn({}, SliceLo(i), Pow2(i)) == {};
    }
  }

  lemma CountInside(s: set<TValue>, n: nat)
    ensures Count(s, 0, n) <= |s|
  {
    OutsideCount(s, n);
  }

  lemma RehashRoom(t: TableValue, k: TValue)
    requires InArray(k, |t.arr|) || (!t.dummy && Used(t.ns) < |t.ns|)
    ensures SlotOf(t, k) != NilObject || HasRoom(t)
  {
  }

  lemma GrownIs(vals: seq<TValue>, size: nat, now: seq<TValue>)
    requires |now| == if size > |vals| then size else |vals|
    requires forall i :: 0 <= i < |now| ==> now[i] == if i < |vals| then vals[i] else Nil
    ensures now == Grown(vals, size)
  {
  }

  lemma TransferBegins(f: Hash, t: TableValue, t1: TableValue, size: nat)
    requires TableInv(f, t) && size <= MAXASIZE && 0 < |t1.ns| <= MAXASIZE
    requires t1.arr == Grown(t.arr, size)[..size] && t1.ns == seq(|t1.ns|, _ => FREE_NODE)
    requires t1.lastfree == if t1.dummy then 0 else |t1.ns|
    requires t1.dummy ==> |t1.ns| == 1
    requires |Outside(Present(t), size)| <= |t1.ns| && (t1.dummy ==> |Outside(Present(t), size)| == 0)
    ensures |t.arr| <= MAXASIZE && Transferred(f, t, t1, Done(t, size, if size < |t.arr| then size else |t.arr|, |t.ns|))
  {
    hide ChainInv;
    TransferStart(f, t, t1, size);
  }

  /** The key can go into `t1` without a rehash. */
  lemma TransferReady(f: Hash, t: TableValue, t1: TableValue, done: set<TValue>, k: TValue)
    requires TableInv(f, t) && Transferred(f, t, t1, done) && |t.arr| <= MAXASIZE && k in Present(t) && k !in done
    ensures TableInv(f, t1) && k != Nil && k != NaN && (SlotOf(t1, k) != NilObject || HasRoom(t1))
  {
    TransferRoom(f, t, t1, done, k);
    PresentIs(f, t);
    hide TableInv;
  }

  lemma TransferStep(f: Hash, t: TableValue, t1: TableValue, t2: TableValue, done: set<TValue>, k: TValue, p: Slot)
    requires Transferred(f, t, t1, done) && |t.arr| <= MAXASIZE && k in Present(t) && k !in done && TableInv(f, t2)
    requires p == SlotOf(t2, k) && p != NilObject
    requires SlotOf(t1, k) != NilObject ==> t2 == t1
    requires SlotOf(t1, k) == NilObject ==> p.NodeSlot? && KeyAdded(f, t1, t2, k, p.i)
    ensures SlotIn(t2, p) && Transferred(f, t, Stored(t2, p, Lookup(t, k)), done + {k})
  {
    hide TableInv;
    var t3 := Stored(t2, p, Lookup(t, k));
    SlotOfIn(t2, k);
    StoredUpdates(f, t2, k, Lookup(t, k));
    UsedSame(t2.ns, t3.ns);
    assert SameValues(t1, t2);
    TransferOne(f, t, t1, t3, done, k);
  }

  /** A key beyond the array part is stored in a node. */
  lemma NodeSlotOnly(t: TableValue, k: TValue, v: TValue)
    requires k.Int? && k.n > |t.arr| && SlotOf(t, k) != NilObject
    ensures SlotIn(t, SlotOf(t, k)) && Stored(t, SlotOf(t, k), v).arr == t.arr
  {
    SlotOfIn(t, k);
  }

  lemma SameElements(a: seq<TValue>, b: seq<TValue>)
    requires |a| == |b| && forall i :: 0 <= i < |b| ==> b[i] == a[i]
    ensures a == b
  {
  }

  lemma UpdatedAfterSame(t: TableValue, t1: TableValue, k: TValue, v: TValue, t2: TableValue)
    requires SameValues(t, t1) && Updated(t1, k, v, t2)
    ensures Updated(t, k, v, t2)
  {
  }

  /** When the array part grows, the nodes that there are suffice. */
  lemma GrowFits(f: Hash, t: TableValue, n: nat)
    requires TableInv(f, t) && |t.arr| <= n && |t.arr| <= MAXASIZE
    ensures |Outside(Present(t), n)| <= if t.dummy then 0 else |t.ns|
  {
    OutsideWithout(t, n, |t.ns|);
    Smaller(Outside(Present(t), n), KeysWithout(t.ns, |t.ns|, |t.ns|));
    KeysWithoutCount(t.ns, |t.ns|, |t.ns|);
    if t.dummy {
      assert Outside(Present(t), n) == {};
    }
  }

  lemma NodeFound(ns: seq<Node>, n: int, k: TValue)
    requires KeysUnique(ns) && 0 <= n < |ns| && ns[n].key == k && k != Nil
    ensures n != NULL && HasKey(ns, k) && n == IndexOf(ns, k)
  {
    NodeValueIs(ns, n);
  }

  lemma PositionFrom(t: TableValue, k: TValue)
    ensures Position(t, k) >= -1 && DeadBetween(t, Position(t, k), Position(t, k) + 1)
    ensures SlotOf(t, Nil) == NilObject && Position(t, Nil) == -1
  {
  }

  lemma DeadOn(t: TableValue, p: int, i: nat)
    requires DeadBetween(t, p, i)
    requires if i < |t.arr| then t.arr[i] == Nil else i - |t.arr| < |t.ns| && t.ns[i - |t.arr|].val == Nil
    ensures DeadBetween(t, p, i + 1)
  {
  }

  lemma SteppedTo(f: Hash, t: TableValue, k: TValue, i: nat)
    requires TableInv(f, t) && DeadBetween(t, Position(t, k), i) && Position(t, k) < i
    requires if i < |t.arr| then t.arr[i] != Nil else i - |t.arr| < |t.ns| && t.ns[i - |t.arr|].val != Nil
    ensures |t.arr| <= MAXASIZE
    ensures var k1 := if i < |t.arr| then Int(i + 1) else t.ns[i - |t.arr|].key;
      && StepsTo(t, k, k1) && Lookup(t, k1) == (if i < |t.arr| then t.arr[i] else t.ns[i - |t.arr|].val)
  {
    KeyPosition(f, t, i);
    PositionKey(f, t, KeyAt(t, i));
    hide TableInv;
    assert NextLive(t, Position(t, k), i);
  }

  lemma EndReached(t: TableValue, p: int, i: nat)
    requires DeadBetween(t, p, i) && i >= |t.arr| + |t.ns|
    ensures DeadBetween(t, p, Size(t))
  {
  }

  lemma BorderFound(t: TableValue, i: nat)
    requires i < MAX_INT && (i == 0 || Lookup(t, Int(i)) != Nil) && Lookup(t, Int(i + 1)) == Nil
    ensures Border(t, i)
  {
  }
}

/** The collectable objects of the Lua core and the references between them. */
module LuaObjects {

  type Id = nat

  /** A TValue: nil, any other value that is not collectable, or a pointer to a collectable object. */
  datatype Value = Nil | Plain(n: int) | Ref(id: Id)

  /** A non-empty entry of the node part of a table. */
  datatype Entry = Entry(key: Value, val: Value)

  /** `v` of an upvalue: it points into the stack of a thread, or at the upvalue's own storage. */
  datatype Cell = Open(th: Id, slot: nat) | Closed(v: Value)

  datatype Mode = Mode(weakKey: bool, weakValue: bool)

  datatype Object =
    | String(hash: nat)
    | Userdata(metatable: Value, env: Value, finalized: bool, hasGc: bool)
    | UpVal(cell: Cell)
    | Function(env: Value, proto: Value, upvals: seq<Value>)
    | Table(metatable: Value, arr: seq<Value>, node: seq<Entry>, mode: Mode)
    | Thread(gt: Value, stack: seq<Value>, openupval: seq<Id>)
    | Proto(names: seq<Value>, k: seq<Value>, p: seq<Value>)

  type Heap = map<Id, Object>

  predicate IsOpen(o: Object) {
    o.UpVal? && o.cell.Open?
  }

  predicate IsWeak(o: Object) {
    o.Table? && (o.mode.weakKey || o.mode.weakValue)
  }

  /** Objects that are queued on a gray list, rather than marked at once. */
  predicate Greyable(o: Object) {
    o.Function? || o.Table? || o.Thread? || o.Proto?
  }

  /** The value an upvalue reads: the stack slot while it is open, its own copy afterwards. */
  function CellValue(h: Heap, c: Cell): Value {
    match c
    case Closed(v) => v
    case Open(th, slot) =>
      if th in h && h[th].Thread? && slot < |h[th].stack| then h[th].stack[slot] else Nil
  }

  predicate EntryPoints(e: Entry, r: Id) {
    e.key == Ref(r) || e.val == Ref(r)
  }

  /** `x` holds a reference to `r`, weak or strong. */
  ghost predicate Points(h: Heap, x: Id, r: Id) {
    x in h &&
    match h[x]
    case String(_) => false
    case Userdata(mt, env, _, _) => mt == Ref(r) || env == Ref(r)
    case UpVal(c) => CellValue(h, c) == Ref(r)
    case Function(env, p, us) => env == Ref(r) || p == Ref(r) || Ref(r) in us
    case Table(mt, a, n, _) => mt == Ref(r) || Ref(r) in a || exists e :: e in n && EntryPoints(e, r)
    case Thread(gt, st, _) => gt == Ref(r) || Ref(r) in st
    case Proto(ns, k, p) => Ref(r) in ns || Ref(r) in k || Ref(r) in p
  }

  /** `x` holds a strong reference to `r`: the weak side of a weak table does not count. */
  ghost predicate StrongPoints(h: Heap, x: Id, r: Id) {
    x in h &&
    match h[x]
    case Table(mt, a, n, m) =>
      || mt == Ref(r)
      || (!m.weakValue && Ref(r) in a)
      || exists e :: e in n && ((!m.weakKey && e.key == Ref(r)) || (!m.weakValue && e.val == Ref(r)))
    case _ => Points(h, x, r)
  }

  /** An entry of a node holds a strong reference to `r`. */
  predicate EntrySpreads(e: Entry, m: Mode, r: Id) {
    (!m.weakKey && e.key == Ref(r)) || (!m.weakValue && e.val == Ref(r))
  }

  /** All references lead to objects of the heap. */
  ghost predicate NoneDangling(h: Heap) {
    forall x, r :: Points(h, x, r) ==> r in h
  }

  /** Marking `x` leads to marking `r`: strong references are followed, and strings count as values, so that a weak
      table keeps those that it refers to. */
  ghost predicate Spreads(h: Heap, x: Id, r: Id) {
    StrongPoints(h, x, r) || (Points(h, x, r) && r in h && h[r].String?)
  }

  /** Marking does not lead out of `rs`. */
  ghost predicate ClosedUnder(h: Heap, rs: set<Id>) {
    rs <= h.Keys && forall x, r :: x in rs && Spreads(h, x, r) ==> r in rs
  }

  /** A userdata whose finalizer has still to be called. */
  predicate Pending(h: Heap, u: Id) {
    u in h && h[u].Userdata? && h[u].hasGc && !h[u].finalized
  }
}

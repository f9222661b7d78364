/**
  Two runs that differ in the names of allocations only: related data, related memory, and
  that the operations of a function cannot tell related states apart.
 */
module Renaming {
  import opened Records
  import opened IR

  /** Which allocation of the second run stands for one of the first; not all of either need be there. */
  type Rho = map<nat, nat>

  ghost predicate Injective(rho: Rho) {
    forall a, b :: a in rho && b in rho && rho[a] == rho[b] ==> a == b
  }

  predicate Same(rho: Rho, d: Data, e: Data) {
    match d
    case Int(_) => d == e
    case Ptr(a, off) => a in rho && e == Ptr(rho[a], off)
  }

  ghost predicate SameAll(rho: Rho, ds: seq<Data>, es: seq<Data>) {
    |ds| == |es| && forall i :: 0 <= i < |ds| ==> Same(rho, ds[i], es[i])
  }

  /** The renamed allocations exist on both sides and hold the same bits. */
  ghost predicate SameMemory(rho: Rho, w: World, u: World) {
    && Injective(rho)
    && forall a :: a in rho ==>
         a < w.next && a in w.cells && rho[a] < u.next && rho[a] in u.cells && u.cells[rho[a]] == w.cells[a]
  }

  ghost predicate Extends(rho: Rho, more: Rho) {
    forall a :: a in rho ==> a in more && more[a] == rho[a]
  }

  lemma ExtendsTwice(rho: Rho, mid: Rho, more: Rho)
    requires Extends(rho, mid) && Extends(mid, more)
    ensures Extends(rho, more)
  {
  }

  /** The renaming after an operation: an allocation on both sides adds the two new blocks. */
  function After(rho: Rho, op: Op, w: World, u: World): Rho {
    if op.Allocates() then rho[w.next := u.next] else rho
  }

  lemma AfterExtends(rho: Rho, op: Op, w: World, u: World)
    requires SameMemory(rho, w, u)
    ensures Extends(rho, After(rho, op, w, u)) && Injective(After(rho, op, w, u))
  {
  }

  lemma SameInts(rho: Rho, ds: seq<Data>, es: seq<Data>)
    requires SameAll(rho, ds, es)
    ensures Ints(ds) == Ints(es)
  {
  }

  lemma AllocateSame(sem: Sem, rho: Rho, bits: nat, w: World, u: World)
    requires SameMemory(rho, w, u)
    ensures var (d, w') := Allocate(sem, bits, w);
            var (e, u') := Allocate(sem, bits, u);
            var more := rho[w.next := u.next];
            Same(more, d, e) && SameMemory(more, w', u')
  {
  }

  lemma WriteSame(sem: Sem, rho: Rho, f: nat, ds: seq<Data>, es: seq<Data>, w: World, u: World)
    requires SameMemory(rho, w, u) && SameAll(rho, ds, es)
    ensures var (d, w') := Exec(sem, Write(f), ds, w);
            var (e, u') := Exec(sem, Write(f), es, u);
            Same(rho, d, e) && SameMemory(rho, w', u')
  {
    ArgSame(rho, ds, es, 0);
    ArgSame(rho, ds, es, 1);
  }

  lemma ArgSame(rho: Rho, ds: seq<Data>, es: seq<Data>, i: nat)
    requires SameAll(rho, ds, es)
    ensures Same(rho, Arg(ds, i), Arg(es, i))
  {
  }

  lemma PureSame(sem: Sem, rho: Rho, op: Op, ds: seq<Data>, es: seq<Data>, w: World, u: World)
    requires SameMemory(rho, w, u) && SameAll(rho, ds, es) && (op.Arith? || op.Offset? || op.Cast? || op.PtrEq? || op.Read?)
    ensures Exec(sem, op, ds, w).1 == w && Exec(sem, op, es, u).1 == u
    ensures Same(rho, Exec(sem, op, ds, w).0, Exec(sem, op, es, u).0)
  {
    ArgSame(rho, ds, es, 0);
    ArgSame(rho, ds, es, 1);
    SameInts(rho, ds, es);
  }

  /** An operation of the function does the same on both sides. */
  lemma ExecSame(sem: Sem, rho: Rho, op: Op, ds: seq<Data>, es: seq<Data>, w: World, u: World)
    requires SameMemory(rho, w, u) && SameAll(rho, ds, es) && !op.CallsRuntime()
    ensures var (d, w') := Exec(sem, op, ds, w);
            var (e, u') := Exec(sem, op, es, u);
            Same(After(rho, op, w, u), d, e) && SameMemory(After(rho, op, w, u), w', u')
  {
    match op
    case NewStack(elemBits, count) => AllocateSame(sem, rho, Product(elemBits, count), w, u);
    case NewHeap =>
      ArgSame(rho, ds, es, 0);
      AllocateSame(sem, rho, Product(8, IntOf(Arg(ds, 0))), w, u);
    case Write(f) => WriteSame(sem, rho, f, ds, es, w, u);
    case _ => PureSame(sem, rho, op, ds, es, w, u);
  }
}

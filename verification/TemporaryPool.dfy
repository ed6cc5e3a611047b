/** The pool of reused temporaries (create_temporary and free_temporary, symbol-table.c). */
module TemporaryPool {
  import opened Instructions

  /**
   * Free temporaries by type, and the counters for new entries: `nextKey` for the entry
   * itself, `nextId` for its number among the local variables, `nextLabel` for labels.
   * `made` lists the temporaries that have been entered into the symbol table.
   */
  datatype Pool = Pool(
    chars: seq<Symbol>, ints: seq<Symbol>, addrs: seq<Symbol>, nextKey: nat, nextId: nat, nextLabel: nat,
    made: seq<Symbol>)

  function FreeOf(pool: Pool, t: Type): seq<Symbol> {
    if t == CharType then pool.chars else if t == IntType then pool.ints else if t == AddrType then pool.addrs else []
  }

  function WithFree(pool: Pool, t: Type, free: seq<Symbol>): Pool {
    if t == CharType then pool.(chars := free) else if t == IntType then pool.(ints := free)
    else if t == AddrType then pool.(addrs := free) else pool
  }

  function NewTemporary(pool: Pool, t: Type): Symbol {
    Symbol(pool.nextKey, Local, t, OtherType, false, true, false, 0, pool.nextId)
  }

  /** A free temporary of the type, or a new one. */
  function Created(pool: Pool, t: Type): (Symbol, Pool) {
    var free := FreeOf(pool, t);
    if free != [] then (free[0], WithFree(pool, t, free[1..]))
    else (NewTemporary(pool, t),
          pool.(nextKey := pool.nextKey + 1, nextId := pool.nextId + 1, made := pool.made + [NewTemporary(pool, t)]))
  }

  function Replaced(list: seq<Symbol>, x: Symbol, y: Symbol): (r: seq<Symbol>)
    ensures |r| == |list| && forall i :: 0 <= i < |list| ==> r[i] == if list[i] == x then y else list[i]
  {
    seq(|list|, i requires 0 <= i < |list| => if list[i] == x then y else list[i])
  }

  /** The type of what an address leads to is set in its entry. */
  function Retyped(pool: Pool, x: Symbol, t: Type): Pool {
    pool.(made := Replaced(pool.made, x, x.(elementType := t)))
  }

  function Freed(pool: Pool, x: Symbol): Pool {
    WithFree(pool, x.typ, [x] + FreeOf(pool, x.typ))
  }

  /** What becomes of an operand that has been used. */
  function FreedIfTemporary(pool: Pool, x: Symbol): Pool {
    if x.isTemporary then Freed(pool, x) else pool
  }

  // ---------------------------------------------------------------- what the pool may hand out

  ghost predicate IsFree(pool: Pool, x: Symbol) {
    x in FreeOf(pool, x.typ)
  }

  /** The temporaries that the pool may hand out, now or later. */
  ghost predicate Available(pool: Pool, x: Symbol) {
    x.isTemporary && (IsFree(pool, x) || x.key >= pool.nextKey)
  }

  predicate OnceEach(list: seq<Symbol>) {
    forall i, j :: 0 <= i < j < |list| ==> list[i] != list[j]
  }

  /** Free lists hold local temporaries of their type, each once, that have been made before. */
  ghost predicate PoolOk(pool: Pool) {
    forall t: Type :: ListOk(FreeOf(pool, t), t, pool.nextKey)
  }

  ghost predicate ListOk(list: seq<Symbol>, t: Type, nextKey: nat) {
    && OnceEach(list)
    && forall x :: x in list ==> x.typ == t && x.isTemporary && x.scope == Local && !x.isConstant && x.key < nextKey
  }

  /** Whatever the second pool may hand out, the first one may. */
  ghost predicate Shrinks(pool: Pool, pool': Pool) {
    pool.nextKey <= pool'.nextKey && pool.nextLabel <= pool'.nextLabel
    && forall x: Symbol :: Available(pool', x) ==> Available(pool, x)
  }

  /** A temporary that has been handed out and not been given back. */
  ghost predicate Pending(pool: Pool, x: Symbol) {
    x.isTemporary && x.scope == Local && !x.isConstant && x.key < pool.nextKey && !IsFree(pool, x)
  }

  lemma FreeOfWithFree(pool: Pool, t: Type, free: seq<Symbol>, u: Type)
    requires t == CharType || t == IntType || t == AddrType
    ensures FreeOf(WithFree(pool, t, free), u) == if u == t then free else FreeOf(pool, u)
  {
  }

  /** A temporary that is handed out was available, has the type and is available no longer. */
  lemma CreatedIsPending(pool: Pool, t: Type)
    requires PoolOk(pool) && (t == CharType || t == IntType || t == AddrType)
    ensures var (x, pool') := Created(pool, t);
      && PoolOk(pool') && Shrinks(pool, pool') && Available(pool, x) && Pending(pool', x) && x.typ == t
      && pool'.nextLabel == pool.nextLabel
  {
    var free := FreeOf(pool, t);
    var (x, pool') := Created(pool, t);
    if free != [] {
      assert x == free[0] && x in free;
      forall u: Type ensures FreeOf(pool', u) == if u == t then free[1..] else FreeOf(pool, u) {
        FreeOfWithFree(pool, t, free[1..], u);
      }
      assert x !in free[1..];
      assert ListOk(free, t, pool.nextKey) && ListOk(free[1..], t, pool.nextKey);
    }
    forall u: Type ensures ListOk(FreeOf(pool', u), u, pool'.nextKey) {
      assert ListOk(FreeOf(pool, u), u, pool.nextKey);
    }
  }

  /** Is there no free temporary of the type? */
  ghost predicate NoneFree(pool: Pool, t: Type) {
    && (t == CharType ==> pool.chars == []) && (t == IntType ==> pool.ints == [])
    && (t == AddrType ==> pool.addrs == [])
  }

  function FreeCount(pool: Pool): nat {
    |pool.chars| + |pool.ints| + |pool.addrs|
  }

  /** A new entry is made exactly if no temporary of the type is free; else there is one free temporary less. */
  lemma CreatedReuses(pool: Pool, t: Type)
    requires t == CharType || t == IntType || t == AddrType
    ensures var (x, pool') := Created(pool, t);
      if NoneFree(pool, t)
      then pool'.made == pool.made + [x] && x.id == pool.nextId && pool'.nextId == pool.nextId + 1
             && FreeCount(pool') == FreeCount(pool)
      else pool'.made == pool.made && pool'.nextId == pool.nextId && pool'.nextKey == pool.nextKey
             && FreeCount(pool') == FreeCount(pool) - 1
  {
  }

  /** The temporaries that have been made and are not free. */
  function InUse(pool: Pool): int {
    |pool.made| - FreeCount(pool)
  }

  lemma UseChanges(pool: Pool, t: Type, x: Symbol)
    requires t == CharType || t == IntType || t == AddrType
    ensures InUse(Created(pool, t).1) == InUse(pool) + 1
    ensures x.isTemporary && (x.typ == CharType || x.typ == IntType || x.typ == AddrType) ==>
              InUse(FreedIfTemporary(pool, x)) == InUse(pool) - 1
    ensures !x.isTemporary ==> FreedIfTemporary(pool, x) == pool
  {
    CreatedReuses(pool, t);
  }

  lemma RetypingKeepsUse(pool: Pool, x: Symbol, t: Type)
    ensures InUse(Retyped(pool, x, t)) == InUse(pool)
  {
  }

  /** A pending temporary that is given back is available again, and no other one becomes so. */
  lemma FreedIsAvailable(pool: Pool, x: Symbol)
    requires PoolOk(pool) && Pending(pool, x) && (x.typ == CharType || x.typ == IntType || x.typ == AddrType)
    ensures var pool' := Freed(pool, x);
      && PoolOk(pool') && Available(pool', x) && pool'.nextKey == pool.nextKey && pool'.nextLabel == pool.nextLabel
      && (forall y: Symbol :: Available(pool', y) <==> Available(pool, y) || y == x)
      && (forall y: Symbol :: Pending(pool', y) <==> Pending(pool, y) && y != x)
  {
    var pool' := Freed(pool, x);
    var free := FreeOf(pool, x.typ);
    forall u: Type ensures FreeOf(pool', u) == if u == x.typ then [x] + free else FreeOf(pool, u) {
      FreeOfWithFree(pool, x.typ, [x] + free, u);
    }
  }

  /** Which temporaries there are does not turn on what is recorded of them. */
  lemma RetypedIsSame(pool: Pool, x: Symbol, t: Type)
    ensures var pool' := Retyped(pool, x, t);
      && (PoolOk(pool) ==> PoolOk(pool')) && pool'.addrs == pool.addrs && Shrinks(pool, pool')
      && pool'.nextKey == pool.nextKey && pool'.nextLabel == pool.nextLabel && pool'.nextId == pool.nextId
      && (forall y: Symbol :: Available(pool', y) <==> Available(pool, y))
      && (forall y: Symbol :: Pending(pool', y) <==> Pending(pool, y))
  {
    hide Replaced;
    var pool' := Retyped(pool, x, t);
    forall u: Type ensures FreeOf(pool', u) == FreeOf(pool, u) {
    }
    if PoolOk(pool) {
      forall u: Type ensures ListOk(FreeOf(pool', u), u, pool'.nextKey) {
        assert ListOk(FreeOf(pool, u), u, pool.nextKey);
      }
    }
  }

  lemma ShrinksTransitive(pool: Pool, pool1: Pool, pool2: Pool)
    requires Shrinks(pool, pool1) && Shrinks(pool1, pool2)
    ensures Shrinks(pool, pool2)
  {
  }

  /** What is pending stays so while other temporaries are handed out and given back. */
  lemma PendingStays(pool: Pool, pool': Pool, x: Symbol)
    requires Shrinks(pool, pool') && Pending(pool, x)
    ensures Pending(pool', x)
  {
    assert !Available(pool, x);
  }
}

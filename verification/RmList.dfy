// The circular list of pending removals (rm_list.c).  A cell stores only the exclusive or of its two
// neighbours' addresses; an iterator carries two adjacent addresses so that it can step.
module RmList {

  // A pointer, as the 64-bit integer listel_xor takes it for.
  datatype Ptr = Ptr(bits: bv64)

  const NULL := Ptr(0)

  function Xor(a: Ptr, b: Ptr): Ptr { Ptr(a.bits ^ b.bits) }

  lemma XorBack(a: Ptr, b: Ptr)
    ensures Xor(Xor(a, b), a) == b
  {
  }

  lemma XorSwaps(a: Ptr, b: Ptr)
    ensures Xor(a, b) == Xor(b, a) && Xor(a, a) == NULL
  {
  }

  lemma XorCancels(a: Ptr, b: Ptr)
    ensures Xor(Xor(a, b), a) == b && Xor(Xor(b, a), a) == b && Xor(a, Xor(b, a)) == b && Xor(a, Xor(a, b)) == b
  {
    hide Xor;
    XorBack(a, b);
    XorSwaps(a, b);
    XorSwaps(a, Xor(a, b));
  }

  datatype Cell<T> = Cell(val: T, pn: Ptr)

  datatype Iter = Iter(prev: Ptr, cur: Ptr)

  // Neighbours on a ring of n places.
  function Next(i: nat, n: nat): (r: nat)
    ensures n > 0 ==> r < n
  {
    if i + 1 >= n then 0 else i + 1
  }

  function Prev(i: nat, n: nat): (r: nat)
    ensures i < n ==> r < n
  {
    if i == 0 then (if n == 0 then 0 else n - 1) else i - 1
  }

  predicate Woven<T>(mem: map<Ptr, Cell<T>>, ring: seq<Ptr>, i: nat)
    requires i < |ring|
  {
    ring[i] in mem && mem[ring[i]].pn == Xor(ring[Prev(i, |ring|)], ring[Next(i, |ring|)])
  }

  // Every cell on the ring holds the exclusive or of its neighbours.
  ghost predicate Ring<T>(mem: map<Ptr, Cell<T>>, ring: seq<Ptr>) {
    && |ring| > 0
    && (forall i {:trigger Woven(mem, ring, i)} :: 0 <= i < |ring| ==> Woven(mem, ring, i))
    && (forall i, j :: 0 <= i < j < |ring| ==> ring[i] != ring[j])
    && (forall a :: a in mem ==> a in ring)
  }

  function Inserted<T>(s: seq<T>, k: nat, x: T): seq<T>
    requires k <= |s|
  {
    s[..k] + [x] + s[k..]
  }

  function Without<T>(s: seq<T>, k: nat): seq<T>
    requires k < |s|
  {
    s[..k] + s[k + 1..]
  }

  lemma InsertedAt<T>(s: seq<T>, k: nat, x: T, i: nat)
    requires k <= |s| && i <= |s|
    ensures |Inserted(s, k, x)| == |s| + 1
    ensures Inserted(s, k, x)[i] == if i < k then s[i] else if i == k then x else s[i - 1]
  {
  }

  // ---- Inserting between two neighbours ----

  // What list_iter_insert_before writes when the list is not empty.
  function InsertMem<T>(mem: map<Ptr, Cell<T>>, prev: Ptr, cur: Ptr, el: Ptr, val: T): map<Ptr, Cell<T>>
    requires prev in mem && cur in mem
  {
    mem[el := Cell(val, Xor(cur, prev))]
       [prev := mem[prev].(pn := Xor(Xor(cur, mem[prev].pn), el))]
       [cur := mem[cur].(pn := Xor(el, Xor(mem[cur].pn, prev)))]
  }

  lemma InsertCells<T>(mem: map<Ptr, Cell<T>>, ring: seq<Ptr>, k: nat)
    requires Ring(mem, ring) && k < |ring| && |ring| >= 2
    ensures var n, prev, cur := |ring|, ring[k], ring[Next(k, |ring|)];
            && prev in mem && cur in mem && prev != cur
            && mem[prev].pn == Xor(ring[Prev(k, n)], cur) && mem[cur].pn == Xor(prev, ring[Next(Next(k, n), n)])
  {
    assert Woven(mem, ring, k) && Woven(mem, ring, Next(k, |ring|));
    hide Xor;
  }

  lemma InsertLinks<T>(mem: map<Ptr, Cell<T>>, ring: seq<Ptr>, k: nat, el: Ptr, val: T)
    requires Ring(mem, ring) && k < |ring| && |ring| >= 2 && el !in mem
    ensures var n, prev, cur := |ring|, ring[k], ring[Next(k, |ring|)];
            && prev in mem && cur in mem && prev != cur && el != prev && el != cur
            && var mem' := InsertMem(mem, prev, cur, el, val);
            && mem'[el].pn == Xor(prev, cur)
            && mem'[prev].pn == Xor(ring[Prev(k, n)], el)
            && mem'[cur].pn == Xor(el, ring[Next(Next(k, n), n)])
  {
    var n := |ring|;
    var c := Next(k, n);
    InsertCells(mem, ring, k);
    hide Xor, Ring, Woven, Next, Prev;
    XorCancels(ring[c], ring[Prev(k, n)]);
    XorCancels(ring[k], ring[Next(c, n)]);
    XorSwaps(ring[k], ring[c]);
  }

  // Only the two neighbours of the new place see it.
  lemma InsertNeighbours(ring: seq<Ptr>, k: nat, el: Ptr, i: nat)
    requires k < |ring| && |ring| >= 2 && i <= |ring|
    ensures var n, ring' := |ring|, Inserted(ring, k + 1, el);
            |ring'| == n + 1 &&
            var before, after := ring'[Prev(i, n + 1)], ring'[Next(i, n + 1)];
            if i == k + 1 then ring'[i] == el && before == ring[k] && after == ring[Next(k, n)]
            else
              var j := if i <= k then i else i - 1;
              && ring'[i] == ring[j]
              && before == (if j == Next(k, n) then el else ring[Prev(j, n)])
              && after == (if j == k then el else ring[Next(j, n)])
  {
    InsertedAt(ring, k + 1, el, i);
    InsertedAt(ring, k + 1, el, Prev(i, |ring| + 1));
    InsertedAt(ring, k + 1, el, Next(i, |ring| + 1));
  }

  lemma InsertCell<T>(mem: map<Ptr, Cell<T>>, ring: seq<Ptr>, k: nat, el: Ptr, val: T, j: nat)
    requires Ring(mem, ring) && k < |ring| && |ring| >= 2 && el !in mem && j < |ring| && j != k && j != Next(k, |ring|)
    requires ring[k] in mem && ring[Next(k, |ring|)] in mem
    ensures ring[j] in mem && ring[j] in InsertMem(mem, ring[k], ring[Next(k, |ring|)], el, val)
    ensures InsertMem(mem, ring[k], ring[Next(k, |ring|)], el, val)[ring[j]] == mem[ring[j]]
  {
    hide Xor;
    assert Woven(mem, ring, j);
  }

  lemma InsertWovenAt<T>(mem: map<Ptr, Cell<T>>, ring: seq<Ptr>, k: nat, el: Ptr, val: T, i: nat)
    requires Ring(mem, ring) && k < |ring| && |ring| >= 2 && el !in mem && i <= |ring|
    requires ring[k] in mem && ring[Next(k, |ring|)] in mem
    ensures |Inserted(ring, k + 1, el)| == |ring| + 1
    ensures Woven(InsertMem(mem, ring[k], ring[Next(k, |ring|)], el, val), Inserted(ring, k + 1, el), i)
  {
    hide Xor, InsertMem, Inserted, Ring, Next, Prev;
    InsertLinks(mem, ring, k, el, val);
    InsertNeighbours(ring, k, el, i);
    InsertKeys(mem, ring[k], ring[Next(k, |ring|)], el, val);
    var j := if i <= k then i else i - 1;
    if i != k + 1 && j != k && j != Next(k, |ring|) {
      InsertCell(mem, ring, k, el, val, j);
      RingWoven(mem, ring, j);
    }
  }

  lemma RingWoven<T>(mem: map<Ptr, Cell<T>>, ring: seq<Ptr>, j: nat)
    requires Ring(mem, ring) && j < |ring|
    ensures Woven(mem, ring, j)
  {
  }

  lemma InsertRing<T>(mem: map<Ptr, Cell<T>>, ring: seq<Ptr>, k: nat, el: Ptr, val: T)
    requires Ring(mem, ring) && k < |ring| && |ring| >= 2 && el !in mem
    ensures ring[k] in mem && ring[Next(k, |ring|)] in mem
    ensures Ring(InsertMem(mem, ring[k], ring[Next(k, |ring|)], el, val), Inserted(ring, k + 1, el))
  {
    hide Xor, Woven, InsertMem;
    InsertLinks(mem, ring, k, el, val);
    var ring' := Inserted(ring, k + 1, el);
    var mem' := InsertMem(mem, ring[k], ring[Next(k, |ring|)], el, val);
    InsertedAt(ring, k + 1, el, 0);
    forall i | 0 <= i < |ring'|
      ensures Woven(mem', ring', i)
    {
      InsertWovenAt(mem, ring, k, el, val, i);
    }
    InsertDistinct(mem, ring, k, el);
    forall a | a in mem'
      ensures a in ring'
    {
      InsertKeys(mem, ring[k], ring[Next(k, |ring|)], el, val);
    }
  }

  lemma InsertKeys<T>(mem: map<Ptr, Cell<T>>, prev: Ptr, cur: Ptr, el: Ptr, val: T)
    requires prev in mem && cur in mem
    ensures InsertMem(mem, prev, cur, el, val).Keys == mem.Keys + {el}
  {
    hide Xor;
  }

  lemma InsertDistinct<T>(mem: map<Ptr, Cell<T>>, ring: seq<Ptr>, k: nat, el: Ptr)
    requires Ring(mem, ring) && k < |ring| && el !in mem
    ensures var ring' := Inserted(ring, k + 1, el);
            && (forall i, j :: 0 <= i < j < |ring'| ==> ring'[i] != ring'[j])
            && (forall a :: a in ring' <==> a in ring || a == el)
  {
    hide Xor;
    forall i | 0 <= i < |ring|
      ensures ring[i] != el
    {
      assert Woven(mem, ring, i);
    }
  }

  // ---- Removing a cell between two neighbours ----

  // What list_iter_remove writes: the second line reads what the first has written, which matters
  // when both neighbours are the barrier.
  function RemoveMem<T>(mem: map<Ptr, Cell<T>>, prev: Ptr, cur: Ptr, next: Ptr): map<Ptr, Cell<T>>
    requires prev in mem && next in mem
  {
    var mem1 := mem[prev := mem[prev].(pn := Xor(Xor(cur, mem[prev].pn), next))];
    mem1[next := mem1[next].(pn := Xor(Xor(mem1[next].pn, cur), prev))] - {cur}
  }

  lemma XorNull(a: Ptr)
    ensures Xor(a, NULL) == a
  {
  }

  // What is known of the three cells a removal touches.
  lemma RemoveCells<T>(mem: map<Ptr, Cell<T>>, ring: seq<Ptr>, k: nat)
    requires Ring(mem, ring) && k + 1 < |ring|
    ensures var n := |ring|;
            var d := Next(k + 1, n);
            && ring[k] in mem && ring[k + 1] in mem && ring[d] in mem
            && ring[k] != ring[k + 1] && ring[d] != ring[k + 1] && (ring[d] == ring[k] <==> n == 2)
            && mem[ring[k]].pn == Xor(ring[Prev(k, n)], ring[k + 1])
            && mem[ring[d]].pn == Xor(ring[k + 1], ring[Next(d, n)])
            && (n == 2 ==> ring[Prev(k, n)] == ring[k + 1])
  {
    hide Xor;
    var d := Next(k + 1, |ring|);
    assert Woven(mem, ring, k) && Woven(mem, ring, d) && Woven(mem, ring, k + 1);
  }

  lemma RemoveLinks<T>(mem: map<Ptr, Cell<T>>, ring: seq<Ptr>, k: nat)
    requires Ring(mem, ring) && k + 1 < |ring|
    ensures var n, prev, cur, next := |ring|, ring[k], ring[k + 1], ring[Next(k + 1, |ring|)];
            && prev in mem && next in mem && prev != cur && next != cur
            && var mem' := RemoveMem(mem, prev, cur, next);
            && prev in mem' && next in mem'
            && (n == 2 ==> prev == next && mem'[prev].pn == NULL)
            && (n > 2 ==>
                  && mem'[prev].pn == Xor(ring[Prev(k, n)], next)
                  && mem'[next].pn == Xor(prev, ring[Next(Next(k + 1, n), n)]))
  {
    hide Xor, Ring, Woven, Next, Prev;
    RemoveCells(mem, ring, k);
    var n := |ring|;
    var d := Next(k + 1, n);
    XorCancels(ring[k + 1], ring[Prev(k, n)]);
    XorCancels(ring[k + 1], ring[Next(d, n)]);
    XorSwaps(ring[k], ring[Next(d, n)]);
    XorSwaps(ring[k + 1], ring[k + 1]);
    XorNull(ring[k + 1]);
    XorCancels(ring[k + 1], ring[k]);
    XorSwaps(ring[k], ring[k]);
  }

  lemma RemoveNeighbours(ring: seq<Ptr>, k: nat, i: nat)
    requires k + 1 < |ring| && i < |ring| - 1 && |ring| > 2
    ensures var n, ring' := |ring|, Without(ring, k + 1);
            |ring'| == n - 1 &&
            var j := if i <= k then i else i + 1;
            && ring'[i] == ring[j]
            && ring'[Prev(i, n - 1)] == (if j == Next(k + 1, n) then ring[k] else ring[Prev(j, n)])
            && ring'[Next(i, n - 1)] == (if j == k then ring[Next(k + 1, n)] else ring[Next(j, n)])
  {
  }

  lemma RemoveCell<T>(mem: map<Ptr, Cell<T>>, ring: seq<Ptr>, k: nat, j: nat)
    requires Ring(mem, ring) && k + 1 < |ring| && j < |ring| && j != k && j != k + 1 && j != Next(k + 1, |ring|)
    requires ring[k] in mem && ring[Next(k + 1, |ring|)] in mem
    ensures ring[j] in mem && ring[j] in RemoveMem(mem, ring[k], ring[k + 1], ring[Next(k + 1, |ring|)])
    ensures RemoveMem(mem, ring[k], ring[k + 1], ring[Next(k + 1, |ring|)])[ring[j]] == mem[ring[j]]
  {
    hide Xor;
    assert Woven(mem, ring, j);
  }

  lemma RemoveWovenAt<T>(mem: map<Ptr, Cell<T>>, ring: seq<Ptr>, k: nat, i: nat)
    requires Ring(mem, ring) && k + 1 < |ring| && i < |ring| - 1
    requires ring[k] in mem && ring[Next(k + 1, |ring|)] in mem
    ensures |Without(ring, k + 1)| == |ring| - 1
    ensures Woven(RemoveMem(mem, ring[k], ring[k + 1], ring[Next(k + 1, |ring|)]), Without(ring, k + 1), i)
  {
    var n := |ring|;
    RemoveLinks(mem, ring, k);
    if n == 2 {
      assert Without(ring, 1) == [ring[0]];
      XorSwaps(ring[0], ring[0]);
    } else {
      hide Xor, RemoveMem, Without, Ring, Next, Prev;
      RemoveNeighbours(ring, k, i);
      var j := if i <= k then i else i + 1;
      if j != k && j != Next(k + 1, n) {
        RemoveCell(mem, ring, k, j);
        RingWoven(mem, ring, j);
      }
    }
  }

  lemma RemoveKeys<T>(mem: map<Ptr, Cell<T>>, ring: seq<Ptr>, k: nat)
    requires Ring(mem, ring) && k + 1 < |ring|
    requires ring[k] in mem && ring[Next(k + 1, |ring|)] in mem
    ensures RemoveMem(mem, ring[k], ring[k + 1], ring[Next(k + 1, |ring|)]).Keys == mem.Keys - {ring[k + 1]}
    ensures forall a :: a in mem && a != ring[k + 1] ==> a in Without(ring, k + 1)
  {
    hide Xor;
    forall a | a in mem && a != ring[k + 1]
      ensures a in Without(ring, k + 1)
    {
      var i :| 0 <= i < |ring| && ring[i] == a;
      assert Without(ring, k + 1)[if i <= k then i else i - 1] == a;
    }
  }

  lemma RemoveRing<T>(mem: map<Ptr, Cell<T>>, ring: seq<Ptr>, k: nat)
    requires Ring(mem, ring) && k + 1 < |ring|
    ensures ring[k] in mem && ring[Next(k + 1, |ring|)] in mem
    ensures Ring(RemoveMem(mem, ring[k], ring[k + 1], ring[Next(k + 1, |ring|)]), Without(ring, k + 1))
  {
    RemoveLinks(mem, ring, k);
    var ring', mem' := Without(ring, k + 1), RemoveMem(mem, ring[k], ring[k + 1], ring[Next(k + 1, |ring|)]);
    assert |ring'| > 0;
    assert forall i :: 0 <= i < |ring'| ==> Woven(mem', ring', i) by {
      RemoveWeaves(mem, ring, k);
    }
    assert forall i, j :: 0 <= i < j < |ring'| ==> ring'[i] != ring'[j] by {
      WithoutDiffers(mem, ring, k + 1);
    }
    assert forall a :: a in mem' ==> a in ring' by {
      RemoveKeys(mem, ring, k);
    }
    hide Woven, RemoveMem, Without, Next;
  }

  lemma RemoveWeaves<T>(mem: map<Ptr, Cell<T>>, ring: seq<Ptr>, k: nat)
    requires Ring(mem, ring) && k + 1 < |ring|
    requires ring[k] in mem && ring[Next(k + 1, |ring|)] in mem
    ensures var ring', mem' := Without(ring, k + 1), RemoveMem(mem, ring[k], ring[k + 1], ring[Next(k + 1, |ring|)]);
            forall i :: 0 <= i < |ring'| ==> Woven(mem', ring', i)
  {
    hide Woven, RemoveMem, Ring, Next;
    var ring', mem' := Without(ring, k + 1), RemoveMem(mem, ring[k], ring[k + 1], ring[Next(k + 1, |ring|)]);
    forall i | 0 <= i < |ring'|
      ensures Woven(mem', ring', i)
    {
      RemoveWovenAt(mem, ring, k, i);
    }
  }

  lemma WithoutDiffers<T>(mem: map<Ptr, Cell<T>>, ring: seq<Ptr>, k: nat)
    requires Ring(mem, ring) && k < |ring|
    ensures forall i, j :: 0 <= i < j < |Without(ring, k)| ==> Without(ring, k)[i] != Without(ring, k)[j]
  {
    hide Woven;
    forall i, j | 0 <= i < j < |Without(ring, k)|
      ensures Without(ring, k)[i] != Without(ring, k)[j]
    {
      assert Without(ring, k)[i] == ring[if i < k then i else i + 1];
      assert Without(ring, k)[j] == ring[if j < k then j else j + 1];
    }
  }

  // ---- The values in list order ----

  function Values<T>(mem: map<Ptr, Cell<T>>, order: seq<Ptr>): (vals: seq<T>)
    requires forall i :: 0 <= i < |order| ==> order[i] in mem
    ensures |vals| == |order| && forall i :: 0 <= i < |vals| ==> vals[i] == mem[order[i]].val
  {
    if order == [] then [] else [mem[order[0]].val] + Values(mem, order[1..])
  }

  // The address at place i of the ring: the barrier first, then the cells in order.
  function Place(barrier: Ptr, order: seq<Ptr>, i: nat): Ptr
    requires i <= |order|
  {
    ([barrier] + order)[i]
  }

  lemma SamePlace<T>(mem: map<Ptr, Cell<T>>, ring: seq<Ptr>, i: nat, j: nat)
    requires Ring(mem, ring) && i < |ring| && j < |ring| && ring[i] == ring[j]
    ensures i == j
  {
  }

  class RmList<T> {
    const barrier: Ptr
    var mem: map<Ptr, Cell<T>>
    var first: Ptr
    var size: int
    ghost var order: seq<Ptr>

    ghost predicate Valid()
      reads this
    {
      && Ring(mem, [barrier] + order)
      && (forall i :: 0 <= i < |order| ==> order[i] in mem)
      && size == |order|
      && first == Place(barrier, order, Next(0, |order| + 1))
    }

    ghost function Items(): (items: seq<T>)
      requires Valid()
      reads this
      ensures |items| == |order|
    {
      Values(mem, order)
    }

    // The iterator is in front of item k, or behind the last one if k is the length.
    ghost predicate Stands(it: Iter, k: nat)
      reads this
    {
      k <= |order| && it == Iter(Place(barrier, order, k), Place(barrier, order, Next(k, |order| + 1)))
    }

    constructor (b: Ptr, blank: T)
      ensures Valid() && Items() == [] && barrier == b
    {
      barrier := b;
      mem := map[b := Cell(blank, NULL)];
      first := b;
      size := 0;
      order := [];
      new;
      XorSwaps(b, b);
      assert Woven(mem, [b], 0);
    }

    method Begin() returns (it: Iter)
      requires Valid()
      ensures Stands(it, 0)
    {
      it := Iter(barrier, first);
    }

    method End() returns (it: Iter)
      requires Valid()
      ensures Stands(it, |order|)
    {
      RingWoven(mem, [barrier] + order, 0);
      ghost var last := ([barrier] + order)[Prev(0, |order| + 1)];
      XorCancels(first, last);
      XorSwaps(first, last);
      it := Iter(Xor(mem[barrier].pn, first), barrier);
    }

    method Equal(a: Iter, b: Iter) returns (r: bool)
      ensures r <==> a == b
    {
      r := a.prev == b.prev && a.cur == b.cur;
    }

    lemma StandsOnce(it: Iter, j: nat, k: nat)
      requires Valid() && Stands(it, j) && Stands(it, k)
      ensures j == k
    {
      SamePlace(mem, [barrier] + order, j, k);
    }

    // Stepping over the end leads back to the first item.
    method MoveNext(it: Iter, ghost k: nat) returns (it': Iter)
      requires Valid() && Stands(it, k)
      ensures Stands(it', Next(k, |order| + 1))
    {
      ghost var c := Next(k, |order| + 1);
      RingWoven(mem, [barrier] + order, c);
      XorCancels(it.prev, ([barrier] + order)[Next(c, |order| + 1)]);
      it' := Iter(it.cur, Xor(mem[it.cur].pn, it.prev));
    }

    method Get(it: Iter, ghost k: nat) returns (val: T)
      requires Valid() && Stands(it, k) && k < |order|
      ensures val == Items()[k]
    {
      val := mem[it.cur].val;
    }

    method Set(it: Iter, val: T, ghost k: nat)
      requires Valid() && Stands(it, k) && k < |order|
      modifies this
      ensures Valid() && order == old(order)
      ensures Items() == old(Items())[k := val]
    {
      hide Xor, Ring, Values;
      assert it.cur == order[k] && mem[it.cur] == mem[order[k]];
      SetRing(mem, [barrier] + order, k + 1, val);
      SetValues(mem, [barrier] + order, order, k, val);
      mem := mem[it.cur := mem[it.cur].(val := val)];
    }

    // The new item goes in front of the one the iterator stands at; the iterator stays with it.
    method InsertBefore(it: Iter, val: T, el: Ptr, ghost k: nat) returns (it': Iter)
      requires Valid() && Stands(it, k) && el !in mem
      modifies this
      ensures Valid() && order == Inserted(old(order), k, el)
      ensures Items() == Inserted(old(Items()), k, val)
      ensures Stands(it', k + 1) && it'.cur == it.cur
    {
      hide Xor, Ring, Values, Inserted, InsertAll;
      InsertKeepsRing(mem, barrier, order, k, el, val);
      InsertedPlaces(barrier, order, k, el);
      InsertFirstPlace(mem, [barrier] + order, k);
      ghost var mem0 := mem;
      mem := mem[el := Cell(val, Xor(it.cur, it.prev))];
      var next := Xor(mem[it.cur].pn, it.prev);
      if size > 0 {
        mem := mem[it.prev := mem[it.prev].(pn := Xor(Xor(it.cur, mem[it.prev].pn), el))];
        mem := mem[it.cur := mem[it.cur].(pn := Xor(el, next))];
      }
      InsertAllIs(mem0, it.prev, it.cur, el, val, size > 0);
      it' := Iter(el, it.cur);
      size := size + 1;
      if it.cur == first {
        first := el;
      }
      order := Inserted(order, k, el);
    }

    // The iterator then stands at the item that followed the removed one.
    method Remove(it: Iter, ghost k: nat) returns (it': Iter)
      requires Valid() && Stands(it, k) && k < |order|
      modifies this
      ensures Valid() && order == Without(old(order), k)
      ensures Items() == Without(old(Items()), k)
      ensures Stands(it', k) && mem.Keys == old(mem.Keys) - {it.cur}
    {
      hide Xor, Ring, Values, Without, RemoveMem;
      RemoveKeepsRing(mem, barrier, order, k);
      RemovedPlaces(barrier, order, k);
      InsertFirstPlace(mem, [barrier] + order, k);
      RemoveMemIs(mem, it.prev, it.cur, Place(barrier, order, Next(k + 1, |order| + 1)));
      var next := Xor(mem[it.cur].pn, it.prev);
      if size > 0 {
        mem := mem[it.prev := mem[it.prev].(pn := Xor(Xor(it.cur, mem[it.prev].pn), next))];
        mem := mem[next := mem[next].(pn := Xor(Xor(mem[next].pn, it.cur), it.prev))];
      }
      if first == it.cur {
        first := next;
      }
      mem := mem - {it.cur};
      it' := Iter(it.prev, next);
      size := size - 1;
      order := Without(order, k);
    }

    // Walking from begin to end meets every item once, in order.
    method Collect() returns (items: seq<T>)
      requires Valid()
      ensures items == Items()
    {
      hide Xor, Ring, Values;
      items := [];
      var it := Begin();
      var end := End();
      ghost var k := 0;
      var more := Equal(it, end);
      while !more
        invariant k <= |order| && Stands(it, k) && Stands(end, |order|)
        invariant items == Items()[..k] && (more <==> it == end)
        decreases |order| - k
      {
        var val := Get(it, k);
        items := items + [val];
        it := MoveNext(it, k);
        k := k + 1;
        more := Equal(it, end);
      }
      StandsOnce(it, k, |order|);
    }

    // list_destroy: removing at the front until begin and end are the same.
    method Destroy()
      requires Valid()
      modifies this
      ensures Valid() && Items() == []
    {
      hide Xor, Ring, Values;
      var it := Begin();
      var end := End();
      var done := Equal(it, end);
      while !done
        invariant Valid() && Stands(it, 0) && Stands(end, |order|) && (done <==> it == end)
        decreases |order|
      {
        it := Remove(it, 0);
        end := End();
        done := Equal(it, end);
      }
      StandsOnce(it, 0, |order|);
    }
  }

  function InsertAll<T>(mem: map<Ptr, Cell<T>>, prev: Ptr, cur: Ptr, el: Ptr, val: T, some: bool): map<Ptr, Cell<T>>
    requires prev in mem && cur in mem
  {
    if some then InsertMem(mem, prev, cur, el, val) else mem[el := Cell(val, Xor(cur, prev))]
  }

  lemma InsertAllIs<T>(mem: map<Ptr, Cell<T>>, prev: Ptr, cur: Ptr, el: Ptr, val: T, some: bool)
    requires prev in mem && cur in mem && el !in mem && (some ==> prev != cur)
    ensures var m1 := mem[el := Cell(val, Xor(cur, prev))];
            var m2 := m1[prev := m1[prev].(pn := Xor(Xor(cur, m1[prev].pn), el))];
            InsertAll(mem, prev, cur, el, val, some)
            == if some then m2[cur := m2[cur].(pn := Xor(el, Xor(m1[cur].pn, prev)))] else m1
  {
    hide Xor;
  }

  // Every cell of mem is in mem' with the same value, and so is the new one.
  ghost predicate SameVals<T>(mem: map<Ptr, Cell<T>>, mem': map<Ptr, Cell<T>>, el: Ptr, val: T) {
    el in mem' && mem'[el].val == val && forall a :: a in mem && a != el ==> a in mem' && mem'[a].val == mem[a].val
  }

  lemma InsertSameVals<T>(mem: map<Ptr, Cell<T>>, prev: Ptr, cur: Ptr, el: Ptr, val: T, some: bool)
    requires prev in mem && cur in mem && el !in mem
    ensures SameVals(mem, InsertAll(mem, prev, cur, el, val, some), el, val)
  {
    hide Xor;
  }

  lemma {:induction false} ValuesInserted<T>(mem: map<Ptr, Cell<T>>, mem': map<Ptr, Cell<T>>, order: seq<Ptr>, k: nat,
      el: Ptr, val: T)
    requires SameVals(mem, mem', el, val) && el !in mem && k <= |order|
    requires forall i :: 0 <= i < |order| ==> order[i] in mem
    ensures |Inserted(order, k, el)| == |order| + 1
    ensures forall i :: 0 <= i <= |order| ==> Inserted(order, k, el)[i] in mem'
    ensures Values(mem', Inserted(order, k, el)) == Inserted(Values(mem, order), k, val)
  {
    hide Xor, Inserted;
    var order', vals := Inserted(order, k, el), Values(mem, order);
    InsertedAt(order, k, el, 0);
    InsertedAt(vals, k, val, 0);
    forall i | 0 <= i <= |order|
      ensures order'[i] in mem' && mem'[order'[i]].val == Inserted(vals, k, val)[i]
    {
      InsertedAt(order, k, el, i);
      InsertedAt(vals, k, val, i);
    }
    assert Values(mem', order') == Inserted(vals, k, val);
  }

  lemma InsertKeepsRing<T>(mem: map<Ptr, Cell<T>>, barrier: Ptr, order: seq<Ptr>, k: nat, el: Ptr, val: T)
    requires Ring(mem, [barrier] + order) && k <= |order| && el !in mem
    requires forall i :: 0 <= i < |order| ==> order[i] in mem
    ensures var prev, cur := Place(barrier, order, k), Place(barrier, order, Next(k, |order| + 1));
            && prev in mem && cur in mem && (|order| > 0 ==> prev != cur)
            && var mem', order' := InsertAll(mem, prev, cur, el, val, |order| > 0), Inserted(order, k, el);
            && Ring(mem', [barrier] + order')
            && (forall i :: 0 <= i < |order'| ==> order'[i] in mem')
            && Values(mem', order') == Inserted(Values(mem, order), k, val)
  {
    hide Xor, Ring, InsertMem, Values, SameVals;
    var ring := [barrier] + order;
    var prev, cur := ring[k], ring[Next(k, |ring|)];
    InsertedRing(barrier, order, k, el);
    RingWoven(mem, ring, k);
    RingWoven(mem, ring, Next(k, |ring|));
    if |order| == 0 {
      assert ring == [barrier];
      InsertFirst(mem, barrier, el, val);
    } else {
      InsertRing(mem, ring, k, el, val);
      PlacesDiffer(mem, ring, k);
    }
    InsertSameVals(mem, prev, cur, el, val, |order| > 0);
    ValuesInserted(mem, InsertAll(mem, prev, cur, el, val, |order| > 0), order, k, el, val);
  }

  lemma InsertedRing(barrier: Ptr, order: seq<Ptr>, k: nat, el: Ptr)
    requires k <= |order|
    ensures [barrier] + Inserted(order, k, el) == Inserted([barrier] + order, k + 1, el)
    ensures |Inserted(order, k, el)| == |order| + 1
  {
  }

  lemma InsertedPlaces(barrier: Ptr, order: seq<Ptr>, k: nat, el: Ptr)
    requires k <= |order|
    ensures var order' := Inserted(order, k, el);
            |order'| == |order| + 1
            && Place(barrier, order', k + 1) == el
            && Place(barrier, order', Next(k + 1, |order| + 2)) == Place(barrier, order, Next(k, |order| + 1))
            && Place(barrier, order', Next(0, |order| + 2)) == if k == 0 then el
               else Place(barrier, order, Next(0, |order| + 1))
  {
    InsertedAt(order, k, el, 0);
  }

  // Only at the front does the iterator stand at the first item.
  lemma InsertFirstPlace<T>(mem: map<Ptr, Cell<T>>, ring: seq<Ptr>, k: nat)
    requires Ring(mem, ring) && k < |ring|
    ensures ring[Next(k, |ring|)] == ring[Next(0, |ring|)] <==> k == 0
  {
    hide Xor;
  }

  lemma PlacesDiffer<T>(mem: map<Ptr, Cell<T>>, ring: seq<Ptr>, k: nat)
    requires Ring(mem, ring) && k < |ring| && |ring| >= 2
    ensures ring[k] != ring[Next(k, |ring|)]
  {
    hide Xor;
  }

  lemma InsertFirst<T>(mem: map<Ptr, Cell<T>>, barrier: Ptr, el: Ptr, val: T)
    requires Ring(mem, [barrier]) && el !in mem
    ensures Ring(mem[el := Cell(val, Xor(barrier, barrier))], [barrier, el])
    ensures Inserted([barrier] + [], 1, el) == [barrier, el]
  {
    var ring, mem' := [barrier, el], mem[el := Cell(val, Xor(barrier, barrier))];
    assert Woven(mem, [barrier], 0);
    XorSwaps(el, el);
    XorSwaps(barrier, barrier);
    assert Woven(mem', ring, 0) && Woven(mem', ring, 1);
  }

  lemma SetRing<T>(mem: map<Ptr, Cell<T>>, ring: seq<Ptr>, k: nat, val: T)
    requires Ring(mem, ring) && k < |ring| && ring[k] in mem
    ensures Ring(mem[ring[k] := mem[ring[k]].(val := val)], ring)
  {
    hide Xor;
    var mem' := mem[ring[k] := mem[ring[k]].(val := val)];
    forall i | 0 <= i < |ring|
      ensures Woven(mem', ring, i)
    {
      assert Woven(mem, ring, i);
    }
  }

  lemma SetValues<T>(mem: map<Ptr, Cell<T>>, ring: seq<Ptr>, order: seq<Ptr>, k: nat, val: T)
    requires Ring(mem, ring) && |ring| == |order| + 1 && ring[1..] == order && k < |order|
    requires forall i :: 0 <= i < |order| ==> order[i] in mem
    ensures var mem' := mem[order[k] := mem[order[k]].(val := val)];
            (forall i :: 0 <= i < |order| ==> order[i] in mem') && Values(mem', order) == Values(mem, order)[k := val]
  {
    hide Xor;
    assert forall i :: 0 <= i < |order| ==> order[i] == ring[i + 1];
  }

  lemma RemoveMemIs<T>(mem: map<Ptr, Cell<T>>, prev: Ptr, cur: Ptr, next: Ptr)
    requires prev in mem && next in mem
    ensures var m1 := mem[prev := mem[prev].(pn := Xor(Xor(cur, mem[prev].pn), next))];
            RemoveMem(mem, prev, cur, next) == m1[next := m1[next].(pn := Xor(Xor(m1[next].pn, cur), prev))] - {cur}
  {
  }

  lemma RemovedPlaces(barrier: Ptr, order: seq<Ptr>, k: nat)
    requires k < |order|
    ensures var order' := Without(order, k);
            |order'| == |order| - 1
            && Place(barrier, order', k) == Place(barrier, order, k)
            && Place(barrier, order', Next(k, |order|)) == Place(barrier, order, Next(k + 1, |order| + 1))
            && (k > 0 ==> Place(barrier, order', Next(0, |order|)) == Place(barrier, order, Next(0, |order| + 1)))
  {
  }

  lemma WithoutShifts(barrier: Ptr, order: seq<Ptr>, k: nat)
    requires k < |order|
    ensures [barrier] + Without(order, k) == Without([barrier] + order, k + 1)
  {
    var a, b := [barrier] + Without(order, k), Without([barrier] + order, k + 1);
    assert |a| == |b| && forall i :: 0 <= i < |a| ==> a[i] == b[i];
  }

  lemma RemoveKeepsRing<T>(mem: map<Ptr, Cell<T>>, barrier: Ptr, order: seq<Ptr>, k: nat)
    requires Ring(mem, [barrier] + order) && k < |order| && forall i :: 0 <= i < |order| ==> order[i] in mem
    ensures var prev, cur, next := Place(barrier, order, k), Place(barrier, order, k + 1),
            Place(barrier, order, Next(k + 1, |order| + 1));
            && prev in mem && cur in mem && next in mem && next == Xor(mem[cur].pn, prev)
            && var mem', order' := RemoveMem(mem, prev, cur, next), Without(order, k);
            && Ring(mem', [barrier] + order') && mem'.Keys == mem.Keys - {cur}
            && (forall i :: 0 <= i < |order'| ==> order'[i] in mem')
            && Values(mem', order') == Without(Values(mem, order), k)
  {
    hide Xor, Ring, RemoveMem, Values;
    var ring := [barrier] + order;
    RingWoven(mem, ring, k);
    RingWoven(mem, ring, k + 1);
    RingWoven(mem, ring, Next(k + 1, |ring|));
    XorCancels(ring[k], ring[Next(k + 1, |ring|)]);
    RemoveRing(mem, ring, k);
    RemoveKeys(mem, ring, k);
    WithoutShifts(barrier, order, k);
    RemoveSameVals(mem, ring[k], ring[k + 1], ring[Next(k + 1, |ring|)]);
    OrderDiffers(mem, barrier, order, k);
    ValuesWithout(mem, RemoveMem(mem, ring[k], ring[k + 1], ring[Next(k + 1, |ring|)]), order, k);
  }

  lemma OrderDiffers<T>(mem: map<Ptr, Cell<T>>, barrier: Ptr, order: seq<Ptr>, k: nat)
    requires Ring(mem, [barrier] + order) && k < |order|
    ensures forall i :: 0 <= i < |order| && i != k ==> order[i] != order[k]
  {
    forall i | 0 <= i < |order| && i != k
      ensures order[i] != order[k]
    {
      assert ([barrier] + order)[i + 1] != ([barrier] + order)[k + 1];
    }
  }

  lemma RemoveSameVals<T>(mem: map<Ptr, Cell<T>>, prev: Ptr, cur: Ptr, next: Ptr)
    requires prev in mem && next in mem
    ensures var mem' := RemoveMem(mem, prev, cur, next);
            forall a :: a in mem && a != cur ==> a in mem' && mem'[a].val == mem[a].val
  {
    hide Xor;
  }

  lemma {:induction false} ValuesWithout<T>(mem: map<Ptr, Cell<T>>, mem': map<Ptr, Cell<T>>, order: seq<Ptr>, k: nat)
    requires k < |order| && (forall i :: 0 <= i < |order| ==> order[i] in mem)
    requires forall i :: 0 <= i < |order| && i != k ==> order[i] in mem' && mem'[order[i]].val == mem[order[i]].val
    ensures forall i :: 0 <= i < |order| - 1 ==> Without(order, k)[i] in mem'
    ensures Values(mem', Without(order, k)) == Without(Values(mem, order), k)
  {
    hide Xor, Values;
    var less := Without(order, k);
    assert forall i :: 0 <= i < |less| ==> less[i] == order[if i < k then i else i + 1];
    var a, b := Values(mem', less), Without(Values(mem, order), k);
    assert |a| == |b|;
    forall i | 0 <= i < |a|
      ensures a[i] == b[i]
    {
      assert b[i] == Values(mem, order)[if i < k then i else i + 1];
    }
  }
}

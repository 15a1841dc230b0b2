// The growable array behind the node tree (balanced_tree.c).
module BalancedTree {
  import opened Naturals
  import opened Overlay
  import opened TreeArray

  const K_SIZE := 2

  lemma {:induction false} IndexFrom(t: seq<TreeNode>, id: int, i: nat)
    requires i <= |t| && (forall j :: 0 <= j < i ==> t[j].id != id) && (i < |t| ==> t[i].id == id)
    ensures IndexOf(t, id) == i
  {
    if i > 0 {
      assert t[0].id != id;
      IndexFrom(t[1..], id, i - 1);
    }
  }

  // A pool size growing can reach.
  ghost predicate PoolShape(p: nat) { exists k: nat :: p == 4 * Pow2(k) }

  lemma PoolDoubles(p: nat)
    requires p == 0 || PoolShape(p)
    ensures PoolShape(if p == 0 then 2 * K_SIZE else p * K_SIZE)
  {
    if p == 0 {
      assert 2 * K_SIZE == 4 * Pow2(0);
    } else {
      var k: nat :| p == 4 * Pow2(k);
      assert p * K_SIZE == 4 * Pow2(k + 1);
    }
  }

  // The sizes alone: elements in use, room for elements, elements copied by growing, elements ever added.
  datatype Pool = Pool(size: nat, room: nat, moved: nat, adds: nat)

  function Added(p: Pool): Pool {
    if p.size + 1 > p.room then
      Pool(p.size + 1, if p.room == 0 then 2 * K_SIZE else p.room * K_SIZE, p.moved + p.size, p.adds + 1)
    else p.(size := p.size + 1, adds := p.adds + 1)
  }

  function Dropped(p: Pool): Pool { if p.size > 0 then p.(size := p.size - 1) else p }

  // The room is none or 4 * 2^k; all growing together has moved all but four of that many.
  ghost predicate PoolOk(p: Pool) {
    && p.size <= p.room && p.size <= p.adds
    && (p.room == 0 ==> p.moved == 0 && p.adds == 0)
    && (p.room > 0 ==> p.moved + 4 == p.room && PoolShape(p.room) && (p.room == 4 || p.room < 2 * p.adds))
  }

  lemma AddedOk(p: Pool)
    requires PoolOk(p)
    ensures PoolOk(Added(p))
  {
    PoolDoubles(p.room);
  }

  lemma RoomForOne(p: Pool)
    requires PoolOk(p)
    ensures p.size + 1 <= Added(p).room && p.size <= p.room
  {
  }

  lemma DroppedOk(p: Pool)
    requires PoolOk(p)
    ensures PoolOk(Dropped(p)) && (p.room > 0 ==> p.size <= p.room)
  {
  }

  // true stands for an addition, false for a removal.
  function PoolRun(p: Pool, ops: seq<bool>): Pool
    decreases |ops|
  {
    if ops == [] then p else PoolRun(if ops[0] then Added(p) else Dropped(p), ops[1..])
  }

  // Over any run of additions and removals the elements fit, the room is none or 4 * 2^k, and
  // growing has moved fewer than two elements for each one added.
  lemma {:induction false} GrowthIsAmortized(p: Pool, ops: seq<bool>)
    requires PoolOk(p)
    ensures var q := PoolRun(p, ops);
            && q.size <= q.room && (q.room == 0 || PoolShape(q.room)) && (q.adds > 0 ==> q.moved < 2 * q.adds)
            && PoolOk(q)
    decreases |ops|
  {
    if ops != [] {
      AddedOk(p);
      GrowthIsAmortized(if ops[0] then Added(p) else Dropped(p), ops[1..]);
    }
  }

  class BTree {
    var buf: array<TreeNode>
    var poolSize: nat
    var size: nat
    ghost var adds: nat   // how many elements have been added so far
    ghost var moved: nat  // how many elements growing has copied so far

    ghost predicate RepOk()
      reads this
    {
      buf.Length == poolSize && size <= poolSize
    }

    ghost function Sizes(): Pool
      reads this
    {
      Pool(size, poolSize, moved, adds)
    }

    ghost predicate Valid()
      reads this
    {
      RepOk() && PoolOk(Sizes())
    }

    ghost function Contents(): (t: seq<TreeNode>)
      requires RepOk()
      reads this, buf
    {
      buf[..size]
    }

    constructor ()
      ensures Valid() && Contents() == [] && fresh(buf) && Sizes() == Pool(0, 0, 0, 0)
    {
      buf := new TreeNode[0];
      poolSize := 0;
      size := 0;
      adds := 0;
      moved := 0;
    }

    // realloc: the elements in use survive.
    method Realloc(n: nat)
      requires RepOk() && size <= n
      modifies this`buf, this`poolSize
      ensures RepOk() && poolSize == n && fresh(buf) && Contents() == old(Contents())
    {
      var b := new TreeNode[n](i => NO_NODE);
      forall i | 0 <= i < size {
        b[i] := buf[i];
      }
      buf := b;
      poolSize := n;
    }

    // New places hold whatever was in the pool.  It is extended once only, so that growing far
    // beyond it leaves more elements in use than there is room for.
    method SetSize(newSize: nat) returns (ok: bool)
      requires RepOk()
      modifies this`buf, this`poolSize, this`size, this`moved
      ensures size == newSize && ok && buf.Length == poolSize && (buf == old(buf) || fresh(buf))
      ensures RepOk() <==> newSize <= old(size) || newSize <= old(poolSize) || newSize <= old(poolSize) * K_SIZE
                           || (old(poolSize) == 0 && newSize <= 2 * K_SIZE)
      ensures Min(newSize, old(size)) <= buf.Length
      ensures buf[..Min(newSize, old(size))] == old(Contents())[..Min(newSize, old(size))]
      ensures newSize < old(size) ==>
                moved == old(moved)
                && poolSize == if newSize * 2 * K_SIZE <= old(poolSize) then old(poolSize) / K_SIZE else old(poolSize)
      ensures old(size) <= newSize <= old(poolSize) ==> poolSize == old(poolSize) && moved == old(moved)
      ensures newSize > old(poolSize) ==>
                poolSize == (if old(poolSize) == 0 then 2 * K_SIZE else old(poolSize) * K_SIZE)
                && moved == old(moved) + old(size)
    {
      if newSize < size {
        size := newSize;
        if size * 2 * K_SIZE <= poolSize {
          Realloc(poolSize / K_SIZE);
        }
      } else if newSize > size {
        if newSize > poolSize {
          moved := moved + size;
          Realloc(if poolSize == 0 then K_SIZE * 2 else poolSize * K_SIZE);
        }
        size := newSize;
      }
      ok := true;
    }

    method Add(elem: TreeNode) returns (ok: bool)
      requires Valid()
      modifies this, buf
      ensures Valid() && ok && Contents() == old(Contents()) + [elem] && (buf == old(buf) || fresh(buf))
      ensures Sizes() == Added(old(Sizes()))
    {
      AddedOk(Sizes());
      RoomForOne(Sizes());
      hide PoolOk;
      ok := SetSize(size + 1);
      buf[size - 1] := elem;
      adds := adds + 1;
    }

    method LastElemParent() returns (n: TreeNode)
      requires RepOk() && size >= 2
      ensures n == Contents()[(size - 2) / 2]
    {
      n := buf[(size - 2) / 2];
    }

    method LastElem() returns (n: TreeNode)
      requires RepOk() && size >= 1
      ensures n == Contents()[size - 1]
    {
      n := buf[size - 1];
    }

    method Remove(id: int) returns (last: TreeNode)
      requires Valid() && size > 0
      modifies this`size, buf
      ensures Valid() && buf == old(buf) && Contents() == Removed(old(Contents()), id)
              && last == old(Contents()[size - 1])
      ensures Sizes() == Dropped(old(Sizes()))
    {
      hide PoolOk;
      DroppedOk(Sizes());
      last := buf[size - 1];
      var i := 0;
      while i < size && buf[i].id != id
        invariant i <= size
        invariant forall j :: 0 <= j < i ==> buf[j].id != id
      {
        i := i + 1;
      }
      IndexFrom(Contents(), id, i);
      if i < size {
        buf[i] := last;
      }
      size := size - 1;
    }

    method FindIndex(id: int) returns (i: nat)
      requires RepOk()
      ensures i == IndexOf(Contents(), id)
    {
      i := 0;
      while i < size && buf[i].id != id
        invariant i <= size
        invariant forall j :: 0 <= j < i ==> buf[j].id != id
      {
        i := i + 1;
      }
      IndexFrom(Contents(), id, i);
    }

    method Find(id: int) returns (n: TreeNode)
      requires RepOk()
      ensures n == TreeArray.Find(Contents(), id)
    {
      var i := FindIndex(id);
      n := if i < size then buf[i] else NO_NODE;
    }

    method GetParent(id: int) returns (n: TreeNode)
      requires RepOk()
      ensures n == ParentOf(Contents(), id)
    {
      var i := FindIndex(id);
      n := if i == 0 || i >= size then NO_NODE else buf[(i - 1) / 2];
    }

    method GetLeft(id: int) returns (n: TreeNode)
      requires RepOk()
      ensures n == LeftOf(Contents(), id)
    {
      var i := FindIndex(id);
      n := if i >= size || 2 * i + 1 >= size then NO_NODE else buf[2 * i + 1];
    }

    method GetRight(id: int) returns (n: TreeNode)
      requires RepOk()
      ensures n == RightOf(Contents(), id)
    {
      var i := FindIndex(id);
      n := if i >= size || 2 * i + 2 >= size then NO_NODE else buf[2 * i + 2];
    }
  }
}

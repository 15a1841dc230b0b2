// The array of nodes the controller keeps (balanced_tree.c), as a sequence.
module TreeArray {
  import opened Overlay

  datatype TreeNode = TreeNode(id: int, pid: int, main: int, ping: int)

  // What a failed lookup returns.
  const NO_NODE := TreeNode(-1, -1, 0, 0)

  // The first index that holds the id, or the length.
  function IndexOf(t: seq<TreeNode>, id: int): (i: nat)
    ensures i <= |t|
    ensures i < |t| ==> t[i].id == id
    ensures forall j :: 0 <= j < i ==> t[j].id != id
  {
    if t == [] then 0 else if t[0].id == id then 0 else 1 + IndexOf(t[1..], id)
  }

  function NodeAt(t: seq<TreeNode>, i: nat): TreeNode { if i < |t| then t[i] else NO_NODE }

  function Find(t: seq<TreeNode>, id: int): TreeNode { NodeAt(t, IndexOf(t, id)) }

  function ParentOf(t: seq<TreeNode>, id: int): TreeNode {
    var i := IndexOf(t, id);
    if i == 0 || i >= |t| then NO_NODE else t[(i - 1) / 2]
  }

  function LeftOf(t: seq<TreeNode>, id: int): TreeNode {
    var i := IndexOf(t, id);
    if i >= |t| then NO_NODE else NodeAt(t, 2 * i + 1)
  }

  function RightOf(t: seq<TreeNode>, id: int): TreeNode {
    var i := IndexOf(t, id);
    if i >= |t| then NO_NODE else NodeAt(t, 2 * i + 2)
  }

  // Removal moves the last entry into the hole; an absent id still costs the last entry.
  function Without<T>(t: seq<T>, i: nat): seq<T>
    requires |t| > 0
  {
    if i < |t| then t[i := t[|t| - 1]][..|t| - 1] else t[..|t| - 1]
  }

  function Removed(t: seq<TreeNode>, id: int): seq<TreeNode>
    requires |t| > 0
  {
    Without(t, IndexOf(t, id))
  }

  function PeerOf(n: TreeNode): Peer { Peer(n.id, n.main, n.ping) }

  function Layout(t: seq<TreeNode>): (c: seq<Peer>)
    ensures |c| == |t| && forall i :: 0 <= i < |t| ==> c[i] == PeerOf(t[i])
  {
    if t == [] then [] else Layout(t[..|t| - 1]) + [PeerOf(t[|t| - 1])]
  }

  function Ids(t: seq<TreeNode>): (ids: seq<int>)
    ensures |ids| == |t| && forall i :: 0 <= i < |t| ==> ids[i] == t[i].id
  {
    if t == [] then [] else Ids(t[..|t| - 1]) + [t[|t| - 1].id]
  }
}

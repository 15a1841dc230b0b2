// The flat array of C strings that cmd_remove builds really does hold the steps of the removal.
module Scripts {
  import opened Overlay
  import opened HeapShape
  import opened Flood
  import opened Shapes
  import opened TreeArray
  import opened Controller
  import Phases

  // What the array of nodes looks like between commands.
  ghost predicate TreeOk(t: seq<TreeNode>, self: int, nextPort: int) {
    && |t| >= 1 && t[0] == TreeNode(-1, self, 0, 0) && self != -1 && nextPort > 0
    && (forall i :: 0 < i < |t| ==> t[i].id != -1 && t[i].pid != -1 && t[i].pid != self)
    && (forall i :: 0 < i < |t| ==> 0 < t[i].main < nextPort && 0 < t[i].ping < nextPort)
    && (forall i, j {:trigger Apart(t, i, j)} :: 0 <= i < j < |t| ==> Apart(t, i, j))
  }

  ghost predicate Apart(t: seq<TreeNode>, i: nat, j: nat)
    requires i < |t| && j < |t|
  {
    t[i].id != t[j].id && t[i].main != t[j].main && t[i].ping != t[j].ping
  }

  lemma {:induction false} TreeLayout(t: seq<TreeNode>, self: int, nextPort: int)
    requires TreeOk(t, self, nextPort)
    ensures GoodLayout(Layout(t))
  {
    var c := Layout(t);
    forall i, j | 0 <= i < j < |c|
      ensures c[i].id != c[j].id && c[i].main != c[j].main
    {
      assert Apart(t, i, j);
    }
  }

  lemma {:induction false} FoundAt(t: seq<TreeNode>, self: int, nextPort: int, k: nat)
    requires TreeOk(t, self, nextPort) && k < |t|
    ensures IndexOf(t, t[k].id) == k && Find(t, t[k].id) == t[k]
  {
    var i := IndexOf(t, t[k].id);
    assert i < k ==> Apart(t, i, k);
  }

  // ---- Scanning for a command ----

  lemma {:induction false} SkipOver(w: seq<Option<Word>>, p: nat, q: nat, k: nat)
    requires p <= q < |w| && w[q] == None && forall j :: p <= j < q ==> w[j] != None
    ensures Skip(w, p, k + 1) == Skip(w, q + 1, k)
    decreases q - p
  {
    if p < q {
      SkipOver(w, p + 1, q, k);
    }
  }

  // A command found at position p, with all its words, is stepped over as a whole.
  ghost predicate PlainAt(w: seq<Option<Word>>, p: nat, cmd: Command, id: int) {
    p + 3 <= |w| && w[p..p + 3] == Plain(cmd, id)
  }

  ghost predicate ConnectAt(w: seq<Option<Word>>, p: nat, child: TreeNode, parent: int) {
    p + 6 <= |w| && w[p..p + 6] == ConnectTo(child, parent)
  }

  lemma PlainRead(w: seq<Option<Word>>, p: nat, cmd: Command, id: int, k: nat)
    requires PlainAt(w, p, cmd, id)
    ensures w[p] == Some(Name(cmd)) && w[p + 1] == Num(id)
    ensures k > 0 ==> Skip(w, p, k) == Skip(w, p + 3, k - 1)
  {
    assert w[p..p + 3][0] == w[p] && w[p..p + 3][1] == w[p + 1] && w[p..p + 3][2] == w[p + 2];
    if k > 0 {
      SkipOver(w, p, p + 2, k - 1);
    }
  }

  lemma ConnectRead(w: seq<Option<Word>>, p: nat, child: TreeNode, parent: int, k: nat)
    requires ConnectAt(w, p, child, parent) && child.main != 0 && child.ping != 0
    ensures w[p] == Some(Name(Connect)) && w[p + 1] == Num(child.id) && w[p + 2] == Num(parent)
    ensures w[p + 3] == Some(Address(child.main)) && w[p + 4] == Some(Address(child.ping))
    ensures k > 0 ==> Skip(w, p, k) == Skip(w, p + 6, k - 1)
  {
    var f := w[p..p + 6];
    assert f[0] == w[p] && f[1] == w[p + 1] && f[2] == w[p + 2] && f[3] == w[p + 3] && f[4] == w[p + 4]
           && f[5] == w[p + 5];
    if k > 0 {
      SkipOver(w, p, p + 5, k - 1);
    }
  }

  ghost predicate LongHeld(w: seq<Option<Word>>, id: int, last: TreeNode, parent: TreeNode, left: TreeNode,
      right: TreeNode) {
    && PlainAt(w, 0, Ping, id) && PlainAt(w, 3, Disconnect, last.id)
    && PlainAt(w, 6, Remove, id) && PlainAt(w, 9, Disconnect, id)
    && ConnectAt(w, 12, last, parent.id) && ConnectAt(w, 18, left, last.id) && ConnectAt(w, 24, right, last.id)
  }

  lemma LongWordsAt(w: seq<Option<Word>>, id: int, last: TreeNode, parent: TreeNode,
                                       left: TreeNode, right: TreeNode)
    requires w == LongWords(id, last, parent, left, right)
    ensures LongHeld(w, id, last, parent, left, right)
  {
  }

  // The script for entry k, standing at step s, asks for exactly step s of the removal, even
  // where an absent child has left further NULLs behind it.
  lemma {:induction false} ScriptHoldsSteps(t: seq<TreeNode>, self: int, nextPort: int, k: nat, s: nat)
    requires TreeOk(t, self, nextPort) && 0 < k < |t| && s < StepCount(Layout(t), k)
    ensures var sc, req := ScriptFor(t, t[k].id).(now := s), StepRound(Layout(t), k, s).req;
            && sc.number == StepCount(Layout(t), k) && sc.target == t[k].id
            && Decode(sc) == Some(req) && StandsAt(sc, req.cmd, req.id)
  {
    TreeLayout(t, self, nextPort);
    FoundAt(t, self, nextPort, k);
    var sc := ScriptFor(t, t[k].id).(now := s);
    if k == |t| - 1 {
      assert sc.words == ShortWords(t[k].id);
      if s == 1 {
        SkipOver(sc.words, 0, 2, 0);
      }
    } else {
      LongScriptHolds(t, self, nextPort, k, s);
    }
  }

  lemma {:induction false} LongScriptHolds(t: seq<TreeNode>, self: int, nextPort: int, k: nat, s: nat)
    requires TreeOk(t, self, nextPort) && 0 < k < |t| - 1 && s < StepCount(Layout(t), k)
    requires IndexOf(t, t[k].id) == k
    ensures var sc, req := ScriptFor(t, t[k].id).(now := s), StepRound(Layout(t), k, s).req;
            && sc.number == StepCount(Layout(t), k) && sc.target == t[k].id
            && Decode(sc) == Some(req) && StandsAt(sc, req.cmd, req.id)
  {
    var sc, last, left, right := ScriptFor(t, t[k].id).(now := s), t[|t| - 1], NodeAt(t, 2 * k + 1),
        NodeAt(t, 2 * k + 2);
    assert 2 * k + 1 < |t| - 1 ==> Apart(t, 2 * k + 1, |t| - 1);
    assert 2 * k + 2 < |t| - 1 ==> Apart(t, 2 * k + 2, |t| - 1);
    assert Apart(t, k, |t| - 1);
    assert left.id != last.id && left.id != -1 <==> 2 * k + 1 < |t| - 1;
    assert right.id != last.id && right.id != -1 <==> 2 * k + 2 < |t| - 1;
    LongWordsAt(sc.words, t[k].id, last, t[(k - 1) / 2], left, right);
    LongScriptReads(sc, t[k].id, last, t[(k - 1) / 2], left, right);
  }

  // Where command s of a long script starts.
  function Offset(s: nat): nat { if s <= 4 then 3 * s else 12 + 6 * (s - 4) }

  lemma {:induction false} LongStart(w: seq<Option<Word>>, id: int, last: TreeNode, parent: TreeNode,
                                     left: TreeNode, right: TreeNode, s: nat)
    requires LongHeld(w, id, last, parent, left, right) && s <= 6
    requires last.main != 0 && last.ping != 0
    requires s >= 6 ==> left.main != 0 && left.ping != 0
    ensures Skip(w, 0, s) == Offset(s)
  {
    PlainRead(w, 0, Ping, id, s);
    if s >= 1 { PlainRead(w, 3, Disconnect, last.id, s - 1); }
    if s >= 2 { PlainRead(w, 6, Remove, id, s - 2); }
    if s >= 3 { PlainRead(w, 9, Disconnect, id, s - 3); }
    if s >= 4 { ConnectRead(w, 12, last, parent.id, s - 4); }
    if s >= 6 { ConnectRead(w, 18, left, last.id, s - 5); }
  }

  // The request command s of a long script stands for.
  function LongRequest(id: int, last: TreeNode, parent: TreeNode, left: TreeNode, right: TreeNode, s: nat): Request {
    if s == 0 then Request(Ping, id, 0, 0, 0)
    else if s == 1 then Request(Disconnect, last.id, 0, 0, 0)
    else if s == 2 then Request(Remove, id, 0, 0, 0)
    else if s == 3 then Request(Disconnect, id, 0, 0, 0)
    else if s == 4 then Request(Connect, last.id, parent.id, last.main, last.ping)
    else
      var kid := if s == 5 then left else right;
      Request(Connect, kid.id, last.id, kid.main, kid.ping)
  }

  lemma LongScriptReads(sc: Script, id: int, last: TreeNode, parent: TreeNode,
                                           left: TreeNode, right: TreeNode)
    requires LongHeld(sc.words, id, last, parent, left, right) && sc.now <= 6
    requires last.main != 0 && last.ping != 0
    requires sc.now >= 5 ==> left.main != 0 && left.ping != 0
    requires sc.now >= 6 ==> right.main != 0 && right.ping != 0
    ensures var req := LongRequest(id, last, parent, left, right, sc.now);
            Decode(sc) == Some(req) && StandsAt(sc, req.cmd, req.id)
  {
    var w, s := sc.words, sc.now;
    LongStart(w, id, last, parent, left, right, s);
    if s == 0 { PlainRead(w, 0, Ping, id, 0); }
    else if s == 1 { PlainRead(w, 3, Disconnect, last.id, 0); }
    else if s == 2 { PlainRead(w, 6, Remove, id, 0); }
    else if s == 3 { PlainRead(w, 9, Disconnect, id, 0); }
    else if s == 4 { ConnectRead(w, 12, last, parent.id, 0); }
    else if s == 5 { ConnectRead(w, 18, left, last.id, 0); }
    else { ConnectRead(w, 24, right, last.id, 0); }
  }
}

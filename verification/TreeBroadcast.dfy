/** SendAll / RecvSendAll of src/redecomp/utils/MPIUtility.hpp: one rank's container is passed to all
    other ranks along the send tree of src/redecomp/utils/MPIUtility.cpp. */
module SendTree {
  import opened BisecTree

  /** The rank stored at node k of height h: the source if it is below the node, else the node's
      left-most leaf. */
  function Holder(h: nat, k: nat, source: nat): nat {
    if Anc(source, h) == k then source else First(h, k)
  }

  ghost predicate HasRight(n: nat, h: nat, k: nat)
    requires h >= 1
  {
    Right(k) < LevelSize(n, h - 1)
  }

  /** The rank held at node k lies below node k. */
  lemma HolderBelow(n: nat, h: nat, k: nat, source: nat)
    requires source < n && k < LevelSize(n, h)
    ensures Holder(h, k, source) < n && Anc(Holder(h, k, source), h) == k
  {
    FirstBelow(n, h, k);
  }

  /** The bottom-up rule of BuildSendTree computes the holders. */
  lemma HolderRule(n: nat, h: nat, k: nat, source: nat)
    requires source < n && h >= 1 && k < LevelSize(n, h)
    ensures !HasRight(n, h, k) || Holder(h - 1, Right(k), source) != source
            ==> Holder(h, k, source) == Holder(h - 1, Left(k), source)
    ensures HasRight(n, h, k) && Holder(h - 1, Right(k), source) == source ==> Holder(h, k, source) == source
  {
    TreeLinks(n, h, k);
    AncInLevel(n, source, h - 1);
    HolderBelow(n, h - 1, Left(k), source);
    if HasRight(n, h, k) { HolderBelow(n, h - 1, Right(k), source); }
    var a := Anc(source, h - 1);
    assert Root(a) == Anc(source, h);
    hide LevelSize;
    hide Anc;
    assert Anc(source, h) == k <==> a == Left(k) || a == Right(k);
    assert First(h, k) == First(h - 1, Left(k));
  }

  /** The nodes from the bottom up to level lvl hold what they should. */
  ghost predicate FilledFrom(tree: BisecTree<nat>, source: nat, lvl: nat)
    requires tree.Valid()
    reads tree
  {
    forall l, k :: lvl <= l < tree.nLevels && 0 <= k < |tree.nodes[l]|
      ==> tree.nodes[l][k] == Holder(tree.nLevels - 1 - l, k, source)
  }

  method BuildSendTree(n: nat, rank: nat) returns (tree: BisecTree<nat>)
    requires rank < n
    ensures fresh(tree) && tree.nParts == n && IsSendTree(tree, rank)
  {
    tree := new BisecTree<nat>(n, 0);
    var lvl := tree.nLevels - 1;
    for i := 0 to n
      invariant tree.Valid()
      invariant forall k :: 0 <= k < i ==> tree.nodes[lvl][k] == k
    {
      tree.Set(lvl, i, i);
    }
    while lvl != 0
      invariant tree.Valid() && 0 <= lvl < tree.nLevels && FilledFrom(tree, rank, lvl)
    {
      lvl := lvl - 1;
      FillLevel(tree, rank, lvl);
    }
  }

  /** One level of the loop of BuildSendTree, from the level below. */
  method FillLevel(tree: BisecTree<nat>, rank: nat, lvl: nat)
    requires tree.Valid() && rank < tree.nParts && lvl + 1 < tree.nLevels && FilledFrom(tree, rank, lvl + 1)
    modifies tree`nodes
    ensures tree.Valid() && FilledFrom(tree, rank, lvl)
  {
    ghost var n, h := tree.nParts, tree.nLevels - 1 - lvl;
    var node := 0;
    while node < |tree.nodes[lvl]|
      invariant tree.Valid() && 0 <= node <= |tree.nodes[lvl]|
      invariant FilledFrom(tree, rank, lvl + 1)
      invariant forall k :: 0 <= k < node ==> tree.nodes[lvl][k] == Holder(h, k, rank)
      decreases |tree.nodes[lvl]| - node
    {
      var below := tree.nodes[lvl + 1];
      TreeLinks(n, h, node);
      HolderRule(n, h, node, rank);
      var value := if Right(node) == |below| || below[Right(node)] != rank then below[Left(node)] else rank;
      assert value == Holder(h, node, rank);
      tree.Set(lvl, node, value);
      node := node + 1;
    }
  }

  /** Height at which the climb of RecvSendAll stops, starting from height h. */
  function Climb(n: nat, source: nat, r: nat, h: nat): (c: nat)
    requires r < n && h <= NumLevels(n) - 1
    ensures h <= c <= NumLevels(n) - 1
    decreases NumLevels(n) - h
  {
    if h < NumLevels(n) - 1 && Holder(h + 1, Anc(r, h + 1), source) == r
    then Climb(n, source, r, h + 1) else h
  }

  /** The height of the highest node that holds rank r. */
  function Height(n: nat, source: nat, r: nat): nat
    requires r < n
  {
    Climb(n, source, r, 0)
  }

  /** The rank from which r receives: the holder of the node above r's highest node. */
  function Sender(n: nat, source: nat, r: nat): nat
    requires r < n
  {
    Holder(Height(n, source, r) + 1, Anc(r, Height(n, source, r) + 1), source)
  }

  /** The message rank r sends when it descends from its node at height h: to the holder of the child
      that it does not hold itself, if there is one. */
  function Handover(n: nat, source: nat, r: nat, h: nat): seq<nat>
    requires n >= 1 && h >= 1
  {
    var k := Anc(r, h);
    if Holder(h - 1, Left(k), source) != r then [Holder(h - 1, Left(k), source)]
    else if Right(k) < LevelSize(n, h - 1) then [Holder(h - 1, Right(k), source)]
    else []
  }

  /** Destinations to which rank r sends on its way down from its node at height h. */
  function Sends(n: nat, source: nat, r: nat, h: nat): seq<nat>
    requires n >= 1
  {
    if h == 0 then [] else Handover(n, source, r, h) + Sends(n, source, r, h - 1)
  }

  /** All destinations of rank r, in the order of its sends. */
  function Script(n: nat, source: nat, r: nat): seq<nat>
    requires r < n
  {
    Sends(n, source, r, Height(n, source, r))
  }

  /** r holds its node at height h and every node of its path below. */
  lemma {:induction false} HoldsDown(n: nat, source: nat, r: nat, h: nat)
    requires r < n && source < n && h >= 1 && Holder(h, Anc(r, h), source) == r
    ensures Holder(h - 1, Anc(r, h - 1), source) == r
  {
    AncInLevel(n, r, h);
    AncInLevel(n, r, h - 1);
    HolderRule(n, h, Anc(r, h), source);
    TreeLinks(n, h, Anc(r, h));
    HolderBelow(n, h - 1, Left(Anc(r, h)), source);
  }

  /** The climb stops at the highest node that r holds: r holds a node of its path exactly up to that
      height. */
  lemma {:induction false} ClimbIsHighest(n: nat, source: nat, r: nat, c: nat, h: nat)
    requires r < n && source < n && h <= NumLevels(n) - 1
    requires c <= h
    requires Holder(c, Anc(r, c), source) == r
    ensures Holder(h, Anc(r, h), source) == r <==> h <= Climb(n, source, r, c)
    decreases h - c
  {
    if c < h {
      if Holder(c + 1, Anc(r, c + 1), source) == r {
        ClimbIsHighest(n, source, r, c + 1, h);
      } else {
        NotAbove(n, source, r, c + 1, h);
      }
    }
  }

  lemma {:induction false} NotAbove(n: nat, source: nat, r: nat, c: nat, h: nat)
    requires r < n && source < n && c <= h
    requires Holder(c, Anc(r, c), source) != r
    ensures Holder(h, Anc(r, h), source) != r
    decreases h - c
  {
    if c < h {
      NotAbove(n, source, r, c, h - 1);
      if Holder(h, Anc(r, h), source) == r { HoldsDown(n, source, r, h); }
    }
  }

  lemma HeightIsHighest(n: nat, source: nat, r: nat, h: nat)
    requires r < n && source < n && h <= NumLevels(n) - 1
    ensures Holder(h, Anc(r, h), source) == r <==> h <= Height(n, source, r)
  {
    ClimbIsHighest(n, source, r, 0, h);
  }

  /** The source holds its whole path up to the root, and it is the only rank that does. */
  lemma {:induction false} SourceHoldsRoot(n: nat, source: nat, r: nat)
    requires r < n && source < n
    ensures Height(n, source, r) == NumLevels(n) - 1 <==> r == source
  {
    var top := NumLevels(n) - 1;
    HeightIsHighest(n, source, r, top);
    OneRoot(n, top);
    AncInLevel(n, source, top);
    AncInLevel(n, r, top);
  }

  /** Where a non-source rank gets its message: from a rank standing one level above its highest node,
      which reaches a greater height, and whose path passes through that very node. */
  lemma SenderFacts(n: nat, source: nat, d: nat)
    requires d < n && source < n && d != source
    ensures Height(n, source, d) + 1 <= NumLevels(n) - 1
    ensures Sender(n, source, d) < n && Sender(n, source, d) != d
    ensures Height(n, source, Sender(n, source, d)) > Height(n, source, d)
    ensures Anc(Sender(n, source, d), Height(n, source, d) + 1) == Anc(d, Height(n, source, d) + 1)
  {
    SourceHoldsRoot(n, source, d);
    var h := Height(n, source, d) + 1;
    HeightIsHighest(n, source, d, h);
    AncInLevel(n, d, h);
    HolderBelow(n, h, Anc(d, h), source);
    HeightIsHighest(n, source, Sender(n, source, d), h);
  }

  /** One step of the descent of SendToRest, for a rank that holds its node at height h. */
  lemma Descend(n: nat, source: nat, r: nat, h: nat)
    requires r < n && source < n && h >= 1 && Holder(h, Anc(r, h), source) == r
    ensures Anc(r, h) < LevelSize(n, h) && Left(Anc(r, h)) < LevelSize(n, h - 1)
    ensures Right(Anc(r, h)) <= LevelSize(n, h - 1)
    ensures Anc(r, h - 1) < LevelSize(n, h - 1)
    ensures Holder(h - 1, Anc(r, h - 1), source) == r
    ensures Holder(h - 1, Left(Anc(r, h)), source) == r ==> Anc(r, h - 1) == Left(Anc(r, h))
    ensures Holder(h - 1, Left(Anc(r, h)), source) != r ==> Anc(r, h - 1) == Right(Anc(r, h))
  {
    AncInLevel(n, r, h);
    AncInLevel(n, r, h - 1);
    TreeLinks(n, h, Anc(r, h));
    HoldsDown(n, source, r, h);
    HolderBelow(n, h - 1, Left(Anc(r, h)), source);
  }

  /** The child of r's node that r does not hold is the highest node of its own holder. */
  lemma OtherChild(n: nat, source: nat, r: nat, h: nat, c: nat)
    requires r < n && source < n && 1 <= h <= Height(n, source, r)
    requires c < LevelSize(n, h - 1) && Root(c) == Anc(r, h) && c != Anc(r, h - 1)
    ensures var d := Holder(h - 1, c, source);
            d < n && d != source && Sender(n, source, d) == r && Height(n, source, d) == h - 1
  {
    var d := Holder(h - 1, c, source);
    HolderBelow(n, h - 1, c, source);
    HeightIsHighest(n, source, r, h);
    HeightIsHighest(n, source, r, h - 1);
    HeightIsHighest(n, source, d, h - 1);
    HeightIsHighest(n, source, d, h);
  }

  lemma HandoverWaits(n: nat, source: nat, r: nat, h: nat, d: nat)
    requires r < n && source < n && 1 <= h <= Height(n, source, r) && Handover(n, source, r, h) == [d]
    ensures d < n && d != source && Sender(n, source, d) == r && Height(n, source, d) == h - 1
  {
    HeightIsHighest(n, source, r, h);
    Descend(n, source, r, h);
    OtherChild(n, source, r, h, if Holder(h - 1, Left(Anc(r, h)), source) != r then Left(Anc(r, h)) else Right(Anc(r, h)));
  }

  lemma WaiterIsHanded(n: nat, source: nat, r: nat, h: nat, d: nat)
    requires r < n && source < n && 1 <= h <= Height(n, source, r)
    requires d < n && d != source && Sender(n, source, d) == r && Height(n, source, d) == h - 1
    ensures Handover(n, source, r, h) == [d]
  {
    HeightIsHighest(n, source, r, h);
    Descend(n, source, r, h);
    SenderFacts(n, source, d);
    AncInLevel(n, d, h - 1);
    HeightIsHighest(n, source, d, h - 1);
  }

  /** A handover at height h goes exactly to the rank that waits on r with its highest node at height
      h - 1. */
  lemma HandoverMeetsWaiter(n: nat, source: nat, r: nat, h: nat, d: nat)
    requires r < n && source < n && 1 <= h <= Height(n, source, r)
    ensures Handover(n, source, r, h) == [d]
            <==> d < n && d != source && Sender(n, source, d) == r && Height(n, source, d) == h - 1
  {
    if Handover(n, source, r, h) == [d] {
      HandoverWaits(n, source, r, h, d);
    } else if d < n && d != source && Sender(n, source, d) == r && Height(n, source, d) == h - 1 {
      WaiterIsHanded(n, source, r, h, d);
    }
  }

  /** Every message in a script goes to a non-source rank that waits on exactly the script's owner, and
      whose highest node hangs under the owner's path, below height h. */
  lemma {:induction false} ScriptMeetsWaiter(n: nat, source: nat, r: nat, h: nat, i: nat)
    requires r < n && source < n && h <= Height(n, source, r) && i < |Sends(n, source, r, h)|
    ensures var d := Sends(n, source, r, h)[i];
            d < n && d != source && Sender(n, source, d) == r && Height(n, source, d) < h
  {
    var first := Handover(n, source, r, h);
    if i < |first| {
      HandoverMeetsWaiter(n, source, r, h, first[0]);
    } else {
      ScriptMeetsWaiter(n, source, r, h - 1, i - |first|);
    }
  }

  /** Every non-source rank that waits on r and whose highest node is below height h has its message in
      the script. */
  lemma {:induction false} WaiterIsInScript(n: nat, source: nat, r: nat, h: nat, d: nat) returns (i: nat)
    requires r < n && source < n && d < n && d != source && h <= Height(n, source, r)
    requires Sender(n, source, d) == r && Height(n, source, d) < h
    ensures i < |Sends(n, source, r, h)| && Sends(n, source, r, h)[i] == d
  {
    HandoverMeetsWaiter(n, source, r, h, d);
    if Height(n, source, d) == h - 1 {
      i := 0;
    } else {
      i := WaiterIsInScript(n, source, r, h - 1, d);
      i := i + |Handover(n, source, r, h)|;
    }
  }

  /** A script names no rank twice: later messages go to strictly lower nodes. */
  lemma {:induction false} ScriptIsInjective(n: nat, source: nat, r: nat, h: nat, i: nat, j: nat)
    requires r < n && source < n && h <= Height(n, source, r)
    requires i < j < |Sends(n, source, r, h)|
    ensures Sends(n, source, r, h)[i] != Sends(n, source, r, h)[j]
  {
    var first := Handover(n, source, r, h);
    if i < |first| {
      HandoverMeetsWaiter(n, source, r, h, first[0]);
      ScriptMeetsWaiter(n, source, r, h - 1, j - |first|);
    } else {
      ScriptIsInjective(n, source, r, h - 1, i - |first|, j - |first|);
    }
  }

  ghost predicate IsSendTree(tree: BisecTree<nat>, source: nat)
    reads tree
  {
    && tree.Valid()
    && source < tree.nParts
    && forall l, k :: 0 <= l < tree.nLevels && 0 <= k < |tree.nodes[l]|
         ==> tree.nodes[l][k] == Holder(tree.nLevels - 1 - l, k, source)
  }

  lemma SendsMore(n: nat, source: nat, r: nat, h: nat, sent: seq<nat>)
    requires n >= 1 && h >= 1
    ensures sent + Sends(n, source, r, h) == sent + Handover(n, source, r, h) + Sends(n, source, r, h - 1)
  {
    var message, rest := Handover(n, source, r, h), Sends(n, source, r, h - 1);
    assert sent + (message + rest) == (sent + message) + rest;
  }

  /** Node k of level l is r's node there, and it holds r. */
  ghost predicate StandsAt(tree: BisecTree<nat>, r: nat, l: nat, k: nat)
    requires tree.Valid()
    reads tree
  {
    && l < tree.nLevels && r < tree.nParts && k < |tree.nodes[l]|
    && tree.nodes[l][k] == r && k == Anc(r, tree.nLevels - 1 - l)
  }

  /** One turn of the loop of SendToRest: the message sent, if any, and the child that the rank holds. */
  method SendToChild(tree: BisecTree<nat>, ghost source: nat, ghost r: nat, l: nat, k: nat)
    returns (message: seq<nat>, child: nat)
    requires IsSendTree(tree, source) && l + 1 < tree.nLevels && StandsAt(tree, r, l, k)
    ensures message == Handover(tree.nParts, source, r, tree.nLevels - 1 - l)
    ensures StandsAt(tree, r, l + 1, child)
  {
    Descend(tree.nParts, source, r, tree.nLevels - 1 - l);
    var below := tree.nodes[l + 1];
    if below[Left(k)] == tree.nodes[l][k] {
      message := if Right(k) != |below| then [below[Right(k)]] else [];
      child := Left(k);
    } else {
      message := [below[Left(k)]];
      child := Right(k);
    }
  }

  /** SendToRest: descends the send tree from (lvl, node) and sends to the holder of every child that
      another rank holds.  The messages are returned in the order in which they are sent. */
  method SendToRest(tree: BisecTree<nat>, ghost source: nat, lvl: nat, node: nat) returns (sent: seq<nat>)
    requires IsSendTree(tree, source) && lvl < tree.nLevels && node < |tree.nodes[lvl]|
    ensures sent == Sends(tree.nParts, source, tree.nodes[lvl][node], tree.nLevels - 1 - lvl)
  {
    sent := [];
    var l: nat, k: nat := lvl, node;
    ghost var n, top, r := tree.nParts, tree.nLevels - 1, tree.nodes[lvl][node];
    HolderBelow(n, top - lvl, node, source);
    while l != tree.nLevels - 1
      invariant l <= top && StandsAt(tree, r, l, k)
      invariant sent + Sends(n, source, r, top - l) == Sends(n, source, r, top - lvl)
      decreases top - l
    {
      var message, child := SendToChild(tree, source, r, l, k);
      SendsMore(n, source, r, top - l, sent);
      sent, l, k := sent + message, l + 1, child;
    }
  }

  /** SendAll: what the source sends. */
  method SendAll(n: nat, rank: nat) returns (sent: seq<nat>)
    requires rank < n
    ensures sent == Script(n, rank, rank)
  {
    var tree := BuildSendTree(n, rank);
    OneRoot(n, tree.nLevels - 1);
    SourceHoldsRoot(n, rank, rank);
    AncInLevel(n, rank, tree.nLevels - 1);
    sent := SendToRest(tree, rank, 0, 0);
  }

  /** Node `node` of level lvl is me's node there, it holds me, and it has a root. */
  ghost predicate OnPath(tree: BisecTree<nat>, source: nat, me: nat, lvl: nat, node: nat)
    requires IsSendTree(tree, source) && me < tree.nParts
    reads tree
  {
    && 1 <= lvl < tree.nLevels
    && node == Anc(me, tree.nLevels - 1 - lvl)
    && node < |tree.nodes[lvl]| && Root(node) < |tree.nodes[lvl - 1]|
    && tree.nodes[lvl][node] == me
    && tree.nodes[lvl - 1][Root(node)] == Holder(tree.nLevels - lvl, Root(node), source)
    && tree.nLevels - 1 - lvl <= Height(tree.nParts, source, me)
  }

  lemma PathStarts(tree: BisecTree<nat>, source: nat, me: nat)
    requires IsSendTree(tree, source) && me < tree.nParts && source != me
    ensures OnPath(tree, source, me, tree.nLevels - 1, me)
  {
    SourceHoldsRoot(tree.nParts, source, me);
    AncInLevel(tree.nParts, me, 1);
  }

  /** me does not hold the root, so a climb from a node whose root me holds does not leave the tree. */
  lemma PathClimbs(tree: BisecTree<nat>, source: nat, me: nat, lvl: nat, node: nat)
    requires IsSendTree(tree, source) && me < tree.nParts && source != me && OnPath(tree, source, me, lvl, node)
    ensures tree.nodes[lvl - 1][Root(node)] == me
            <==> tree.nLevels - lvl <= Height(tree.nParts, source, me)
    ensures tree.nodes[lvl - 1][Root(node)] == me ==> OnPath(tree, source, me, lvl - 1, Root(node))
  {
    SourceHoldsRoot(tree.nParts, source, me);
    HeightIsHighest(tree.nParts, source, me, tree.nLevels - lvl);
    if tree.nodes[lvl - 1][Root(node)] == me {
      AncInLevel(tree.nParts, me, tree.nLevels - lvl + 1);
    }
  }

  /** The climb of RecvSendAll: from me's bottom node to the highest node that me holds. */
  method FindReceiveNode(tree: BisecTree<nat>, me: nat, ghost source: nat) returns (lvl: nat, node: nat)
    requires IsSendTree(tree, source) && me < tree.nParts && source != me
    ensures 1 <= lvl < tree.nLevels && tree.nLevels - 1 - lvl == Height(tree.nParts, source, me)
    ensures node == Anc(me, tree.nLevels - 1 - lvl) && node < |tree.nodes[lvl]| && tree.nodes[lvl][node] == me
    ensures Root(node) < |tree.nodes[lvl - 1]| && tree.nodes[lvl - 1][Root(node)] == Sender(tree.nParts, source, me)
  {
    PathStarts(tree, source, me);
    lvl, node := tree.nLevels - 1, me;
    while tree.nodes[lvl - 1][Root(node)] == me
      invariant OnPath(tree, source, me, lvl, node)
      decreases lvl
    {
      PathClimbs(tree, source, me, lvl, node);
      lvl, node := lvl - 1, Root(node);
    }
    PathClimbs(tree, source, me, lvl, node);
  }

  /** RecvSendAll: the rank that me receives from, and what it sends afterwards. */
  method RecvSendAll(n: nat, me: nat, rank: nat) returns (from: nat, sent: seq<nat>)
    requires me < n && rank < n && rank != me
    ensures from == Sender(n, rank, me) && sent == Script(n, rank, me)
  {
    var tree := BuildSendTree(n, rank);
    var lvl, node := FindReceiveNode(tree, me, rank);
    from := tree.nodes[lvl - 1][Root(node)];
    sent := SendToRest(tree, rank, lvl, node);
  }
}

/** The broadcast as a step relation over all ranks.  A send is a rendezvous: it completes only
    together with a receive that its destination has already posted. */
module TreeBroadcast {
  import opened SendTree
  import opened BisecTree

  datatype Option<+T> = None | Some(value: T)

  /** container[r] is what rank r holds; a rank other than the source holds nothing until its one
      receive returns.  sent[r] counts the completed sends of rank r. */
  datatype State<T> = State(container: seq<Option<T>>, sent: seq<nat>)

  ghost function Start<T>(n: nat, source: nat, data: T): State<T>
    requires source < n
  {
    State(seq(n, r => None)[source := Some(data)], seq(n, r => 0))
  }

  ghost predicate Shaped<T>(n: nat, s: State<T>) {
    |s.container| == n && |s.sent| == n
  }

  /** Rank r has its container and still has to send; its next destination d is blocked in the receive
      from r. */
  ghost predicate CanSend<T>(n: nat, source: nat, s: State<T>, r: nat)
    requires Shaped(n, s) && source < n
  {
    && r < n
    && s.container[r].Some?
    && s.sent[r] < |Script(n, source, r)|
    && var d := Script(n, source, r)[s.sent[r]];
       d < n && d != source && s.container[d].None? && Sender(n, source, d) == r
  }

  ghost function Deliver<T>(n: nat, source: nat, s: State<T>, r: nat): State<T>
    requires Shaped(n, s) && source < n && CanSend(n, source, s, r)
  {
    State(s.container[Script(n, source, r)[s.sent[r]] := s.container[r]], s.sent[r := s.sent[r] + 1])
  }

  /** A run names the rank that sends at each step: any interleaving of the ranks. */
  ghost predicate IsRun<T(!new)>(n: nat, source: nat, data: T, run: seq<nat>, s: State<T>)
    requires source < n
    decreases |run|
  {
    if run == [] then s == Start(n, source, data)
    else exists before: State<T> ::
        && IsRun(n, source, data, run[..|run| - 1], before)
        && Shaped(n, before)
        && CanSend(n, source, before, run[|run| - 1])
        && s == Deliver(n, source, before, run[|run| - 1])
  }

  ghost predicate Stuck<T>(n: nat, source: nat, s: State<T>)
    requires Shaped(n, s) && source < n
  {
    forall r :: 0 <= r < n ==> !CanSend(n, source, s, r)
  }

  ghost function Holding<T>(s: State<T>): set<nat> {
    set r | 0 <= r < |s.container| && s.container[r].Some?
  }

  ghost predicate Inv<T>(n: nat, source: nat, data: T, s: State<T>)
    requires source < n
  {
    && Shaped(n, s)
    && s.container[source] == Some(data)
    && (forall r :: 0 <= r < n && s.container[r].Some? ==> s.container[r].value == data)
    && (forall r :: 0 <= r < n ==> s.sent[r] <= |Script(n, source, r)|)
    && (forall r :: 0 <= r < n && s.container[r].None? ==> s.sent[r] == 0)
    && (forall r, i :: 0 <= r < n && 0 <= i < |Script(n, source, r)|
          ==> var d := Script(n, source, r)[i]; d < n && (s.container[d].Some? <==> i < s.sent[r]))
  }

  lemma StartInv<T>(n: nat, source: nat, data: T)
    requires source < n
    ensures Inv(n, source, data, Start(n, source, data))
  {
    forall r, i | 0 <= r < n && 0 <= i < |Script(n, source, r)| {
      ScriptMeetsWaiter(n, source, r, Height(n, source, r), i);
    }
  }

  lemma StepInv<T>(n: nat, source: nat, data: T, s: State<T>, r: nat)
    requires source < n && Inv(n, source, data, s) && CanSend(n, source, s, r)
    ensures Inv(n, source, data, Deliver(n, source, s, r))
    ensures |Holding(Deliver(n, source, s, r))| == |Holding(s)| + 1
  {
    var d := Script(n, source, r)[s.sent[r]];
    var t := Deliver(n, source, s, r);
    assert Holding(t) == Holding(s) + {d};
    forall q, i | 0 <= q < n && 0 <= i < |Script(n, source, q)|
      ensures var e := Script(n, source, q)[i]; e < n && (t.container[e].Some? <==> i < t.sent[q])
    {
      ScriptMeetsWaiter(n, source, q, Height(n, source, q), i);
      if q == r {
        if i < s.sent[r] {
          ScriptIsInjective(n, source, r, Height(n, source, r), i, s.sent[r]);
        } else if s.sent[r] < i {
          ScriptIsInjective(n, source, r, Height(n, source, r), s.sent[r], i);
        }
      }
    }
  }

  /** When no informed rank has anything left to send, every rank is informed. */
  lemma {:induction false} AllInformed<T>(n: nat, source: nat, data: T, s: State<T>, d: nat)
    requires source < n && d < n && Inv(n, source, data, s)
    requires forall r :: 0 <= r < n && s.container[r].Some? ==> s.sent[r] == |Script(n, source, r)|
    ensures s.container[d].Some?
    decreases NumLevels(n) - Height(n, source, d)
  {
    if d != source {
      SenderFacts(n, source, d);
      var r := Sender(n, source, d);
      AllInformed(n, source, data, s, r);
      var i := WaiterIsInScript(n, source, r, Height(n, source, r), d);
    }
  }

  /** No reachable state is stuck before the end: if no send can complete, every rank holds the
      source's data and has finished its script. */
  lemma NeverStuck<T>(n: nat, source: nat, data: T, s: State<T>)
    requires source < n && Inv(n, source, data, s) && Stuck(n, source, s)
    ensures forall r :: 0 <= r < n ==> s.container[r] == Some(data) && s.sent[r] == |Script(n, source, r)|
  {
    forall r | 0 <= r < n && s.container[r].Some?
      ensures s.sent[r] == |Script(n, source, r)|
    {
      if s.sent[r] < |Script(n, source, r)| {
        ScriptMeetsWaiter(n, source, r, Height(n, source, r), s.sent[r]);
        assert CanSend(n, source, s, r);
      }
    }
    forall r | 0 <= r < n ensures s.container[r].Some? {
      AllInformed(n, source, data, s, r);
    }
  }

  lemma {:induction false} RunInv<T(!new)>(n: nat, source: nat, data: T, run: seq<nat>, s: State<T>)
    requires source < n && IsRun(n, source, data, run, s)
    ensures Inv(n, source, data, s) && |Holding(s)| == |run| + 1
    decreases |run|
  {
    if run == [] {
      StartInv(n, source, data);
      assert Holding(s) == {source};
    } else {
      var before: State<T> :|
        && IsRun(n, source, data, run[..|run| - 1], before)
        && Shaped(n, before)
        && CanSend(n, source, before, run[|run| - 1])
        && s == Deliver(n, source, before, run[|run| - 1]);
      RunInv(n, source, data, run[..|run| - 1], before);
      StepInv(n, source, data, before, run[|run| - 1]);
    }
  }

  lemma {:induction false} RanksBelow(n: nat, ranks: set<nat>)
    requires forall r :: r in ranks ==> r < n
    ensures |ranks| <= n
    ensures (forall r :: 0 <= r < n ==> r in ranks) ==> |ranks| == n
  {
    if n > 0 {
      RanksBelow(n - 1, ranks - {n - 1});
    } else {
      assert ranks == {};
    }
  }

  /** The broadcast theorem, for every rank count, source and interleaving under rendezvous sends:
      a run makes at most n - 1 sends; it is stuck exactly when it has made n - 1; and then every rank
      holds the source's data, so that each rank but the source has received exactly once, from the
      rank it waited on. */
  lemma BroadcastTheorem<T(!new)>(n: nat, source: nat, data: T, run: seq<nat>, s: State<T>)
    requires source < n && IsRun(n, source, data, run, s)
    ensures |run| <= n - 1 && Shaped(n, s)
    ensures Stuck(n, source, s) <==> |run| == n - 1
    ensures Stuck(n, source, s) ==> forall r :: 0 <= r < n ==> s.container[r] == Some(data)
    ensures Stuck(n, source, s) ==> forall r :: 0 <= r < n ==> s.sent[r] == |Script(n, source, r)|
  {
    RunInv(n, source, data, run, s);
    RanksBelow(n, Holding(s));
    if Stuck(n, source, s) {
      NeverStuck(n, source, data, s);
    } else {
      var r :| 0 <= r < n && CanSend(n, source, s, r);
      StepInv(n, source, data, s, r);
      RanksBelow(n, Holding(Deliver(n, source, s, r)));
    }
  }
}

/** Depth-first order on the paths of a tree: what popping and pushing paths does
    to it. `tree` gives the actions, in order, at the end of a path. */
module DepthFirst {

  type Tree<!A> = seq<A> -> seq<A>

  /** The path without its last action. */
  function Up<A>(path: seq<A>): seq<A>
    requires path != []
  {
    path[..|path| - 1]
  }

  /** If both paths end in actions of the same place, `u` ends in one listed
      before that of `v`. */
  ghost predicate FirstOf<A>(tree: Tree<A>, u: seq<A>, v: seq<A>) {
    u != [] && v != [] && Up(u) == Up(v) ==>
      exists p, q :: 0 <= p < q < |tree(Up(u))| && tree(Up(u))[p] == u[|u| - 1] && tree(Up(u))[q] == v[|v| - 1]
  }

  /** A path comes behind its parent, with nothing but descendants between one and
      its descendants, and behind the siblings whose actions are listed first. */
  ghost predicate PreorderAt<A>(tree: Tree<A>, popped: seq<seq<A>>, k: nat)
    requires k < |popped|
  {
    && (k == 0 <==> popped[k] == [])
    && (k > 0 ==> exists i :: 0 <= i < k && popped[i] == Up(popped[k]))
    && (forall i, j :: 0 <= i < j < k && popped[i] <= popped[k] ==> popped[i] <= popped[j])
    && (forall i :: 0 <= i < k ==> FirstOf(tree, popped[i], popped[k]))
  }

  ghost predicate Preorder<A>(tree: Tree<A>, popped: seq<seq<A>>) {
    forall k :: 0 <= k < |popped| ==> PreorderAt(tree, popped, k)
  }

  /** A path on the stack hangs off the one popped last, the deeper the closer to
      the top, and siblings lie the other way round. */
  ghost predicate HangsAt<A>(tree: Tree<A>, popped: seq<seq<A>>, stack: seq<seq<A>>, j: nat)
    requires j < |stack| && popped != []
  {
    && stack[j] != [] && Up(stack[j]) <= popped[|popped| - 1] && Up(stack[j]) in popped
    && (forall i :: 0 <= i < j ==> stack[i] != [] && Up(stack[i]) <= Up(stack[j]) && FirstOf(tree, stack[j], stack[i]))
    && (forall i :: 0 <= i < |popped| ==> FirstOf(tree, popped[i], stack[j]))
  }

  ghost predicate Hangs<A>(tree: Tree<A>, popped: seq<seq<A>>, stack: seq<seq<A>>) {
    if popped == [] then stack == [[]]
    else Preorder(tree, popped) && forall j :: 0 <= j < |stack| ==> HangsAt(tree, popped, stack, j)
  }

  /** Of the path popped last, no child is popped, and those on the stack were
      pushed for one of its last `k` actions. */
  ghost predicate Spreading<A>(tree: Tree<A>, popped: seq<seq<A>>, stack: seq<seq<A>>, k: nat) {
    popped != [] && Hangs(tree, popped, stack) &&
    var node := popped[|popped| - 1];
    && (forall i :: 0 <= i < |popped| ==> popped[i] == [] || Up(popped[i]) != node)
    && (forall j :: 0 <= j < |stack| ==> ChildPushed(tree, node, stack[j], k))
  }

  ghost predicate ChildPushed<A>(tree: Tree<A>, node: seq<A>, path: seq<A>, k: nat) {
    path != [] && Up(path) == node ==> exists b :: 0 <= b < |tree(node)| <= b + k && tree(node)[b] == path[|path| - 1]
  }

  lemma PrefixTrans<A>(a: seq<A>, b: seq<A>, c: seq<A>)
    requires a <= b && b <= c
    ensures a <= c
  {
  }

  lemma PrefixUp<A>(a: seq<A>, b: seq<A>)
    requires b != []
    ensures Up(b) <= b
    ensures a <= b && a != b ==> a <= Up(b)
  {
  }

  /** The next path popped comes in preorder. */
  lemma PopPreorder<A>(tree: Tree<A>, popped: seq<seq<A>>, stack: seq<seq<A>>, top: seq<A>)
    requires Hangs(tree, popped, stack + [top]) && top !in popped
    ensures Preorder(tree, popped + [top])
  {
    hide FirstOf, Up;
    var popped', n := popped + [top], |popped|;
    forall k | 0 <= k < |popped'|
      ensures PreorderAt(tree, popped', k)
    {
      if k < n {
        EarlierPreorder(tree, popped, top, k);
      } else if n > 0 {
        assert HangsAt(tree, popped, stack + [top], |stack|);
        TopPreorder(tree, popped, top);
      }
    }
  }

  lemma EarlierPreorder<A>(tree: Tree<A>, popped: seq<seq<A>>, top: seq<A>, k: nat)
    requires Preorder(tree, popped) && k < |popped|
    ensures PreorderAt(tree, popped + [top], k)
  {
    hide FirstOf, Up;
    var popped' := popped + [top];
    assert PreorderAt(tree, popped, k) && forall i :: 0 <= i <= k ==> popped'[i] == popped[i];
    if k > 0 {
      var i :| 0 <= i < k && popped[i] == Up(popped[k]);
      assert popped'[i] == Up(popped'[k]);
    }
  }

  lemma TopPreorder<A>(tree: Tree<A>, popped: seq<seq<A>>, top: seq<A>)
    requires popped != [] && Preorder(tree, popped) && top !in popped
    requires top != [] && Up(top) <= popped[|popped| - 1] && Up(top) in popped
    requires forall i :: 0 <= i < |popped| ==> FirstOf(tree, popped[i], top)
    ensures PreorderAt(tree, popped + [top], |popped|)
  {
    hide FirstOf, Up;
    var popped', n := popped + [top], |popped|;
    var m :| 0 <= m < n && popped[m] == Up(top);
    assert popped'[m] == Up(popped'[n]);
    forall i, j | 0 <= i < j < n && popped'[i] <= popped'[n]
      ensures popped'[i] <= popped'[j]
    {
      PrefixUp(popped[i], top);
      PrefixTrans(popped[i], Up(top), popped[n - 1]);
      assert PreorderAt(tree, popped, n - 1);
    }
  }

  /** Popping a path leaves a stack that hangs off it, with none of its children. */
  lemma PopHangs<A>(tree: Tree<A>, popped: seq<seq<A>>, stack: seq<seq<A>>, top: seq<A>)
    requires Hangs(tree, popped, stack + [top]) && top !in popped
    ensures Spreading(tree, popped + [top], stack, 0)
  {
    hide FirstOf, Preorder;
    PopPreorder(tree, popped, stack, top);
    var popped' := popped + [top];
    forall j | 0 <= j < |stack|
      ensures HangsAt(tree, popped', stack, j) && Up(stack[j]) != top
    {
      StillHangs(tree, popped, stack, top, j);
    }
    forall i | 0 <= i < |popped'|
      ensures popped'[i] == [] || Up(popped'[i]) != top
    {
      NoChildPopped(tree, popped', i);
    }
  }

  lemma NoChildPopped<A>(tree: Tree<A>, popped: seq<seq<A>>, i: nat)
    requires Preorder(tree, popped) && i < |popped| && popped[|popped| - 1] !in popped[..|popped| - 1]
    ensures popped[i] == [] || Up(popped[i]) != popped[|popped| - 1]
  {
    hide FirstOf, Up;
    assert PreorderAt(tree, popped, i);
    if i > 0 {
      var m :| 0 <= m < i && popped[m] == Up(popped[i]);
      assert popped[m] in popped[..|popped| - 1];
    }
  }

  lemma StillHangs<A>(tree: Tree<A>, popped: seq<seq<A>>, stack: seq<seq<A>>, top: seq<A>, j: nat)
    requires Hangs(tree, popped, stack + [top]) && top !in popped && j < |stack|
    ensures HangsAt(tree, popped + [top], stack, j) && Up(stack[j]) != top
  {
    hide FirstOf, Up, Preorder;
    var all := stack + [top];
    assert HangsAt(tree, popped, all, j) && HangsAt(tree, popped, all, |stack|);
    assert all[j] == stack[j] && all[|stack|] == top && forall i :: 0 <= i < j ==> all[i] == stack[i];
    PrefixUp([], top);
    PrefixTrans(Up(stack[j]), Up(top), top);
  }

  /** Listed closer to the front than any sibling pushed before it. */
  lemma ChildFirst<A>(tree: Tree<A>, node: seq<A>, k: nat, path: seq<A>)
    requires k < |tree(node)| && path != [] && ChildPushed(tree, node, path, k)
    ensures FirstOf(tree, node + [tree(node)[|tree(node)| - 1 - k]], path)
  {
    var acts := tree(node);
    var child := node + [acts[|acts| - 1 - k]];
    assert Up(child) == node;
    if Up(path) == node {
      var b :| 0 <= b < |acts| <= b + k && acts[b] == path[|path| - 1];
      assert 0 <= |acts| - 1 - k < b < |acts| && acts[|acts| - 1 - k] == child[|child| - 1];
    }
  }

  lemma ChildHangs<A>(tree: Tree<A>, popped: seq<seq<A>>, stack: seq<seq<A>>, k: nat, child: seq<A>)
    requires Spreading(tree, popped, stack, k) && k < |tree(popped[|popped| - 1])|
    requires child == popped[|popped| - 1] + [tree(popped[|popped| - 1])[|tree(popped[|popped| - 1])| - 1 - k]]
    ensures HangsAt(tree, popped, stack + [child], |stack|)
  {
    hide Preorder, ChildPushed;
    var node, stack' := popped[|popped| - 1], stack + [child];
    assert Up(child) == node;
    forall i | 0 <= i < |stack|
      ensures stack'[i] != [] && Up(stack'[i]) <= node && FirstOf(tree, child, stack'[i])
    {
      assert HangsAt(tree, popped, stack, i);
      hide FirstOf;
      ChildFirst(tree, node, k, stack[i]);
    }
  }

  lemma OlderHangs<A>(tree: Tree<A>, popped: seq<seq<A>>, stack: seq<seq<A>>, child: seq<A>, j: nat)
    requires popped != [] && j < |stack| && HangsAt(tree, popped, stack, j)
    ensures HangsAt(tree, popped, stack + [child], j)
  {
    hide FirstOf, Up;
    assert forall i :: 0 <= i <= j ==> (stack + [child])[i] == stack[i];
  }

  /** A child is pushed for the next action from the back. */
  lemma PushHangs<A>(tree: Tree<A>, popped: seq<seq<A>>, stack: seq<seq<A>>, k: nat)
    requires Spreading(tree, popped, stack, k) && k < |tree(popped[|popped| - 1])|
    ensures var node := popped[|popped| - 1];
            Spreading(tree, popped, stack + [node + [tree(node)[|tree(node)| - 1 - k]]], k + 1)
  {
    hide Preorder, FirstOf;
    var node := popped[|popped| - 1];
    var child := node + [tree(node)[|tree(node)| - 1 - k]];
    var stack' := stack + [child];
    ChildHangs(tree, popped, stack, k, child);
    forall j | 0 <= j < |stack'|
      ensures HangsAt(tree, popped, stack', j)
    {
      if j < |stack| { OlderHangs(tree, popped, stack, child, j); }
    }
    NewestPushed(tree, node, k, child);
    forall j | 0 <= j < |stack'|
      ensures ChildPushed(tree, node, stack'[j], k + 1)
    {
      if j < |stack| { MorePushed(tree, node, stack[j], k); }
    }
    hide HangsAt, ChildPushed;
  }

  lemma NewestPushed<A>(tree: Tree<A>, node: seq<A>, k: nat, child: seq<A>)
    requires k < |tree(node)| && child == node + [tree(node)[|tree(node)| - 1 - k]]
    ensures ChildPushed(tree, node, child, k + 1)
  {
    var b := |tree(node)| - 1 - k;
    assert tree(node)[b] == child[|child| - 1];
  }

  lemma MorePushed<A>(tree: Tree<A>, node: seq<A>, path: seq<A>, k: nat)
    requires ChildPushed(tree, node, path, k)
    ensures ChildPushed(tree, node, path, k + 1)
  {
  }

  lemma SkipHangs<A>(tree: Tree<A>, popped: seq<seq<A>>, stack: seq<seq<A>>, k: nat)
    requires Spreading(tree, popped, stack, k)
    ensures Spreading(tree, popped, stack, k + 1)
  {
    hide Hangs, ChildPushed;
    forall j | 0 <= j < |stack|
      ensures ChildPushed(tree, popped[|popped| - 1], stack[j], k + 1)
    {
      MorePushed(tree, popped[|popped| - 1], stack[j], k);
    }
  }
}

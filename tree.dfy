/**
 * The grouping trie as the source builds it: heap nodes with a children
 * map keyed by LabelFields and a counter each, walked with a `current`
 * pointer. A ghost map from edge-key paths to nodes ties the heap to the
 * trie value of module Trie.
 */
module UrlTree {
  import opened Text
  import opened Labels
  import opened Counting
  import opened Trie

  /**
   * urlNode. The counter is held by value, as the node embeds it; `path`
   * is the edge-key path from the root, kept for the proofs only.
   */
  class Node {
    var specificLabel: LabelFields
    var children: map<LabelFields, Node>
    var counts: CounterValue
    ghost const path: seq<LabelFields>

    /** newURLNode: a leaf labelled `f`, counting with the limit `f` asks for. */
    constructor (f: LabelFields, ghost path: seq<LabelFields>)
      ensures specificLabel == f && children == map[] && this.path == path
      ensures View() == NewNodeView(f)
    {
      specificLabel := f;
      children := map[];
      counts := NewCounter(f.CounterLimit());
      this.path := path;
    }

    /**
     * The rest of one step of add at this node, reached from the node at
     * `p` of trie `v`: take the edge key as label (and its raw limit) when
     * the label values differ, then count the token.
     */
    method Take(ghost v: TrieView, ghost p: seq<LabelFields>, t: PathToken)
      requires p + [t.tokenLabel.ParentOrSelf()] in v && v[p + [t.tokenLabel.ParentOrSelf()]] == View()
      modifies this
      ensures View() == Visited(v, p, t) && children == old(children)
    {
      var key := t.tokenLabel.ParentOrSelf();
      if specificLabel.value != t.tokenLabel.fields.value {
        specificLabel := key;
        counts := counts.(limit := key.cardinalityLimit);
      }
      counts := counts.Added(t.token);
    }

    /** The node's current value. */
    function View(): NodeView
      reads this
    {
      NodeView(specificLabel, counts)
    }
  }

  /** urlTree */
  class Tree {
    const root: Node
    /** The node at the end of each edge-key path from the root. */
    ghost var Contents: map<seq<LabelFields>, Node>
    /** The value of the trie. */
    ghost var Trie: TrieView
    ghost var Repr: set<object>

    /**
     * The heap matches the value: one node per path, each holding what
     * `Trie` says, and the children maps are exactly the edges between the
     * paths.
     */
    ghost predicate Linked()
      reads this, Repr
    {
      && this in Repr
      && Contents.Keys == Trie.Keys
      && PrefixClosed(Trie)
      && [] in Contents && Contents[[]] == root
      && (forall q :: q in Contents ==>
            Contents[q] in Repr && Contents[q].path == q && Trie[q] == Contents[q].View())
      && (forall q, k :: q in Contents && k in Contents[q].children ==>
            Below(q, k) in Contents && Contents[q].children[k] == Contents[Below(q, k)])
      && (forall q, k :: q in Contents && Below(q, k) in Contents ==> k in Contents[q].children)
    }

    /** Linked, and every counter of the trie value is consistent. */
    ghost predicate Valid()
      reads this, Repr
    {
      Linked() && CountsValid(Trie)
    }

    /** newURLTree */
    constructor ()
      ensures Valid() && fresh(Repr)
      ensures Trie == EmptyTrie
    {
      var r := new Node(NoFields, []);
      root := r;
      Contents := map[[] := r];
      Trie := EmptyTrie;
      new;
      Repr := {this, r};
    }

    /**
     * The child of `current` along the token's edge, created with the
     * token's own fields when it is missing.
     */
    method Child(current: Node, ghost p: seq<LabelFields>, t: PathToken) returns (child: Node)
      requires Linked() && p in Contents && Contents[p] == current
      modifies this, current
      ensures Linked() && fresh(Repr - old(Repr))
      ensures var q := p + [t.tokenLabel.ParentOrSelf()];
        && q in Contents && Contents[q] == child
        && Trie == if q in old(Trie) then old(Trie) else old(Trie)[q := NewNodeView(t.tokenLabel.fields)]
    {
      var key := t.tokenLabel.ParentOrSelf();
      if key in current.children {
        child := current.children[key];
      } else {
        child := Grow(current, p, key, t.tokenLabel.fields);
      }
    }

    /** A new leaf labelled `f` under `current`, along the missing edge `key`. */
    method Grow(current: Node, ghost p: seq<LabelFields>, key: LabelFields, f: LabelFields) returns (child: Node)
      requires Linked() && p in Contents && Contents[p] == current && key !in current.children
      modifies this, current
      ensures Linked() && fresh(child) && Repr == old(Repr) + {child}
      ensures Below(p, key) !in old(Contents) && Contents == old(Contents)[Below(p, key) := child]
      ensures Trie == old(Trie)[Below(p, key) := NewNodeView(f)]
    {
      ghost var q := Below(p, key);
      assert q !in Contents;
      ghost var before := Trie;
      ExtendClosed(Trie, p, key, NewNodeView(f));
      child := new Node(f, q);
      current.children := current.children[key := child];
      Contents := Contents[q := child];
      Trie := Trie[q := NewNodeView(f)];
      Repr := Repr + {child};
      forall q1 | q1 in Contents
        ensures Contents[q1] in Repr && Contents[q1].path == q1 && Trie[q1] == Contents[q1].View()
      {
        if q1 != q {
          assert Contents[q1].View() == old(Contents[q1].View());
        }
      }
      forall q1, k | q1 in Contents && k in Contents[q1].children
        ensures Below(q1, k) in Contents && Contents[q1].children[k] == Contents[Below(q1, k)]
      {
        if q1 != p || k != key {
          assert q1 != q && k in old(Contents[q1].children);
        }
      }
      forall q1, k | q1 in Contents && Below(q1, k) in Contents ensures k in Contents[q1].children {
        if Below(q1, k) == q {
          assert |q1| == |p| && q1 == Below(q1, k)[..|p|] && k == Below(q1, k)[|p|];
        } else if q1 == q {
          assert false;
        } else {
          assert k in old(Contents[q1].children);
        }
      }
    }

    /** The rest of one step of add, at the child on the token's edge below `p`. */
    method Count(child: Node, ghost p: seq<LabelFields>, t: PathToken)
      requires Linked()
      requires p + [t.tokenLabel.ParentOrSelf()] in Contents && Contents[p + [t.tokenLabel.ParentOrSelf()]] == child
      modifies this, child
      ensures Linked() && Repr == old(Repr) && Contents == old(Contents)
      ensures Trie == old(Trie)[p + [t.tokenLabel.ParentOrSelf()] := Visited(old(Trie), p, t)]
    {
      ghost var q := Below(p, t.tokenLabel.ParentOrSelf());
      child.Take(Trie, p, t);
      Trie := Trie[q := child.View()];
      forall q1 | q1 in Contents && q1 != q ensures Trie[q1] == Contents[q1].View() {
        assert Contents[q1].path != child.path;
      }
    }

    /** One token of add: from `current`, move to the child along the token's edge and count the token there. */
    method Step(current: Node, ghost p: seq<LabelFields>, t: PathToken) returns (child: Node)
      requires Linked() && p in Contents && Contents[p] == current
      modifies Repr
      ensures Linked() && fresh(Repr - old(Repr))
      ensures var q := p + [t.tokenLabel.ParentOrSelf()]; q in Contents && Contents[q] == child
      ensures Trie == Visit(old(Trie), p, t)
    {
      VisitAfterCreate(Trie, p, t);
      child := Child(current, p, t);
      Count(child, p, t);
    }

    /**
     * The walk of add: follows the tokens' edge chain from the root,
     * creating missing nodes, and counts each token at its node; the trie
     * value becomes AddTokens of the old one.
     */
    method Walk(tokens: seq<PathToken>)
      requires Linked()
      modifies Repr
      ensures Linked() && fresh(Repr - old(Repr))
      ensures Trie == AddTokens(old(Trie), tokens)
    {
      var current := root;
      var i := 0;
      assert |EdgeKeys(tokens)| == |tokens|;
      while i < |tokens|
        invariant 0 <= i <= |tokens| == |EdgeKeys(tokens)|
        invariant Linked()
        invariant fresh(Repr - old(Repr))
        invariant EdgeKeys(tokens)[..i] in Contents && Contents[EdgeKeys(tokens)[..i]] == current
        invariant Trie == AddPrefix(old(Trie), tokens, i)
      {
        ghost var before := Repr;
        current := Step(current, EdgeKeys(tokens)[..i], tokens[i]);
        assert Repr - old(Repr) <= (before - old(Repr)) + (Repr - before);
        ChainExtend(tokens, i + 1);
        i := i + 1;
      }
    }

    /** add: the walk keeps every node reachable and every counter consistent. */
    method Add(tokens: seq<PathToken>)
      requires Valid()
      modifies Repr
      ensures Valid() && fresh(Repr - old(Repr))
      ensures Trie == AddTokens(old(Trie), tokens)
    {
      Walk(tokens);
      AddTokensHealthy(old(Trie), tokens);
    }

    /**
     * path: one string per token, the node's label or the significant raw
     * token while the edges exist, then the remaining raw tokens.
     */
    method Path(tokens: seq<PathToken>) returns (replaced: seq<string>)
      requires Valid()
      ensures replaced == Replaced(Trie, tokens, [])
    {
      replaced := [];
      var current := root;
      ghost var p: seq<LabelFields> := [];
      ghost var goal := Replaced(Trie, tokens, []);
      var i := 0;
      assert tokens[0..] == tokens;
      while i < |tokens|
        invariant 0 <= i <= |tokens|
        invariant p in Contents && Contents[p] == current
        invariant replaced == goal[..i] && Replaced(Trie, tokens[i..], p) == goal[i..]
      {
        var t := tokens[i];
        var key := t.tokenLabel.ParentOrSelf();
        ReplacedStep(Trie, tokens, p, i);
        if key !in current.children {
          assert Below(p, key) !in Contents;
          assert goal == goal[..i] + goal[i..];
          return replaced + Texts(tokens[i..]);
        }
        var child := current.children[key];
        assert Trie[p + [key]] == child.View();
        var emitted := Emit(child.View(), t.token);
        assert goal[i] == emitted && goal[i + 1..] == goal[i..][1..];
        replaced := replaced + [emitted];
        current := child;
        p := p + [key];
        i := i + 1;
      }
    }
  }
}

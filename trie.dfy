/**
 * The grouping trie, as a value. A node is named by the path of edge keys
 * that leads to it from the root; an edge key is the `ParentOrSelf` label of
 * the token that follows it. Training visits one node per token; simplifying
 * walks the same edges and replaces each token by its node's label unless
 * the token is significant at an important node.
 */
module Trie {
  import opened Text
  import opened Labels
  import opened Counting

  /** What a node holds: the label it reports and the counts of the tokens that reached it. */
  datatype NodeView = NodeView(specificLabel: LabelFields, counts: CounterValue)

  /** The nodes of a trie, by the edge-key path from the root. */
  type TrieView = map<seq<LabelFields>, NodeView>

  /** newURLNode: a node for `f`, whose counter takes the limit `f` asks for. */
  function NewNodeView(f: LabelFields): (n: NodeView)
    ensures n.specificLabel == f && n.counts.limit == f.CounterLimit()
    ensures n.counts.total == 0 && n.counts.Population() == 0 && n.counts.Valid()
  {
    NodeView(f, NewCounter(f.CounterLimit()))
  }

  /** newURLTree: just the root, labelled with the zero LabelFields. */
  const EmptyTrie: TrieView := map[[] := NewNodeView(NoFields)]

  /** The edge key each token follows. */
  function EdgeKeys(tokens: seq<PathToken>): seq<LabelFields> {
    seq(|tokens|, i requires 0 <= i < |tokens| => tokens[i].tokenLabel.ParentOrSelf())
  }

  /**
   * The child a token reaches from the node at `p`, before it counts the
   * token: the existing child, or a new one with the token's own fields;
   * if its label value differs from the token's, it takes the edge key as
   * its label and the key's raw limit, keeping its counts.
   */
  function Reached(v: TrieView, p: seq<LabelFields>, t: PathToken): (n: NodeView)
    ensures var key := t.tokenLabel.ParentOrSelf();
      n.specificLabel.value == t.tokenLabel.fields.value || n.specificLabel == key
  {
    var key := t.tokenLabel.ParentOrSelf();
    var q := p + [key];
    var child := if q in v then v[q] else NewNodeView(t.tokenLabel.fields);
    if child.specificLabel.value != t.tokenLabel.fields.value
    then NodeView(key, child.counts.(limit := key.cardinalityLimit))
    else child
  }

  /** The child after it has counted the token: its total goes up by one. */
  function Visited(v: TrieView, p: seq<LabelFields>, t: PathToken): (n: NodeView)
    ensures var q := p + [t.tokenLabel.ParentOrSelf()];
      n.counts.total == (if q in v then v[q].counts.total else 0) + 1
  {
    var n := Reached(v, p, t);
    n.(counts := n.counts.Added(t.token))
  }

  /** One step of urlTree.add: the child of `p` along the token's edge is replaced by its visited form. */
  function Visit(v: TrieView, p: seq<LabelFields>, t: PathToken): (r: TrieView)
    ensures var q := p + [t.tokenLabel.ParentOrSelf()];
      && r.Keys == v.Keys + {q}
      && (forall k :: k in v && k != q ==> r[k] == v[k])
  {
    v[p + [t.tokenLabel.ParentOrSelf()] := Visited(v, p, t)]
  }

  /** The trie after urlTree.add has handled the first `n` tokens. */
  function AddPrefix(v: TrieView, tokens: seq<PathToken>, n: nat): TrieView
    requires n <= |tokens|
  {
    if n == 0 then v else Visit(AddPrefix(v, tokens, n - 1), EdgeKeys(tokens)[..n - 1], tokens[n - 1])
  }

  /** urlTree.add */
  function AddTokens(v: TrieView, tokens: seq<PathToken>): TrieView {
    AddPrefix(v, tokens, |tokens|)
  }

  /** `q` is the path of the node that one of the first `n` tokens leads to. */
  predicate OnChain(q: seq<LabelFields>, tokens: seq<PathToken>, n: nat)
    requires n <= |tokens|
  {
    1 <= |q| <= n && q == EdgeKeys(tokens)[..|q|]
  }

  /** The path one edge below `q`. */
  function Below(q: seq<LabelFields>, key: LabelFields): seq<LabelFields> {
    q + [key]
  }

  /**
   * Every node is reachable: the root is present and the path of every
   * other node without its last key names a node too.
   */
  ghost predicate PrefixClosed(v: TrieView) {
    && [] in v
    && forall q, key :: Below(q, key) in v ==> q in v
  }

  /** Each counter adds up to its total, and every node other than the root has counted at least once. */
  ghost predicate CountsValid(v: TrieView) {
    forall q :: q in v ==> v[q].counts.Valid() && (q != [] ==> v[q].counts.total >= 1)
  }

  /** The path of the node the n-th token leads to: one key beyond the previous one. */
  lemma ChainExtend(tokens: seq<PathToken>, n: nat)
    requires 1 <= n <= |tokens|
    ensures EdgeKeys(tokens)[..n - 1] + [tokens[n - 1].tokenLabel.ParentOrSelf()] == EdgeKeys(tokens)[..n]
  {
    var e := EdgeKeys(tokens);
    assert e[..n - 1] + [e[n - 1]] == e[..n];
  }

  /** The chain of the first `n` tokens is that of the first n - 1 and the node the n-th token leads to. */
  lemma ChainStep(tokens: seq<PathToken>, n: nat)
    requires 1 <= n <= |tokens|
    ensures forall k :: OnChain(k, tokens, n) <==> OnChain(k, tokens, n - 1) || k == EdgeKeys(tokens)[..n]
  {
    var e := EdgeKeys(tokens);
    assert |e[..n]| == n;
    forall k ensures OnChain(k, tokens, n) <==> OnChain(k, tokens, n - 1) || k == e[..n] {
      if k == e[..n] {
        assert 1 <= |k| == n && k == e[..|k|];
      }
    }
  }

  /** After adding the first `n` tokens the nodes are the old ones plus the chain of their edges, at most `n` of them new. */
  lemma {:induction false} AddPrefixKeys(v: TrieView, tokens: seq<PathToken>, n: nat)
    requires n <= |tokens|
    ensures forall q :: q in AddPrefix(v, tokens, n) <==> q in v || OnChain(q, tokens, n)
    ensures |AddPrefix(v, tokens, n).Keys| <= |v.Keys| + n
  {
    if n > 0 {
      AddPrefixKeys(v, tokens, n - 1);
      ChainExtend(tokens, n);
      ChainStep(tokens, n);
    }
  }

  /** Each node on the chain counted exactly one more token; every other node is unchanged. */
  lemma {:induction false} AddPrefixCounts(v: TrieView, tokens: seq<PathToken>, n: nat)
    requires n <= |tokens|
    ensures var r := AddPrefix(v, tokens, n);
      forall q :: q in r ==> r[q].counts.total == (if q in v then v[q].counts.total else 0) + (if OnChain(q, tokens, n) then 1 else 0)
  {
    if n > 0 {
      var r0 := AddPrefix(v, tokens, n - 1);
      var p := EdgeKeys(tokens)[..n - 1];
      AddPrefixCounts(v, tokens, n - 1);
      AddPrefixKeys(v, tokens, n - 1);
      ChainExtend(tokens, n);
      ChainStep(tokens, n);
      VisitTotals(r0, p, tokens[n - 1]);
      ChainCounts(v, r0, Visit(r0, p, tokens[n - 1]), tokens, n);
    }
  }

  /** The inductive step of AddPrefixCounts, on the two tries it relates. */
  lemma ChainCounts(v: TrieView, r0: TrieView, r: TrieView, tokens: seq<PathToken>, n: nat)
    requires 1 <= n <= |tokens|
    requires forall q :: q in r0 ==> r0[q].counts.total == (if q in v then v[q].counts.total else 0) + (if OnChain(q, tokens, n - 1) then 1 else 0)
    requires forall q :: q in r0 <==> q in v || OnChain(q, tokens, n - 1)
    requires forall k :: OnChain(k, tokens, n) <==> OnChain(k, tokens, n - 1) || k == EdgeKeys(tokens)[..n]
    requires forall q :: q in r ==> r[q].counts.total == (if q in r0 then r0[q].counts.total else 0) + (if q == EdgeKeys(tokens)[..n] then 1 else 0)
    requires r.Keys == r0.Keys + {EdgeKeys(tokens)[..n]}
    ensures forall q :: q in r ==> r[q].counts.total == (if q in v then v[q].counts.total else 0) + (if OnChain(q, tokens, n) then 1 else 0)
  {
    var c := EdgeKeys(tokens)[..n];
    forall q | q in r
      ensures r[q].counts.total == (if q in v then v[q].counts.total else 0) + (if OnChain(q, tokens, n) then 1 else 0)
    {
      CountsStep(if q in v then v[q].counts.total else 0, if q in r0 then r0[q].counts.total else 0, r[q].counts.total,
        q in r0, OnChain(q, tokens, n - 1), q == c, OnChain(q, tokens, n));
    }
  }

  /**
   * The inductive step of AddPrefixCounts at one node: `base`, `before` and
   * `after` are its totals in the original trie, before the step and after it.
   */
  lemma CountsStep(base: int, before: int, after: int, wasThere: bool, onOld: bool, isNew: bool, onNew: bool)
    requires wasThere ==> before == base + (if onOld then 1 else 0)
    requires !wasThere ==> base == 0 && before == 0 && !onOld && isNew
    requires after == before + (if isNew then 1 else 0)
    requires onNew == (onOld || isNew) && !(onOld && isNew)
    ensures after == base + (if onNew then 1 else 0)
  {
  }

  /** One Visit counts one more token at the node it reaches and nowhere else. */
  lemma VisitTotals(v: TrieView, p: seq<LabelFields>, t: PathToken)
    ensures var r := Visit(v, p, t);
      forall q :: q in r ==>
        r[q].counts.total == (if q in v then v[q].counts.total else 0) + (if q == p + [t.tokenLabel.ParentOrSelf()] then 1 else 0)
  {
  }

  /** Every node off the chain is left as it was. */
  lemma {:induction false} AddPrefixOffChain(v: TrieView, tokens: seq<PathToken>, n: nat)
    requires n <= |tokens|
    ensures var r := AddPrefix(v, tokens, n);
      forall q :: q in v && !OnChain(q, tokens, n) ==> q in r && r[q] == v[q]
  {
    if n > 0 {
      var r0 := AddPrefix(v, tokens, n - 1);
      var r := Visit(r0, EdgeKeys(tokens)[..n - 1], tokens[n - 1]);
      assert r == AddPrefix(v, tokens, n);
      AddPrefixOffChain(v, tokens, n - 1);
      ChainExtend(tokens, n);
      ChainStep(tokens, n);
    }
  }

  /** Adding tokens keeps every node reachable and every counter consistent. */
  lemma {:induction false} AddPrefixHealthy(v: TrieView, tokens: seq<PathToken>, n: nat)
    requires n <= |tokens|
    requires PrefixClosed(v) && CountsValid(v)
    ensures PrefixClosed(AddPrefix(v, tokens, n)) && CountsValid(AddPrefix(v, tokens, n))
    ensures EdgeKeys(tokens)[..n] in AddPrefix(v, tokens, n)
  {
    if n > 0 {
      AddPrefixHealthy(v, tokens, n - 1);
      var r0 := AddPrefix(v, tokens, n - 1);
      var p := EdgeKeys(tokens)[..n - 1];
      var t := tokens[n - 1];
      VisitHealthy(r0, p, t);
      ChainExtend(tokens, n);
    } else {
      assert EdgeKeys(tokens)[..0] == [];
    }
  }

  /** Hanging a node below an existing one keeps every node reachable. */
  lemma ExtendClosed(v: TrieView, p: seq<LabelFields>, key: LabelFields, n: NodeView)
    requires PrefixClosed(v) && p in v
    ensures PrefixClosed(v[Below(p, key) := n])
  {
    var r := v[Below(p, key) := n];
    forall q, k | Below(q, k) in r ensures q in r {
      if Below(q, k) == Below(p, key) {
        assert q == Below(q, k)[..|q|] && p == Below(p, key)[..|p|];
      }
    }
  }

  lemma VisitHealthy(v: TrieView, p: seq<LabelFields>, t: PathToken)
    requires PrefixClosed(v) && CountsValid(v) && p in v
    ensures PrefixClosed(Visit(v, p, t)) && CountsValid(Visit(v, p, t))
  {
    ExtendClosed(v, p, t.tokenLabel.ParentOrSelf(), Visited(v, p, t));
    VisitedValid(v, p, t);
  }

  /** Creating the missing child first and then visiting it is one Visit. */
  lemma VisitAfterCreate(v: TrieView, p: seq<LabelFields>, t: PathToken)
    ensures var q := p + [t.tokenLabel.ParentOrSelf()];
      var c := if q in v then v else v[q := NewNodeView(t.tokenLabel.fields)];
      c[q := Visited(c, p, t)] == Visit(v, p, t)
  {
    var q := p + [t.tokenLabel.ParentOrSelf()];
    var c := if q in v then v else v[q := NewNodeView(t.tokenLabel.fields)];
    var n := Visited(v, p, t);
    assert Visited(c, p, t) == n by {
      assert Reached(c, p, t) == Reached(v, p, t);
    }
    assert c[q := n] == v[q := n];
  }

  lemma VisitedValid(v: TrieView, p: seq<LabelFields>, t: PathToken)
    requires CountsValid(v)
    ensures Visited(v, p, t).counts.Valid()
  {
    AddedValid(Reached(v, p, t).counts, t.token);
  }

  /**
   * The label a node ends up with: a new node takes the token's own fields;
   * a node whose label value differs from the token's takes the edge key,
   * with the key's raw limit and its counts kept; otherwise the label stays.
   */
  lemma VisitLabel(v: TrieView, p: seq<LabelFields>, t: PathToken)
    ensures var key := t.tokenLabel.ParentOrSelf();
      var q := p + [key];
      var r := Visit(v, p, t);
      && (q !in v ==> r[q] == NodeView(t.tokenLabel.fields, NewCounter(t.tokenLabel.fields.CounterLimit()).Added(t.token)))
      && (q in v && v[q].specificLabel.value != t.tokenLabel.fields.value ==>
            r[q] == NodeView(key, v[q].counts.(limit := key.cardinalityLimit).Added(t.token)))
      && (q in v && v[q].specificLabel.value == t.tokenLabel.fields.value ==>
            r[q] == NodeView(v[q].specificLabel, v[q].counts.Added(t.token)))
      && (r[q].specificLabel.value == t.tokenLabel.fields.value || r[q].specificLabel == key)
  {
  }

  /**
   * Once a node has taken its edge key as label, it keeps it: any later
   * token that reaches it has that key as its ParentOrSelf, and either
   * carries the same label value or makes the node take the key again.
   */
  lemma PromotionSticks(v: TrieView, p: seq<LabelFields>, t: PathToken)
    requires var q := p + [t.tokenLabel.ParentOrSelf()]; q in v && v[q].specificLabel == t.tokenLabel.ParentOrSelf()
    ensures Visit(v, p, t)[p + [t.tokenLabel.ParentOrSelf()]].specificLabel == t.tokenLabel.ParentOrSelf()
  {
  }

  /**
   * What path emits for one token at node `n`: the raw token when the
   * node's label is important and the token is significant there, the
   * node's label value otherwise.
   */
  function Emit(n: NodeView, token: string): (r: string)
    ensures r == token || r == n.specificLabel.value
    ensures !n.specificLabel.important ==> r == n.specificLabel.value
  {
    if n.specificLabel.important && n.counts.IsSignificant(token) then token else n.specificLabel.value
  }

  /**
   * urlTree.path, from the node at `p`: one string per token; from the
   * first token whose edge is missing on, the raw tokens.
   */
  function Replaced(v: TrieView, tokens: seq<PathToken>, p: seq<LabelFields>): (r: seq<string>)
    ensures |r| == |tokens|
    decreases |tokens|
  {
    if tokens == [] then []
    else
      var q := p + [tokens[0].tokenLabel.ParentOrSelf()];
      if q !in v then Texts(tokens)
      else [Emit(v[q], tokens[0].token)] + Replaced(v, tokens[1..], q)
  }

  /** Replaced from token `i` on: one step of its definition. */
  lemma ReplacedStep(v: TrieView, tokens: seq<PathToken>, p: seq<LabelFields>, i: nat)
    requires i < |tokens|
    ensures var q := p + [tokens[i].tokenLabel.ParentOrSelf()];
      Replaced(v, tokens[i..], p) ==
        if q !in v then Texts(tokens[i..]) else [Emit(v[q], tokens[i].token)] + Replaced(v, tokens[i + 1..], q)
  {
    assert tokens[i..][0] == tokens[i] && tokens[i..][1..] == tokens[i + 1..];
  }

  /**
   * In a trie whose nodes are all reachable, token i is simplified at the
   * node its edge path names when that node exists, and passes through raw
   * when it does not.
   */
  lemma {:induction false} ReplacedAt(v: TrieView, tokens: seq<PathToken>, p: seq<LabelFields>, i: nat)
    requires PrefixClosed(v) && i < |tokens|
    ensures var q := p + EdgeKeys(tokens)[..i + 1];
      Replaced(v, tokens, p)[i] == if q in v then Emit(v[q], tokens[i].token) else tokens[i].token
    decreases |tokens|
  {
    var q0 := p + [tokens[0].tokenLabel.ParentOrSelf()];
    var q := p + EdgeKeys(tokens)[..i + 1];
    if i == 0 {
      assert q == q0;
    } else {
      assert EdgeKeys(tokens)[..i + 1] == [tokens[0].tokenLabel.ParentOrSelf()] + EdgeKeys(tokens[1..])[..i];
      assert q == q0 + EdgeKeys(tokens[1..])[..i];
      if q0 in v {
        ReplacedAt(v, tokens[1..], q0, i - 1);
      } else {
        MissingPrefix(v, q0, EdgeKeys(tokens[1..])[..i]);
      }
    }
  }

  /** In a trie whose nodes are all reachable, no node lies below a missing one. */
  lemma {:induction false} MissingPrefix(v: TrieView, q: seq<LabelFields>, ext: seq<LabelFields>)
    requires PrefixClosed(v) && q !in v
    ensures q + ext !in v
    decreases |ext|
  {
    if ext == [] {
      assert q + ext == q;
    } else {
      var last := |ext| - 1;
      MissingPrefix(v, q, ext[..last]);
      assert q + ext == Below(q + ext[..last], ext[last]);
    }
  }

  /** path does not change what the raw tokens say when no edge exists: a fresh trie echoes the tokens. */
  lemma ReplacedEmpty(tokens: seq<PathToken>)
    ensures Replaced(EmptyTrie, tokens, []) == Texts(tokens)
  {
    if tokens != [] {
      assert [tokens[0].tokenLabel.ParentOrSelf()] !in EmptyTrie;
    }
  }

  /** After an add, every node of the added path's edge chain is present. */
  lemma ChainPresent(v: TrieView, tokens: seq<PathToken>, i: nat)
    requires i < |tokens|
    ensures EdgeKeys(tokens)[..i + 1] in AddTokens(v, tokens)
  {
    AddPrefixKeys(v, tokens, |tokens|);
    assert OnChain(EdgeKeys(tokens)[..i + 1], tokens, |tokens|);
  }

  /** urlTree.add keeps every node reachable and every counter consistent. */
  lemma AddTokensHealthy(v: TrieView, tokens: seq<PathToken>)
    requires PrefixClosed(v) && CountsValid(v)
    ensures PrefixClosed(AddTokens(v, tokens)) && CountsValid(AddTokens(v, tokens))
  {
    AddPrefixHealthy(v, tokens, |tokens|);
  }

  /**
   * Right after a path is added, simplifying it again follows its whole
   * edge chain: no token passes through raw unless its node emits it.
   */
  lemma AddedPathIsKnown(v: TrieView, tokens: seq<PathToken>, i: nat)
    requires PrefixClosed(v) && CountsValid(v) && i < |tokens|
    ensures var r := AddTokens(v, tokens);
      var q := EdgeKeys(tokens)[..i + 1];
      q in r && Replaced(r, tokens, [])[i] == Emit(r[q], tokens[i].token)
  {
    ChainPresent(v, tokens, i);
    AddTokensHealthy(v, tokens);
    KnownAt(AddTokens(v, tokens), tokens, i);
  }

  lemma KnownAt(r: TrieView, tokens: seq<PathToken>, i: nat)
    requires PrefixClosed(r) && i < |tokens| && EdgeKeys(tokens)[..i + 1] in r
    ensures Replaced(r, tokens, [])[i] == Emit(r[EdgeKeys(tokens)[..i + 1]], tokens[i].token)
  {
    ReplacedAt(r, tokens, [], i);
    assert [] + EdgeKeys(tokens)[..i + 1] == EdgeKeys(tokens)[..i + 1];
  }
}

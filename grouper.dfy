/**
 * The Grouper: one grouping trie per tree key, the key being the number of
 * '/' between the first and the last segment of the path. Adding a path
 * trains the trie of its key; simplifying a path reads it, planting an
 * empty trie first when the key is new.
 */
module Grouping {
  import opened Text
  import opened Labels
  import opened Classifiers
  import opened Trie
  import opened UrlTree

  datatype Result<T> = Ok(value: T) | Err(message: string)

  /**
   * The tree key of getTree: '/' characters left after trimming every
   * leading and every trailing '/'.
   */
  function TreeKey(path: string): nat {
    CountSlashes(TrimRightSlashes(TrimLeftSlashes(path)))
  }

  lemma {:induction false} TrimmedAppendSlash(s: string)
    ensures TrimRightSlashes(TrimLeftSlashes(s + "/")) == TrimRightSlashes(TrimLeftSlashes(s))
  {
    if s == "" {
      assert TrimLeftSlashes(s + "/") == TrimLeftSlashes((s + "/")[1..]);
    } else if s[0] == '/' {
      assert (s + "/")[1..] == s[1..] + "/";
      TrimmedAppendSlash(s[1..]);
    } else {
      assert (s + "/")[..|s|] == s;
    }
  }

  /** Separators around the segments do not change the tree key. */
  lemma TreeKeyOuterSlashes(s: string)
    ensures TreeKey("/" + s) == TreeKey(s)
    ensures TreeKey(s + "/") == TreeKey(s)
  {
    assert ("/" + s)[1..] == s;
    TrimmedAppendSlash(s);
  }

  /** `seg` is one path segment: it holds no '/'. */
  predicate NoSlash(seg: string) {
    forall i :: 0 <= i < |seg| ==> seg[i] != '/'
  }

  lemma {:induction false} CountSlashesAppend(a: string, b: string)
    ensures CountSlashes(a + b) == CountSlashes(a) + CountSlashes(b)
  {
    if a == "" {
      assert a + b == b;
    } else {
      assert (a + b)[0] == a[0] && (a + b)[1..] == a[1..] + b;
      CountSlashesAppend(a[1..], b);
    }
  }

  lemma {:induction false} NoSlashCount(seg: string)
    requires NoSlash(seg)
    ensures CountSlashes(seg) == 0
  {
    if seg != "" {
      NoSlashCount(seg[1..]);
    }
  }

  /** The empty path, the root "/" and a one-segment path all have tree key 0. */
  lemma TreeKeyZero(seg: string)
    requires NoSlash(seg)
    ensures TreeKey("") == 0 && TreeKey("/") == 0
    ensures TreeKey(seg) == 0 && TreeKey("/" + seg) == 0
  {
    TreeKeyOuterSlashes("");
    assert "/" + "" == "/";
    TreeKeyOuterSlashes(seg);
    TrimmedNoSlash(seg);
    NoSlashCount(seg);
  }

  lemma TrimmedNoSlash(seg: string)
    requires NoSlash(seg)
    ensures TrimRightSlashes(TrimLeftSlashes(seg)) == seg
  {
  }

  /** A string that neither starts nor ends with '/' is its own trimming. */
  lemma TrimmedInner(s: string)
    requires s != "" && s[0] != '/' && s[|s| - 1] != '/'
    ensures TrimRightSlashes(TrimLeftSlashes(s)) == s
  {
  }

  lemma DoubleSlashCount()
    ensures CountSlashes("//") == 2
  {
    assert "//"[1..] == "/" && "/"[1..] == "";
  }

  /** Separators in `a + "//" + b` when neither segment holds one. */
  lemma {:induction false} TwoSlashesBetween(a: string, b: string)
    requires NoSlash(a) && NoSlash(b)
    ensures CountSlashes(a + "//" + b) == 2
  {
    CountSlashesAppend(a + "//", b);
    CountSlashesAppend(a, "//");
    NoSlashCount(a);
    NoSlashCount(b);
    DoubleSlashCount();
  }

  /**
   * The key counts separators, not segments or tokens: "/a//b" has key 2
   * although it has two segments.
   */
  lemma TreeKeyEmptySegment(a: string, b: string)
    requires a != "" && b != "" && NoSlash(a) && NoSlash(b)
    ensures TreeKey("/" + a + "//" + b) == 2
  {
    var s := a + "//" + b;
    assert "/" + a + "//" + b == "/" + s;
    TreeKeyOuterSlashes(s);
    assert s[0] == a[0] && s[|s| - 1] == b[|b| - 1];
    TrimmedInner(s);
    TwoSlashesBetween(a, b);
  }

  /** The trie for `key`, or the empty trie getTree would plant there. */
  function TreeOf(forest: map<int, TrieView>, key: int): TrieView {
    if key in forest then forest[key] else EmptyTrie
  }

  /** The forest after getTree for `key`: unchanged when the key is known, else an empty trie is planted. */
  function Planted(forest: map<int, TrieView>, key: int): (r: map<int, TrieView>)
    ensures r.Keys == forest.Keys + {key}
    ensures forall k :: k in forest ==> r[k] == forest[k]
    ensures key in r && r[key] == TreeOf(forest, key)
  {
    if key in forest then forest else forest[key := EmptyTrie]
  }

  /** Setting a key after planting it is setting it outright. */
  lemma PlantedThenSet(forest: map<int, TrieView>, key: int, v: TrieView)
    ensures Planted(forest, key)[key := v] == forest[key := v]
  {
  }

  /**
   * Grouper.Add on the forest value: the trie at `key` learns `tokens`
   * (Add passes the path's tree key and tokens); every other trie stays.
   */
  function Trained(forest: map<int, TrieView>, key: int, tokens: seq<PathToken>): (r: map<int, TrieView>)
    ensures r.Keys == forest.Keys + {key}
    ensures forall k :: k in forest && k != key ==> r[k] == forest[k]
  {
    forest[key := AddTokens(TreeOf(forest, key), tokens)]
  }

  /** Grouper.SimplifyPath on the forest value. */
  function Simplified(forest: map<int, TrieView>, cs: seq<Classifier>, path: string): string {
    "/" + Join(Replaced(TreeOf(forest, TreeKey(path)), Tokens(path, cs), []))
  }

  /** Every trie of the forest has all its nodes reachable and all its counters consistent. */
  ghost predicate Healthy(forest: map<int, TrieView>) {
    forall k :: k in forest ==> PrefixClosed(forest[k]) && CountsValid(forest[k])
  }

  lemma EmptyTrieHealthy()
    ensures PrefixClosed(EmptyTrie) && CountsValid(EmptyTrie)
  {
  }

  /** Replacing one trie by a healthy one keeps the forest healthy. */
  lemma ReplantedHealthy(forest: map<int, TrieView>, key: int, v: TrieView)
    requires Healthy(forest) && PrefixClosed(v) && CountsValid(v)
    ensures Healthy(forest[key := v])
  {
  }

  /** Training keeps every trie healthy. */
  lemma TrainedHealthy(forest: map<int, TrieView>, key: int, tokens: seq<PathToken>)
    requires Healthy(forest)
    ensures Healthy(Trained(forest, key, tokens))
  {
    EmptyTrieHealthy();
    AddTokensHealthy(TreeOf(forest, key), tokens);
    ReplantedHealthy(forest, key, AddTokens(TreeOf(forest, key), tokens));
  }

  /**
   * Right after a path's tokens are added, simplifying them follows their
   * whole edge chain: token i comes out as its node emits it, never raw
   * for want of an edge.
   */
  lemma TrainedPathIsKnown(forest: map<int, TrieView>, key: int, tokens: seq<PathToken>, i: nat)
    requires Healthy(forest) && i < |tokens|
    ensures var v := TreeOf(Trained(forest, key, tokens), key);
      EdgeKeys(tokens)[..i + 1] in v
      && Replaced(v, tokens, [])[i] == Emit(v[EdgeKeys(tokens)[..i + 1]], tokens[i].token)
  {
    EmptyTrieHealthy();
    AddedPathIsKnown(TreeOf(forest, key), tokens, i);
  }

  lemma {:induction false} RemoveSlashesJoin(parts: seq<string>)
    ensures RemoveSlashes(Join(parts)) == RemoveSlashes(Concat(parts))
  {
    if |parts| == 1 {
      assert Concat(parts) == parts[0] + Concat(parts[1..]);
      assert parts[0] + "" == parts[0];
    } else if |parts| > 1 {
      RemoveSlashesJoin(parts[1..]);
      RemoveSlashesAppend(parts[0] + "/", Join(parts[1..]));
      RemoveSlashesAppend(parts[0], "/");
      RemoveSlashesAppend(parts[0], Concat(parts[1..]));
      assert RemoveSlashes("/") == RemoveSlashes("/"[1..]) == "";
    }
  }

  /** A path whose key no tree holds yet comes back as "/" and its raw tokens joined by "/". */
  lemma SimplifyUnseenEchoes(forest: map<int, TrieView>, cs: seq<Classifier>, path: string)
    requires TreeKey(path) !in forest
    ensures Simplified(forest, cs, path) == "/" + Join(Texts(Tokens(path, cs)))
  {
    ReplacedEmpty(Tokens(path, cs));
  }

  /**
   * A path whose key no tree holds yet comes back with every non-separator
   * character it had, in order: only separators may differ.
   */
  lemma SimplifyUnseenKeepsText(forest: map<int, TrieView>, cs: seq<Classifier>, path: string)
    requires TreeKey(path) !in forest
    ensures RemoveSlashes(Simplified(forest, cs, path)) == RemoveSlashes(path)
  {
    var tokens := Tokens(path, cs);
    SimplifyUnseenEchoes(forest, cs, path);
    var joined := Join(Texts(tokens));
    assert ("/" + joined)[1..] == joined;
    RemoveSlashesJoin(Texts(tokens));
    TokensCoverPath(path, cs);
  }

  /** Option: a change to the classifiers a new Grouper uses, or an error. */
  type Option = seq<Classifier> -> Result<seq<Classifier>>

  /** WithClassifiers: whatever the classifiers were, they become `classifiers`. */
  function WithClassifiers(classifiers: seq<Classifier>): (o: Option)
    ensures forall cs :: o(cs) == Ok(classifiers)
  {
    cs => Ok(classifiers)
  }

  /** The options applied in order to `cs`; the first error is the result. */
  function ApplyOptions(cs: seq<Classifier>, options: seq<Option>): Result<seq<Classifier>>
    decreases |options|
  {
    if options == [] then Ok(cs)
    else
      match options[0](cs)
      case Err(e) => Err(e)
      case Ok(next) => ApplyOptions(next, options[1..])
  }

  /** Applying two lists of options is applying the first, then the second to what it produced. */
  lemma {:induction false} ApplyOptionsAppend(cs: seq<Classifier>, a: seq<Option>, b: seq<Option>)
    ensures ApplyOptions(cs, a + b) ==
      match ApplyOptions(cs, a)
      case Err(e) => Err(e)
      case Ok(next) => ApplyOptions(next, b)
    decreases |a|
  {
    if a == [] {
      assert a + b == b;
    } else {
      assert (a + b)[0] == a[0] && (a + b)[1..] == a[1..] + b;
      match a[0](cs)
      case Err(e) =>
      case Ok(next) => ApplyOptionsAppend(next, a[1..], b);
    }
  }

  /** A failing option makes the whole list fail with the first error. */
  lemma FailingOptionFails(cs: seq<Classifier>, options: seq<Option>, o: Option)
    requires forall x :: o(x).Err?
    ensures ApplyOptions(cs, options + [o]).Err?
  {
    ApplyOptionsAppend(cs, options, [o]);
  }

  /** The last WithClassifiers wins when the options before it succeed. */
  lemma LastWithClassifiersWins(cs: seq<Classifier>, options: seq<Option>, classifiers: seq<Classifier>)
    requires ApplyOptions(cs, options).Ok?
    ensures ApplyOptions(cs, options + [WithClassifiers(classifiers)]) == Ok(classifiers)
  {
    ApplyOptionsAppend(cs, options, [WithClassifiers(classifiers)]);
  }

  /** A tree none of whose objects changed keeps its validity and its value. */
  twostate lemma TreeKept(u: Tree)
    requires old(u.Valid()) && unchanged(old(u.Repr))
    ensures u.Valid() && u.Repr == old(u.Repr) && u.Trie == old(u.Trie)
  {
  }

  /** Grouper */
  class Grouper {
    var classifiers: seq<Classifier>
    /** One tree per tree key. */
    var trees: map<int, Tree>
    /** The value of each tree, by key. */
    ghost var Forest: map<int, TrieView>
    ghost var Repr: set<object>

    /** Every tree is valid, owns its nodes alone, and holds the trie `Forest` names for its key. */
    ghost predicate Valid()
      reads this, Repr
    {
      && this in Repr
      && Forest.Keys == trees.Keys
      && (forall k :: k in trees ==>
            && trees[k] in Repr && trees[k].Repr <= Repr && this !in trees[k].Repr
            && trees[k].Valid() && trees[k].Trie == Forest[k])
      && (forall k1, k2 :: k1 in trees && k2 in trees && k1 != k2 ==> trees[k1].Repr !! trees[k2].Repr)
    }

    /** Every trie of a valid Grouper has its nodes reachable and its counters consistent. */
    lemma ForestHealthy()
      requires Valid()
      ensures Healthy(Forest)
    {
      forall k | k in Forest ensures PrefixClosed(Forest[k]) && CountsValid(Forest[k]) {
        assert trees[k].Valid();
      }
    }

    constructor (classifiers: seq<Classifier>)
      ensures Valid() && fresh(Repr)
      ensures this.classifiers == classifiers && trees == map[] && Forest == map[]
    {
      this.classifiers := classifiers;
      trees := map[];
      Forest := map[];
      Repr := {this};
    }

    /** getTree: the tree for the path's key, planting an empty one when the key is new. */
    method GetTree(path: string) returns (t: Tree)
      requires Valid()
      modifies this
      ensures Valid() && fresh(Repr - old(Repr)) && classifiers == old(classifiers)
      ensures TreeKey(path) in trees && t == trees[TreeKey(path)] && t.Repr <= Repr
      ensures Forest == Planted(old(Forest), TreeKey(path))
    {
      t := TreeAt(TreeKey(path));
    }

    /** The tree at `key`, planting an empty one when there is none. */
    method TreeAt(key: int) returns (t: Tree)
      requires Valid()
      modifies this
      ensures Valid() && fresh(Repr - old(Repr)) && classifiers == old(classifiers)
      ensures key in trees && t == trees[key] && t.Repr <= Repr
      ensures Forest == Planted(old(Forest), key)
    {
      if key in trees {
        t := trees[key];
      } else {
        t := new Tree();
        Plant(key, t);
        Sprouted(key);
      }
    }

    /** Puts `t` in at `key`: the tree, its value and its objects. */
    method Plant(key: int, t: Tree)
      modifies this
      ensures trees == old(trees)[key := t] && Forest == old(Forest)[key := t.Trie] && Repr == old(Repr) + t.Repr
      ensures classifiers == old(classifiers)
    {
      trees := trees[key := t];
      Forest := Forest[key := t.Trie];
      Repr := Repr + t.Repr;
    }

    /** A new valid tree planted at a new key leaves the Grouper valid. */
    twostate lemma Sprouted(key: int)
      requires old(Valid()) && key !in old(trees) && key in trees && trees == old(trees)[key := trees[key]]
      requires unchanged(old(Repr) - {this})
      requires trees[key].Valid() && fresh(trees[key].Repr)
      requires Forest == old(Forest)[key := trees[key].Trie] && Repr == old(Repr) + trees[key].Repr
      ensures Valid()
    {
      forall k | k in trees && k != key
        ensures && trees[k].Repr == old(trees[k].Repr) && this !in trees[k].Repr
                && trees[k].Valid() && trees[k].Trie == old(trees[k].Trie)
      {
        TreeKept(trees[k]);
      }
    }

    /** Add: trains the tree of the path's key with the path's tokens. */
    method Add(path: string)
      requires Valid()
      modifies Repr
      ensures Valid() && fresh(Repr - old(Repr)) && classifiers == old(classifiers)
      ensures Forest == Trained(old(Forest), TreeKey(path), Tokens(path, classifiers))
    {
      var tokens := LabelPathTokens(path, classifiers);
      Learn(path, tokens);
    }

    /** The tree of the path's key, planted if need be, learns `tokens`. */
    method Learn(path: string, tokens: seq<PathToken>)
      requires Valid()
      modifies Repr
      ensures Valid() && fresh(Repr - old(Repr)) && classifiers == old(classifiers)
      ensures Forest == old(Forest)[TreeKey(path) := AddTokens(TreeOf(old(Forest), TreeKey(path)), tokens)]
    {
      ghost var key := TreeKey(path);
      var t := GetTree(path);
      ghost var planted := Repr;
      Train(t, key, tokens);
      assert Repr - old(Repr) <= (planted - old(Repr)) + (Repr - planted);
      PlantedThenSet(old(Forest), key, AddTokens(TreeOf(old(Forest), key), tokens));
    }

    /** Takes the tree at `key` back in: its value into `Forest`, its objects into `Repr`. */
    method Refresh(ghost key: int, t: Tree)
      modifies this
      ensures Forest == old(Forest)[key := t.Trie] && Repr == old(Repr) + t.Repr
      ensures classifiers == old(classifiers) && trees == old(trees)
    {
      Forest := Forest[key := t.Trie];
      Repr := Repr + t.Repr;
    }

    /** After the tree at `key` changed alone, every other tree is as it was. */
    twostate lemma OthersKept(key: int)
      requires old(Valid()) && key in old(trees) && trees == old(trees) && Repr == old(Repr) + trees[key].Repr
      requires unchanged(old(Repr) - old(trees[key].Repr) - {this})
      requires fresh(trees[key].Repr - old(trees[key].Repr))
      requires Forest.Keys == old(Forest).Keys && forall k :: k in Forest && k != key ==> Forest[k] == old(Forest[k])
      ensures forall k :: k in trees && k != key ==>
        && trees[k] in Repr && trees[k].Repr == old(trees[k].Repr) && trees[k].Repr <= Repr && this !in trees[k].Repr
        && trees[k].Valid() && trees[k].Trie == Forest[k] && trees[k].Repr !! trees[key].Repr
    {
      var t := trees[key];
      forall k | k in trees && k != key
        ensures && trees[k].Repr == old(trees[k].Repr) && trees[k].Repr <= Repr && this !in trees[k].Repr
                && trees[k].Valid() && trees[k].Trie == Forest[k] && trees[k].Repr !! t.Repr
      {
        assert old(trees[k].Repr) <= old(Repr) && old(trees[k].Repr) !! old(t.Repr);
        TreeKept(trees[k]);
      }
    }

    /** After the tree at `key` changed alone, the trees' objects are still apart. */
    twostate lemma StillApart(key: int)
      requires old(Valid()) && key in old(trees) && trees == old(trees) && Repr == old(Repr) + trees[key].Repr
      requires unchanged(old(Repr) - old(trees[key].Repr) - {this})
      requires fresh(trees[key].Repr - old(trees[key].Repr))
      ensures forall k1, k2 :: k1 in trees && k2 in trees && k1 != k2 ==> trees[k1].Repr !! trees[k2].Repr
    {
      forall k1, k2 | k1 in trees && k2 in trees && k1 != k2 ensures trees[k1].Repr !! trees[k2].Repr {
        if k1 != key && k2 != key {
          TreeKept(trees[k1]);
          TreeKept(trees[k2]);
        } else if k1 == key {
          TreeKept(trees[k2]);
          assert old(trees[k2].Repr) <= old(Repr) && old(trees[k2].Repr) !! old(trees[key].Repr);
        } else {
          TreeKept(trees[k1]);
          assert old(trees[k1].Repr) <= old(Repr) && old(trees[k1].Repr) !! old(trees[key].Repr);
        }
      }
    }

    /**
     * After the tree at `key` changed alone and was taken back in, the
     * Grouper is valid again.
     */
    twostate lemma Retrained(key: int)
      requires old(Valid()) && key in old(trees) && trees == old(trees)
      requires unchanged(old(Repr) - old(trees[key].Repr) - {this})
      requires trees[key].Valid() && fresh(trees[key].Repr - old(trees[key].Repr))
      requires Forest == old(Forest)[key := trees[key].Trie] && Repr == old(Repr) + trees[key].Repr
      ensures Valid()
    {
      OthersKept(key);
      StillApart(key);
    }

    /** The tree at `key` learns `tokens`; the other trees are untouched. */
    method Train(t: Tree, ghost key: int, tokens: seq<PathToken>)
      requires Valid() && key in trees && trees[key] == t
      modifies Repr
      ensures Valid() && fresh(Repr - old(Repr)) && classifiers == old(classifiers) && trees == old(trees)
      ensures Forest == old(Forest)[key := AddTokens(old(Forest)[key], tokens)]
    {
      t.Add(tokens);
      Refresh(key, t);
      Retrained(key);
    }

    /** SimplifyPath: the path with its tokens replaced as the tree of its key says. */
    method SimplifyPath(path: string) returns (s: string)
      requires Valid()
      modifies this
      ensures Valid() && fresh(Repr - old(Repr)) && classifiers == old(classifiers)
      ensures Forest == Planted(old(Forest), TreeKey(path))
      ensures s == Simplified(old(Forest), classifiers, path)
    {
      var tokens := LabelPathTokens(path, classifiers);
      var t := GetTree(path);
      var replaced := t.Path(tokens);
      s := "/" + Join(replaced);
    }
  }

  /**
   * New: a Grouper with the default classifiers and no trees, then each
   * option in turn; the first option that fails makes New fail with its
   * error.
   */
  method New(endYear: int, options: seq<Option>) returns (r: Result<Grouper>)
    ensures r.Err? <==> ApplyOptions(DefaultClassifiers(endYear), options).Err?
    ensures r.Err? ==> r.message == ApplyOptions(DefaultClassifiers(endYear), options).message
    ensures r.Ok? ==>
      && fresh(r.value) && r.value.Valid() && fresh(r.value.Repr) && r.value.trees == map[] && r.value.Forest == map[]
      && r.value.classifiers == ApplyOptions(DefaultClassifiers(endYear), options).value
  {
    var g := new Grouper(DefaultClassifiers(endYear));
    var i := 0;
    while i < |options|
      invariant 0 <= i <= |options|
      invariant g.Valid() && fresh(g.Repr) && g.trees == map[] && g.Forest == map[]
      invariant ApplyOptions(g.classifiers, options[i..]) == ApplyOptions(DefaultClassifiers(endYear), options)
    {
      assert options[i..][0] == options[i] && options[i..][1..] == options[i + 1..];
      match options[i](g.classifiers)
      case Err(e) =>
        return Err(e);
      case Ok(cs) =>
        g.classifiers := cs;
      i := i + 1;
    }
    r := Ok(g);
  }

  /** TestNew: no options give a Grouper; an option that fails makes New fail. */
  lemma NewVector(endYear: int)
    ensures ApplyOptions(DefaultClassifiers(endYear), []) == Ok(DefaultClassifiers(endYear))
    ensures ApplyOptions(DefaultClassifiers(endYear), [(cs: seq<Classifier>) => Err("test")]) == Err("test")
  {
  }
}

/**
 * The bounded case-insensitive counter kept at every trie node: a count per
 * lower-cased token, the number of adds, and a limit on distinct keys past
 * which new keys are folded into the "cardinality" key.
 */
module Counting {
  import opened Text

  /** The key that collects the adds of tokens past the limit. */
  const Overflow := "cardinality"

  /** The sum of all counts of a map. */
  ghost function Sum(m: map<string, nat>): nat
    decreases |m|
  {
    if m == map[] then 0
    else
      var k :| k in m;
      m[k] + Sum(m - {k})
  }

  /** The sum does not depend on which key is taken out first. */
  lemma {:induction false} SumRemove(m: map<string, nat>, k: string)
    requires k in m
    ensures Sum(m) == m[k] + Sum(m - {k})
    decreases |m|
  {
    var j :| j in m && Sum(m) == m[j] + Sum(m - {j});
    if j != k {
      assert (m - {j}).Keys == m.Keys - {j};
      assert (m - {k}).Keys == m.Keys - {k};
      SumRemove(m - {j}, k);
      SumRemove(m - {k}, j);
      assert m - {j} - {k} == m - {k} - {j};
    }
  }

  /** Incrementing one entry (or adding it with count 1) increments the sum. */
  lemma SumBump(m: map<string, nat>, k: string)
    ensures Sum(m[k := (if k in m then m[k] else 0) + 1]) == Sum(m) + 1
  {
    var m' := m[k := (if k in m then m[k] else 0) + 1];
    SumRemove(m', k);
    if k in m {
      SumRemove(m, k);
      assert m' - {k} == m - {k};
    } else {
      assert m' - {k} == m;
    }
  }

  /**
   * The value of a counter: `limit` on distinct keys (0 unbounded, negative
   * "remember nothing"), `total` adds, and the count of each lower-cased key.
   */
  datatype CounterValue = CounterValue(limit: int, total: int, tokenCounts: map<string, nat>)
  {
    /** No add is lost: the counts add up to the number of adds. */
    ghost predicate Valid() {
      total == Sum(tokenCounts)
    }

    /** population: the number of distinct keys, the overflow key included. */
    function Population(): nat {
      |tokenCounts|
    }

    /** get: the count of the lower-cased token, 0 when absent. */
    function Get(s: string): nat {
      var key := Lower(s);
      if key in tokenCounts then tokenCounts[key] else 0
    }

    /**
     * The key an add of `s` increments: the lower-cased token when it is
     * already counted, when the counter is unbounded or when there is room
     * for another key; the overflow key otherwise.
     */
    function KeyFor(s: string): (k: string)
      ensures k == Lower(s) || k == Overflow
      ensures Lower(s) in tokenCounts ==> k == Lower(s)
      ensures k in tokenCounts || k == Overflow || limit == 0 || Population() < limit
      ensures k != Lower(s) ==> limit != 0 && Population() >= limit
    {
      var key := Lower(s);
      if key in tokenCounts || limit == 0 || |tokenCounts| < limit then key else Overflow
    }

    /**
     * add: one more add, counted under exactly one key, which goes up by one;
     * every other key keeps its count, and no count is lost.
     */
    function Added(s: string): (r: CounterValue)
      ensures r.limit == limit && r.total == total + 1
      ensures KeyFor(s) in r.tokenCounts
      ensures r.tokenCounts[KeyFor(s)] == (if KeyFor(s) in tokenCounts then tokenCounts[KeyFor(s)] else 0) + 1
      ensures r.tokenCounts.Keys == tokenCounts.Keys + {KeyFor(s)}
      ensures forall k :: k in tokenCounts && k != KeyFor(s) ==> r.tokenCounts[k] == tokenCounts[k]
    {
      var k := KeyFor(s);
      CounterValue(limit, total + 1, tokenCounts[k := (if k in tokenCounts then tokenCounts[k] else 0) + 1])
    }

    /**
     * isSignificant, in integers: there is room under the limit (or no
     * limit), and either keys are diverse (population below 1% of the adds)
     * or this token is counted more often than there are keys.
     */
    predicate IsSignificant(s: string) {
      && total > 0
      && (|tokenCounts| < limit || limit == 0)
      && (100 * Population() < total || Get(s) > Population())
    }

    /**
     * The population bound a fixed positive limit keeps: at most `limit`
     * keys, or `limit` keys plus the overflow key.
     */
    ghost predicate Bounded() {
      Population() <= limit || (Population() == limit + 1 && Overflow in tokenCounts)
    }
  }

  /** No add is lost: an add keeps the counts summing to the number of adds. */
  lemma AddedValid(c: CounterValue, s: string)
    requires c.Valid()
    ensures c.Added(s).Valid()
  {
    SumBump(c.tokenCounts, c.KeyFor(s));
  }

  /** A counter before its first add. */
  function NewCounter(limit: int): (c: CounterValue)
    ensures c.Valid() && c.Population() == 0
  {
    CounterValue(limit, 0, map[])
  }

  /** The counter after adding each of `ss` in turn. */
  function AddAll(c: CounterValue, ss: seq<string>): CounterValue
    decreases |ss|
  {
    if ss == [] then c else AddAll(c.Added(ss[0]), ss[1..])
  }

  /** Adding both spellings of a token counts them under one key. */
  lemma CaseInsensitive(c: CounterValue, s: string)
    requires Lower(s) in c.tokenCounts
    ensures c.Added(s).Get(s) == c.Get(s) + 1
    ensures forall t :: Lower(t) == Lower(s) ==> c.Added(t).Get(s) == c.Get(s) + 1
  {
  }

  /** With a fixed positive limit the population never exceeds limit + 1, the extra key being the overflow key. */
  lemma AddKeepsBound(c: CounterValue, s: string)
    requires c.limit >= 1 && c.Bounded()
    ensures c.Added(s).Bounded()
  {
    var k := c.KeyFor(s);
    if k in c.tokenCounts {
      assert c.Added(s).tokenCounts.Keys == c.tokenCounts.Keys;
    } else {
      assert c.Added(s).tokenCounts.Keys == c.tokenCounts.Keys + {k};
      assert |c.Added(s).tokenCounts.Keys| == |c.tokenCounts.Keys| + 1;
    }
  }

  /**
   * Any sequence of adds to a fresh counter with limit L >= 1 keeps at most
   * L + 1 keys, counts every add, and loses no count.
   */
  lemma {:induction false} AddAllBounded(c: CounterValue, ss: seq<string>)
    requires c.limit >= 1 && c.Bounded() && c.Valid()
    ensures AddAll(c, ss).Bounded() && AddAll(c, ss).Valid()
    ensures AddAll(c, ss).total == c.total + |ss|
    ensures AddAll(c, ss).limit == c.limit
    decreases |ss|
  {
    if ss != [] {
      AddKeepsBound(c, ss[0]);
      AddedValid(c, ss[0]);
      AddAllBounded(c.Added(ss[0]), ss[1..]);
    }
  }

  /** AddAll keeps the limit and counts every add. */
  lemma {:induction false} AddAllTotal(c: CounterValue, ss: seq<string>)
    ensures AddAll(c, ss).limit == c.limit && AddAll(c, ss).total == c.total + |ss|
    decreases |ss|
  {
    if ss != [] {
      AddAllTotal(c.Added(ss[0]), ss[1..]);
    }
  }

  /** A counter with a negative limit counts an add of any token under the overflow key. */
  lemma NegativeLimitOverflows(c: CounterValue, s: string)
    requires c.limit < 0 && c.tokenCounts.Keys <= {Overflow}
    ensures c.KeyFor(s) == Overflow
    ensures c.Added(s).tokenCounts.Keys == {Overflow}
  {
    if Lower(s) in c.tokenCounts {
      assert Lower(s) == Overflow;
    }
  }

  /**
   * A counter created with limit -1 ("remember nothing") counts every add
   * under the overflow key and never finds a token significant.
   */
  lemma {:induction false} NothingKept(c: CounterValue, ss: seq<string>, s: string)
    requires c.limit < 0 && c.tokenCounts.Keys <= {Overflow}
    ensures AddAll(c, ss).tokenCounts.Keys <= {Overflow}
    ensures ss != [] ==> AddAll(c, ss).tokenCounts.Keys == {Overflow}
    ensures !AddAll(c, ss).IsSignificant(s)
    decreases |ss|
  {
    AddAllTotal(c, ss);
    if ss != [] {
      NegativeLimitOverflows(c, ss[0]);
      NothingKept(c.Added(ss[0]), ss[1..], s);
    }
  }

  /**
   * Once the population has reached a non-zero limit, no token is
   * significant any more.
   */
  lemma FullCounterNothingSignificant(c: CounterValue, s: string)
    requires c.limit != 0 && c.Population() >= c.limit
    ensures !c.IsSignificant(s)
  {
  }

  lemma MulLess(a: real, b: real, y: real)
    requires y > 0.0 && a < b
    ensures a * y < b * y
  {
    assert (b - a) * y > 0.0;
  }

  /** For a positive divisor, x / y < c exactly when x < c * y. */
  lemma DivLess(x: real, y: real, c: real)
    requires y > 0.0
    ensures x / y < c <==> x < c * y
  {
    var q := x / y;
    assert q * y == x;
    if q < c {
      MulLess(q, c, y);
    } else if c < q {
      MulLess(c, q, y);
    }
  }

  lemma RatioBelowOnePercent(p: nat, t: int)
    requires t > 0
    ensures (p as real) / (t as real) < 0.01 <==> 100 * p < t
  {
    DivLess(p as real, t as real, 0.01);
    assert (100 * p) as real == 100.0 * (p as real);
  }

  lemma RatioCompare(g: nat, p: nat, t: int)
    requires t > 0
    ensures (g as real) / (t as real) > (p as real) / (t as real) <==> g > p
  {
    var a := (g as real) / (t as real);
    assert a * (t as real) == g as real;
    DivLess(p as real, t as real, a);
  }

  /**
   * The source computes significance on float64 ratios; over exact ratios
   * of counts it is the integer test. A counter with no adds divides 0 by
   * 0, and every comparison with NaN is false.
   */
  lemma SignificanceIsRatioTest(c: CounterValue, s: string)
    requires c.total >= 0
    ensures c.IsSignificant(s) <==>
      && c.total > 0
      && (c.Population() < c.limit || c.limit == 0)
      && ((c.Population() as real) / (c.total as real) < 0.01
          || (c.Get(s) as real) / (c.total as real) > (c.Population() as real) / (c.total as real))
  {
    if c.total > 0 {
      RatioBelowOnePercent(c.Population(), c.total);
      RatioCompare(c.Get(s), c.Population(), c.total);
    }
  }

  /** A string without upper-case ASCII letters is its own lower-cased form. */
  lemma LowerFixed(s: string)
    requires forall i :: 0 <= i < |s| ==> !('A' <= s[i] <= 'Z')
    ensures Lower(s) == s
  {
  }

  /** The overflow key is already in lower case. */
  lemma LowerOverflow()
    ensures Lower(Overflow) == Overflow
  {
    LowerFixed("cardinality");
  }

  /** An add of a token whose key is already counted bumps that key. */
  lemma AddedCounted(c: CounterValue, s: string, key: string)
    requires Lower(s) == key && key in c.tokenCounts
    ensures c.Added(s) == CounterValue(c.limit, c.total + 1, c.tokenCounts[key := c.tokenCounts[key] + 1])
  {
  }

  /** An add of a new token with room under the limit adds its key with count 1. */
  lemma AddedNew(c: CounterValue, s: string, key: string)
    requires Lower(s) == key && key !in c.tokenCounts && (c.limit == 0 || c.Population() < c.limit)
    ensures c.Added(s) == CounterValue(c.limit, c.total + 1, c.tokenCounts[key := 1])
  {
  }

  /** The adds of the source's counter test, one lemma per add. */
  lemma VectorStep1()
    ensures NewCounter(3).Added("test") == CounterValue(3, 1, map["test" := 1])
  {
    LowerFixed("test");
    AddedNew(NewCounter(3), "test", "test");
  }

  lemma VectorStep2()
    ensures CounterValue(3, 1, map["test" := 1]).Added("Test") == CounterValue(3, 2, map["test" := 2])
  {
    assert Lower("Test") == "test";
    var m := map["test" := 1];
    assert m["test" := m["test"] + 1] == map["test" := 2];
    AddedCounted(CounterValue(3, 1, m), "Test", "test");
  }

  lemma VectorStep3()
    ensures CounterValue(3, 2, map["test" := 2]).Added("test1") == CounterValue(3, 3, map["test" := 2, "test1" := 1])
  {
    LowerFixed("test1");
    AddedNew(CounterValue(3, 2, map["test" := 2]), "test1", "test1");
  }

  lemma VectorStep4()
    ensures CounterValue(3, 3, map["test" := 2, "test1" := 1]).Added("test1") == CounterValue(3, 4, map["test" := 2, "test1" := 2])
  {
    LowerFixed("test1");
    var m := map["test" := 2, "test1" := 1];
    assert m["test1" := m["test1"] + 1] == map["test" := 2, "test1" := 2];
    AddedCounted(CounterValue(3, 3, m), "test1", "test1");
  }

  lemma VectorStep5()
    ensures CounterValue(3, 4, map["test" := 2, "test1" := 2]).Added("test1") == CounterValue(3, 5, map["test" := 2, "test1" := 3])
  {
    LowerFixed("test1");
    var m := map["test" := 2, "test1" := 2];
    assert m["test1" := m["test1"] + 1] == map["test" := 2, "test1" := 3];
    AddedCounted(CounterValue(3, 4, m), "test1", "test1");
  }

  lemma VectorStep6()
    ensures CounterValue(3, 5, map["test" := 2, "test1" := 3]).Added("test3") == CounterValue(3, 6, map["test" := 2, "test1" := 3, "test3" := 1])
  {
    LowerFixed("test3");
    var c := CounterValue(3, 5, map["test" := 2, "test1" := 3]);
    assert c.tokenCounts.Keys == {"test", "test1"};
    AddedNew(c, "test3", "test3");
  }

  /** The counter the first six adds of the source's counter test leave. */
  const TestCounter := CounterValue(3, 6, map["test" := 2, "test1" := 3, "test3" := 1])

  lemma TestCounterFacts()
    ensures TestCounter.Get("test") == 2 && TestCounter.Population() == 3
    ensures TestCounter.tokenCounts.Keys == {"test", "test1", "test3"}
  {
    LowerFixed("test");
    assert TestCounter.tokenCounts.Keys == {"test", "test1", "test3"};
  }

  /** The counter test of the source, first part: case folding and counting under the limit. */
  lemma CounterTestVector()
    ensures var c := NewCounter(3).Added("test").Added("Test").Added("test1").Added("test1").Added("test1").Added("test3");
      && c == TestCounter && c.Get("test") == 2 && c.Population() == 3
  {
    VectorStep1();
    VectorStep2();
    VectorStep3();
    VectorStep4();
    VectorStep5();
    VectorStep6();
    TestCounterFacts();
  }

  /** An add of a new token past a full, bounded counter goes to the overflow key. */
  lemma AddedPastLimit(c: CounterValue, s: string)
    requires Lower(s) !in c.tokenCounts && c.limit != 0 && c.Population() >= c.limit
    ensures c.Added(s) == CounterValue(c.limit, c.total + 1, c.tokenCounts[Overflow := (if Overflow in c.tokenCounts then c.tokenCounts[Overflow] else 0) + 1])
  {
    assert c.KeyFor(s) == Overflow;
  }

  lemma OverflowStep1()
    ensures TestCounter.Added("test4") == CounterValue(3, 7, TestCounter.tokenCounts[Overflow := 1])
  {
    LowerFixed("test4");
    TestCounterFacts();
    assert Overflow !in TestCounter.tokenCounts;
    AddedPastLimit(TestCounter, "test4");
  }

  lemma OverflowStep2()
    ensures CounterValue(3, 7, TestCounter.tokenCounts[Overflow := 1]).Added("test5") == CounterValue(3, 8, TestCounter.tokenCounts[Overflow := 2])
  {
    var c1 := CounterValue(3, 7, TestCounter.tokenCounts[Overflow := 1]);
    LowerFixed("test5");
    TestCounterFacts();
    assert c1.tokenCounts.Keys == {"test", "test1", "test3", Overflow};
    assert |c1.tokenCounts.Keys| == 4;
    AddedPastLimit(c1, "test5");
    assert c1.tokenCounts[Overflow := 2] == TestCounter.tokenCounts[Overflow := 2];
  }

  /** The counter the two adds past the limit leave. */
  const OverflowCounter := CounterValue(3, 8, map["test" := 2, "test1" := 3, "test3" := 1, Overflow := 2])

  lemma OverflowCounterKeys()
    ensures TestCounter.tokenCounts[Overflow := 2] == OverflowCounter.tokenCounts
    ensures OverflowCounter.tokenCounts.Keys == {"test", "test1", "test3", Overflow}
    ensures OverflowCounter.Population() == 4
  {
    assert |{"test", "test1", "test3", Overflow}| == 4;
  }

  lemma OverflowCounterFacts()
    ensures OverflowCounter.Population() == 4
    ensures OverflowCounter.Get("test4") == 0 && OverflowCounter.Get(Overflow) == 2
  {
    assert OverflowCounter.Get("test4") == 0 by {
      OverflowCounterKeys();
      LowerFixed("test4");
    }
    assert OverflowCounter.Get(Overflow) == 2 by {
      LowerOverflow();
    }
    OverflowCounterKeys();
  }

  /** The counter test of the source, second part: keys past the limit go to the overflow key. */
  lemma CounterOverflowVector()
    ensures var c := TestCounter.Added("test4").Added("test5");
      && c.Population() == 4 && c.Get("test4") == 0 && c.Get(Overflow) == 2
  {
    OverflowStep1();
    OverflowStep2();
    OverflowCounterKeys();
    OverflowCounterFacts();
  }

  /** A mutable counter: the object each trie node updates in place. */
  class Counter {
    var limit: int
    var total: int
    var tokenCounts: map<string, nat>

    /** The counter's current value. */
    function Value(): CounterValue
      reads this
    {
      CounterValue(limit, total, tokenCounts)
    }

    /** newCaseInsensitiveStringCounter */
    constructor (limit: int)
      ensures Value() == NewCounter(limit)
    {
      this.limit := limit;
      total := 0;
      tokenCounts := map[];
    }

    /** add: counts `s` under its lower-cased key, or under the overflow key past the limit. */
    method Add(s: string)
      modifies this
      ensures Value() == old(Value()).Added(s)
    {
      var key := Lower(s);
      if key in tokenCounts || limit == 0 || |tokenCounts| < limit {
        tokenCounts := tokenCounts[key := (if key in tokenCounts then tokenCounts[key] else 0) + 1];
      } else {
        tokenCounts := tokenCounts[Overflow := (if Overflow in tokenCounts then tokenCounts[Overflow] else 0) + 1];
      }
      total := total + 1;
    }

    /**
     * topN: min(n, population) distinct keys with the highest counts, in
     * non-increasing count order (keys with equal counts in any order).
     */
    method TopN(n: nat) returns (top: seq<string>)
      ensures IsTopN(tokenCounts, n, top)
    {
      // The keys, in the map's iteration order, which is unspecified.
      var entries: seq<string> := [];
      var rest := tokenCounts.Keys;
      while rest != {}
        invariant rest <= tokenCounts.Keys
        invariant forall i :: 0 <= i < |entries| ==> entries[i] in tokenCounts && entries[i] !in rest
        invariant forall k :: k in tokenCounts ==> k in rest || k in entries
        invariant forall i, j :: 0 <= i < j < |entries| ==> entries[i] != entries[j]
        invariant |entries| + |rest| == |tokenCounts.Keys|
        decreases |rest|
      {
        var k :| k in rest;
        entries := entries + [k];
        rest := rest - {k};
      }
      var sorted := SortByCount(entries, tokenCounts);
      var count := if |sorted| < n then |sorted| else n;
      top := sorted[..count];
      forall k, i | k in tokenCounts && k !in top && 0 <= i < |top|
        ensures tokenCounts[k] <= tokenCounts[top[i]]
      {
        forall j | 0 <= j < count ensures sorted[j] != k {
          assert sorted[j] == top[j];
        }
        var j :| 0 <= j < |sorted| && sorted[j] == k;
      }
    }
  }

  /**
   * `top` is an answer of topN(n) for `counts`: min(n, population) distinct
   * keys, in non-increasing count order, and no key left out is counted more
   * often than one taken.
   */
  predicate IsTopN(counts: map<string, nat>, n: nat, top: seq<string>) {
    && |top| == (if |counts| < n then |counts| else n)
    && (forall i :: 0 <= i < |top| ==> top[i] in counts)
    && (forall i, j :: 0 <= i < j < |top| ==> top[i] != top[j])
    && (forall i, j :: 0 <= i < j < |top| ==> counts[top[i]] >= counts[top[j]])
    && (forall k, i :: k in counts && k !in top && 0 <= i < |top| ==> counts[k] <= counts[top[i]])
  }

  /** The source's counter test: topN(2) of the test counter is ["test1", "test"], whatever the map order. */
  lemma TopNTestVector(top: seq<string>)
    requires IsTopN(TestCounter.tokenCounts, 2, top)
    ensures top == ["test1", "test"]
  {
    var m := TestCounter.tokenCounts;
    TestCounterFacts();
    assert |top| == 2;
    assert top[0] in m && top[1] in m && top[0] != top[1];
    var first, second := m[top[0]], m[top[1]];
    // A key left out is counted at most as often as each key taken.
    assert "test1" !in top ==> 3 <= first && 3 <= second;
    assert "test1" in top;
    assert "test" !in top ==> 2 <= first && 2 <= second;
    assert "test" in top;
    assert first >= second;
    assert top[0] == "test1" && top[1] == "test";
  }

  /**
   * Sorts distinct keys by non-increasing count (sort.Slice in the source;
   * the order of equal counts is unspecified).
   */
  method SortByCount(entries: seq<string>, counts: map<string, nat>) returns (sorted: seq<string>)
    requires forall i :: 0 <= i < |entries| ==> entries[i] in counts
    requires forall i, j :: 0 <= i < j < |entries| ==> entries[i] != entries[j]
    ensures |sorted| == |entries|
    ensures forall k :: k in sorted <==> k in entries
    ensures forall i, j :: 0 <= i < j < |sorted| ==> sorted[i] != sorted[j]
    ensures forall i :: 0 <= i < |sorted| ==> sorted[i] in counts
    ensures forall i, j :: 0 <= i < j < |sorted| ==> counts[sorted[i]] >= counts[sorted[j]]
  {
    sorted := [];
    var n := 0;
    while n < |entries|
      invariant 0 <= n <= |entries|
      invariant |sorted| == n
      invariant forall k :: k in sorted <==> k in entries[..n]
      invariant forall i, j :: 0 <= i < j < |sorted| ==> sorted[i] != sorted[j]
      invariant forall i :: 0 <= i < |sorted| ==> sorted[i] in counts
      invariant forall i, j :: 0 <= i < j < |sorted| ==> counts[sorted[i]] >= counts[sorted[j]]
    {
      var e := entries[n];
      forall i | 0 <= i < |sorted| ensures sorted[i] != e {
        assert sorted[i] in entries[..n];
        var j :| 0 <= j < n && entries[..n][j] == sorted[i];
        assert entries[j] == sorted[i];
      }
      sorted := InsertByCount(sorted, e, counts);
      assert entries[..n + 1] == entries[..n] + [e];
      n := n + 1;
    }
    assert entries[..n] == entries;
  }

  /** Puts `e` into `sorted` after every key whose count is at least its own. */
  method InsertByCount(sorted: seq<string>, e: string, counts: map<string, nat>) returns (r: seq<string>)
    requires e in counts && forall i :: 0 <= i < |sorted| ==> sorted[i] in counts && sorted[i] != e
    requires forall i, j :: 0 <= i < j < |sorted| ==> sorted[i] != sorted[j]
    requires forall i, j :: 0 <= i < j < |sorted| ==> counts[sorted[i]] >= counts[sorted[j]]
    ensures |r| == |sorted| + 1
    ensures forall k :: k in r <==> k in sorted || k == e
    ensures forall i, j :: 0 <= i < j < |r| ==> r[i] != r[j]
    ensures forall i :: 0 <= i < |r| ==> r[i] in counts
    ensures forall i, j :: 0 <= i < j < |r| ==> counts[r[i]] >= counts[r[j]]
  {
    var p := 0;
    while p < |sorted| && counts[sorted[p]] >= counts[e]
      invariant 0 <= p <= |sorted|
      invariant forall i :: 0 <= i < p ==> counts[sorted[i]] >= counts[e]
    {
      p := p + 1;
    }
    r := sorted[..p] + [e] + sorted[p..];
  }
}

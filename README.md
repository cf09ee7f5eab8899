# groupurl in Dafny

groupurl groups URL paths into patterns such as `/posts/Number/Words`.

- **Classifier chain.** A chain of classifiers labels the leading segment(s) of a path. Dates span three segments; years, numbers, words, letters and alphanumeric runs span one. The tokenizer cuts a path into labelled tokens.
- **Grouper.** The Grouper keeps one trie per *tree key*: the number of '/' left after trimming leading and trailing '/'.
- **Trie.** Each trie edge is keyed by a token's `parentOrSelf` label. Each node holds a label and a bounded, case-insensitive counter of the raw tokens that reached it.
- **Add** walks the edge chain of the path's tokens. It creates missing nodes, promotes a node to its edge's parent label when a token with a different label reaches it, and counts the token.
- **SimplifyPath** walks the same chain. A token stays raw where its node's label is important and the token is significant there. Otherwise it becomes the node's label value. From the first missing edge on, the tokens stay raw.

The model is split into one module per concern:

| module | file | what it holds |
|---|---|---|
| `Text` | text.dfy | ASCII lower-casing, '/' trimming and counting, joining, decimal values |
| `Labels` | labels.dfy | `LabelFields`, `Label`, `PathToken` |
| `Patterns` | patterns.dfy | the six anchored expressions as predicates on the leading segment |
| `Classifiers` | classifiers.dfy | the regex, year and nested classifiers; the default chain; `labelPathToken` and the tokenizer loop |
| `Counting` | counter.dfy | the counter as a value (`CounterValue`) and as an object updated in place (`Counter`), with `topN` |
| `Trie` | trie.dfy | the trie as a value keyed by edge-key paths: `add` as `AddTokens`, `path` as `Replaced`, and their laws |
| `UrlTree` | tree.dfy | heap nodes and trees (`Node`, `Tree`); the iterative `add` and `path` are proved equal to the `Trie` functions |
| `Grouping` | grouper.dfy | the tree key, the Grouper class (a map from key to tree), `New` and its options |

The heap trie carries a ghost map from edge-key paths to nodes. `Tree.Valid` ties every node to the value trie. So every method on the heap is stated as "the new value is `AddTokens` of the old one", and the laws are proved once about the value.

## Model

| member | source | states |
|---|---|---|
| Text.Lower | groupurl.go:98 | lower-casing keeps the length and lower-cases each character on its own (ASCII letters only) |
| Text.TrimLeftSlashes | groupurl.go:75 | the result is a suffix of the input, every removed character is '/', and the result does not start with '/' |
| Text.TrimRightSlashes | classifier.go:235 | the result is a prefix of the input, every removed character is '/', and the result does not end with '/' |
| Text.RemoveSlashesTrimRight | classifier.go:235 | trimming trailing '/' loses no segment character |
| Labels.LabelFields.CounterLimit | classifier.go:196-201 | the limit is -1 or the raw `CardinalityLimit`; it is the raw limit exactly when that limit is non-zero or the label is important |
| Labels.Label.ParentOrSelf | classifier.go:208-213 | the edge key is unnamed exactly when both the parent and the label's own fields are unnamed |
| Labels.Label.IsZero | classifier.go:215-217 | a label is zero exactly when its value is empty; Classifiers.Check proves every non-zero label comes with a non-empty match |
| Labels.ParentOrSelfNamed | classifier.go:208-213 | the edge key is the parent when the parent's value is non-empty and the label's own fields otherwise; it is unnamed only when both are |
| Labels.Texts | groupurl.go:209-211 | one raw token per token, in order |
| Patterns.SegmentEnd | classifier.go:11-16 | the leading segment ends at the first '/' or at the end of the text |
| Patterns.SegmentMatch | classifier.go:11-16 | a whole-segment match is a prefix: the leading segment, plus the '/' after it when one follows |
| Patterns.Find | classifier.go:39 | `FindString` of an anchored pattern is a prefix of the text that is empty, the whole text, or ends with '/' |
| Patterns.FindSegment | classifier.go:12-16 | a one-segment pattern matches exactly when it accepts the leading segment, and then consumes that segment and the '/' after it |
| Patterns.DateShape | classifier.go:13 | the date pattern matches exactly 4 digits, '/', a month 1..12, '/', a day 1..31, then '/' or the end; it consumes those ten characters and that '/' |
| Patterns.MonthRange | classifier.go:13 | the month alternatives accept exactly the two-digit values 01 to 12 |
| Patterns.DayRange | classifier.go:13 | the day alternatives accept exactly the two-digit values 01 to 31 |
| Patterns.WordsRunIsRegex | classifier.go:12 | the hand-written Words predicate accepts exactly the language of `([a-zA-Z0-9]+-?){1,}` |
| Patterns.LettersAreWords | classifier.go:12-16 | every all-letter segment is a Words segment and an AlphaNumeric segment |
| Patterns.NumbersAreWords | classifier.go:12-16 | every all-digit segment is a Words segment and an AlphaNumeric segment |
| Patterns.WordsAreAlphaNumeric | classifier.go:12-16 | every Words segment is an AlphaNumeric segment |
| Classifiers.Check | classifier.go:38-100 | every classifier's match is a prefix of its input, and a non-zero label comes with a non-empty match |
| Classifiers.FirstChild | classifier.go:89-99 | the label the nested loop yields is never zero |
| Classifiers.FirstChildIsFirstMatch | classifier.go:89-97 | the nested label takes its fields from the first child that accepts the parent's match, with the parent's fields as parent |
| Classifiers.FirstChildNoMatch | classifier.go:99 | when no child accepts the parent's match, the parent's label is returned unchanged |
| Classifiers.NestedCheck | classifier.go:83-100 | zero label and "" when the parent fails; otherwise exactly the parent's match, labelled by the first accepting child under the parent or by the parent's own label |
| Classifiers.YearCheck | classifier.go:53-71 | matches exactly when four leading digits are followed by '/' or the end and their value is in [Start, End]; then the label is "YYYY", not important, and the match is the digits and that '/'; otherwise zero label and "" |
| Classifiers.LeadingYear | classifier.go:11 | the leading segment is four digits exactly when the first four characters are digits followed by '/' or the end |
| Classifiers.YYYYMMDDClassifier | classifier.go:103-113 | the date expression with the label YYYY/MM/DD, not important; DateShape and DateHasNoCalendarCheck state what it accepts and consumes |
| Classifiers.AlphaNumericClassifier | classifier.go:116-126 | the AlphaNumeric expression with the label AlphaNumeric, important, no limit; NestedDefault states what it consumes |
| Classifiers.NumberClassifier | classifier.go:129-139 | the Numbers expression with the label Number, not important; NumberSegmentIsNumber states when it decides the label |
| Classifiers.WordsClassifier | classifier.go:142-153 | the Words expression with the label Words, important, limit 50; WordsRunIsRegex states its language and LetterSegmentIsWords when it decides the label |
| Classifiers.LettersClassifier | classifier.go:156-166 | the Letters expression with the label Letters, important; DefaultLabelValues proves it never decides a label in the default chain |
| Classifiers.DefaultClassifiers | classifier.go:168-184 | date, then year from 1900 to the end year, then the nested AlphaNumeric classifier; DefaultLabelValues and DefaultSegmentLabel state the labels it yields |
| Classifiers.DefaultNested | classifier.go:175-182 | AlphaNumeric refined by Number, Words and Letters, in that order; AlphaNumericLabelValues and NestedDefault state its labels and match |
| Classifiers.DateHasNoCalendarCheck | classifier.go:103-113 | 2013/02/31 is a date (no per-month day check), any four digits are a year, and a following '/' is consumed; the label is "YYYY/MM/DD", not important |
| Classifiers.LabelPathToken | classifier.go:256-268 | the label returned is never zero |
| Classifiers.LabelPathTokenIsFirstMatch | classifier.go:257-261 | the result is the label and match of the first classifier, in list order, whose label is not zero |
| Classifiers.LabelPathTokenNoMatch | classifier.go:262-267 | with no classifier matching, the label is Unknown (not important) and the match is the entire remainder |
| Classifiers.MatchIsPrefix | classifier.go:232-249 | for any list of built-in classifiers, the match of a non-empty remainder is a non-empty prefix of it: the fallback branch never runs and the loop always progresses |
| Classifiers.Tokens | classifier.go:224-254 | the token list of a path; LabelPathTokens is proved to compute it, and TokensWellFormed and TokensCoverPath state its properties |
| Classifiers.LabelPathTokens | classifier.go:224-254 | the loop (skip '/', label, emit the trimmed match, continue after it) builds exactly the token list `Tokens` |
| Classifiers.TokensWellFormed | classifier.go:233-238 | every token is non-empty and neither starts nor ends with '/' |
| Classifiers.TokensCoverPath | classifier.go:224-254 | the tokens, written one after the other, hold every non-'/' character of the path in order |
| Classifiers.DefaultLabelValues | classifier.go:168-184 | the default chain only yields the values YYYY/MM/DD, YYYY, AlphaNumeric, Number, Words and Unknown; Letters never comes out |
| Classifiers.AlphaNumericLabelValues | classifier.go:175-182 | the nested default classifier yields only AlphaNumeric, Number or Words |
| Classifiers.DefaultSegmentLabel | classifier.go:168-184 | a leading segment that AlphaNumeric accepts and that is not four digits is matched as one segment under the AlphaNumeric edge: Number if digits, else Words if a Words run, else AlphaNumeric |
| Classifiers.NotDateNorYear | classifier.go:170-174 | neither the date nor the year classifier matches a leading segment that is not four digits |
| Classifiers.NestedDefault | classifier.go:175-182 | the AlphaNumeric parent refined by Number, Words and Letters, in that order, on an accepted segment |
| Classifiers.LetterSegmentIsWords | classifier.go:177-181 | an all-letter segment is labelled Words under AlphaNumeric |
| Classifiers.NumberSegmentIsNumber | classifier.go:177-181 | a digit segment that is not four long is labelled Number under AlphaNumeric |
| Counting.CounterValue.KeyFor | groupurl.go:98-103 | an add counts under the lower-cased token or under "cardinality", never anything else; a token already counted keeps its own key; a new key other than "cardinality" is opened only when the counter is unbounded or below its limit; "cardinality" is used only when the counter is bounded and full |
| Counting.CounterValue.Population | groupurl.go:107-109 | the number of distinct keys, "cardinality" included; AddKeepsBound and AddAllBounded prove it never exceeds a positive limit plus that key |
| Counting.CounterValue.Get | groupurl.go:111-113 | the count of the lower-cased token, 0 when absent; CaseInsensitive proves any spelling of a counted token raises it by one, and the counter test vectors fix its values |
| Counting.CounterValue.IsSignificant | groupurl.go:115-120 | SignificanceIsRatioTest proves it equal to the source's ratio test; FullCounterNothingSignificant and NothingKept state when it is false |
| Counting.CounterValue.Added | groupurl.go:97-105 | `total` grows by exactly 1, exactly one key grows by 1, every other key keeps its count, the limit is kept |
| Counting.AddedValid | groupurl.go:97-105 | the counts keep summing to `total` |
| Counting.NewCounter | groupurl.go:90-95 | a new counter sums to its total and has no keys |
| Counting.CaseInsensitive | groupurl.go:97-113 | adding any spelling of a present token raises `get` of it by one |
| Counting.AddKeepsBound | groupurl.go:99-103 | with a limit L >= 1 the population stays at most L, or L plus the "cardinality" key |
| Counting.AddAllBounded | groupurl.go:97-105 | any sequence of adds keeps that bound, counts every add and loses no count |
| Counting.AddAllTotal | groupurl.go:104 | a sequence of adds keeps the limit and raises `total` by its length |
| Counting.NegativeLimitOverflows | groupurl.go:99-103 | with a negative limit every add lands in "cardinality" |
| Counting.NothingKept | groupurl.go:97-120 | a counter with a negative limit (what `cardinalityLimit()` gives an unimportant, unlimited label) keeps no key but "cardinality" through any adds and never finds a token significant |
| Counting.FullCounterNothingSignificant | groupurl.go:118 | once the population reaches a non-zero limit no token is significant |
| Counting.SignificanceIsRatioTest | groupurl.go:115-120 | the integer test is exactly the ratio test over exact reals: false with no adds; otherwise room under the limit and (population/total < 0.01 or get/total > population/total) |
| Counting.AddedCounted | groupurl.go:99-100 | an add of a present token bumps its key |
| Counting.AddedNew | groupurl.go:99-100 | an add of a new token with room adds its key with count 1 |
| Counting.AddedPastLimit | groupurl.go:101-102 | an add of a new token past a full counter bumps "cardinality" |
| Counting.CounterTestVector | groupurl_test.go:104-120 | add("test"), add("Test"), 3 x add("test1"), add("test3") under limit 3 give get("test") == 2 and population 3 |
| Counting.CounterOverflowVector | groupurl_test.go:133-145 | then add("test4"), add("test5") give population 4, get("test4") == 0 and get("cardinality") == 2 |
| Counting.TopNTestVector | groupurl_test.go:122-131 | every answer topN(2) may give on the test counter is ["test1", "test"] |
| Counting.Counter.constructor | groupurl.go:90-95 | the new counter's value is `NewCounter(limit)` |
| Counting.Counter.Add | groupurl.go:97-105 | the counter's new value is the old value's `Added(s)` |
| Counting.Counter.TopN | groupurl.go:122-147 | min(n, population) distinct present keys, in non-increasing count order, none left out counted more than one taken |
| Counting.SortByCount | groupurl.go:135-137 | the keys, distinct, the same set, in non-increasing count order |
| Counting.InsertByCount | groupurl.go:135-137 | insertion keeps the keys distinct and in non-increasing count order, adding exactly `e` |
| Trie.NewNodeView | groupurl.go:230-236 | a new node has the token's fields as label and a counter with no adds, limited by `cardinalityLimit()` of those fields |
| Trie.Reached | groupurl.go:183-195 | the reached node's label value is the token's, or its label is the edge key |
| Trie.Visited | groupurl.go:183-197 | the reached node's total grows by exactly one |
| Trie.Visit | groupurl.go:181-199 | one step adds at most the reached node and changes no other node |
| Trie.AddPrefixKeys | groupurl.go:179-200 | after an add the nodes are the old ones plus the token chain, so at most one new node per token |
| Trie.AddPrefixCounts | groupurl.go:179-200 | each node on the chain has its total raised by exactly one; every other total is unchanged |
| Trie.AddPrefixOffChain | groupurl.go:179-200 | every node off the chain is unchanged |
| Trie.AddPrefixHealthy | groupurl.go:179-200 | an add keeps every node reachable and every counter summing to its total, and the chain's last node is present |
| Trie.ExtendClosed | groupurl.go:184-187 | hanging a node under an existing one keeps every node reachable |
| Trie.VisitHealthy | groupurl.go:181-198 | one step keeps every node reachable and every counter consistent |
| Trie.VisitLabel | groupurl.go:183-197 | a new node takes the token's fields; a node whose label value differs takes the edge key and its raw `CardinalityLimit` as limit, keeping its counts; otherwise the label stays |
| Trie.PromotionSticks | groupurl.go:192-195 | a node that took its edge key as label keeps it on every later visit |
| Trie.AddPrefix | groupurl.go:179-200 | the trie after add has handled the first n tokens; AddPrefixKeys, AddPrefixCounts, AddPrefixOffChain and AddPrefixHealthy state what changes and what is kept |
| Trie.AddTokens | groupurl.go:179-200 | add on the trie value; AddTokensHealthy, ChainPresent and AddedPathIsKnown state its laws, and Tree.Add is proved to compute it |
| Trie.EmptyTrie | groupurl.go:153-157 | the root alone, labelled with the zero fields and counting with limit -1; EmptyTrieHealthy and ReplacedEmpty state its laws |
| Trie.Emit | groupurl.go:213-217 | a token comes out raw or as the node's label value, and as the label value whenever the label is not important |
| Trie.Replaced | groupurl.go:202-222 | `path` gives exactly one string per token |
| Trie.ReplacedAt | groupurl.go:205-220 | in a trie whose nodes are all reachable, token i is emitted by the node its edge chain names when that node exists, and comes out raw otherwise |
| Trie.ReplacedEmpty | groupurl.go:202-222 | a fresh trie echoes the raw tokens |
| Trie.ChainPresent | groupurl.go:179-200 | after an add every node of the token chain exists |
| Trie.AddTokensHealthy | groupurl.go:179-200 | `add` keeps every node reachable and every counter consistent |
| Trie.AddedPathIsKnown | groupurl.go:179-222 | right after an add, simplifying the same tokens emits each at its own chain node, never raw for a missing edge |
| UrlTree.Node.constructor | groupurl.go:230-236 | the node's value is `NewNodeView(f)`, with no children |
| UrlTree.Node.Take | groupurl.go:192-197 | promotion and counting at a node give the value `Visited` says |
| UrlTree.Tree.constructor | groupurl.go:153-157 | a new tree is valid and its value is the one-root trie |
| UrlTree.Tree.Child | groupurl.go:182-187 | returns the child along the token's edge, creating it with the token's fields when missing |
| UrlTree.Tree.Grow | groupurl.go:185-186 | inserts one fresh node under the missing edge and nothing else |
| UrlTree.Tree.Count | groupurl.go:192-197 | updates the child as `Visited` says; the rest of the trie is unchanged |
| UrlTree.Tree.Step | groupurl.go:182-198 | one loop iteration of `add` is `Visit` on the value |
| UrlTree.Tree.Walk | groupurl.go:179-200 | the loop of `add` turns the trie value into `AddTokens` of the old one, with the heap kept linked |
| UrlTree.Tree.Add | groupurl.go:179-200 | `add` keeps the tree valid and its value becomes `AddTokens` of the old one |
| UrlTree.Tree.Path | groupurl.go:202-222 | `path` changes nothing and returns `Replaced` of the trie value |
| Grouping.TreeKey | groupurl.go:75 | the number of '/' left after trimming leading and trailing '/'; TreeKeyOuterSlashes, TreeKeyZero and TreeKeyEmptySegment state its values |
| Grouping.TreeKeyOuterSlashes | groupurl.go:75 | a '/' added before or after a path does not change its tree key |
| Grouping.TreeKeyZero | groupurl.go:75 | "", "/", a segment and "/" plus a segment all have key 0 |
| Grouping.TreeKeyEmptySegment | groupurl.go:75 | "/a//b" has key 2: the key counts separators, not segments |
| Grouping.Planted | groupurl.go:74-82 | getTree keeps the known trees and plants an empty trie at a new key |
| Grouping.TreeOf | groupurl.go:76-81 | the trie at a key, or the empty trie getTree would plant there; Planted proves getTree leaves exactly it at the key |
| Grouping.Trained | groupurl.go:52-56 | Add changes only the trie at the path's key, which afterwards exists |
| Grouping.EmptyTrieHealthy | groupurl.go:153-157 | the empty tree is reachable and consistent |
| Grouping.TrainedHealthy | groupurl.go:52-56 | Add keeps every tree of the forest reachable and consistent |
| Grouping.TrainedPathIsKnown | groupurl.go:52-65 | right after Add, simplifying the same tokens follows their whole edge chain |
| Grouping.Simplified | groupurl.go:60-65 | SimplifyPath on the forest value; Grouper.SimplifyPath is proved to return it, and SimplifyUnseenEchoes, SimplifyUnseenKeepsText and TrainedPathIsKnown state what it gives |
| Grouping.SimplifyUnseenEchoes | groupurl.go:60-65 | a path with a new key comes back as "/" and its raw tokens joined by "/" |
| Grouping.SimplifyUnseenKeepsText | groupurl.go:60-65 | such a path keeps every non-'/' character, in order |
| Grouping.WithClassifiers | groupurl.go:27-32 | the option sets the classifiers, whatever they were, and never fails |
| Grouping.ApplyOptions | groupurl.go:40-44 | the options applied in order, stopping at the first error; ApplyOptionsAppend, FailingOptionFails and LastWithClassifiersWins state its laws, and New is proved to fail exactly when it fails |
| Grouping.ApplyOptionsAppend | groupurl.go:40-44 | options apply in order, stopping at the first error |
| Grouping.FailingOptionFails | groupurl.go:40-44 | an option that returns an error makes the whole list fail |
| Grouping.LastWithClassifiersWins | groupurl.go:27-44 | the last WithClassifiers decides the classifiers |
| Grouping.Grouper.ForestHealthy | groupurl.go:17-20 | every tree of a valid Grouper is reachable and consistent |
| Grouping.Grouper.constructor | groupurl.go:36-39 | a new Grouper has the given classifiers and no trees |
| Grouping.Grouper.GetTree | groupurl.go:74-82 | returns the tree of the path's key, planting an empty one for a new key; the forest becomes `Planted` |
| Grouping.Grouper.TreeAt | groupurl.go:76-81 | the lookup-or-insert of getTree, by key |
| Grouping.Grouper.Learn | groupurl.go:54-55 | the tree of the path's key, planted if need be, learns the tokens; other trees are untouched |
| Grouping.Grouper.Add | groupurl.go:52-56 | the forest becomes `Trained` with the path's key and tokens; the Grouper stays valid |
| Grouping.Grouper.SimplifyPath | groupurl.go:60-65 | returns `Simplified` of the old forest; the forest only gains an empty tree for a new key |
| Grouping.New | groupurl.go:35-47 | fails exactly when an option fails, with its error; otherwise a valid Grouper with no trees and the classifiers the options leave |
| Grouping.NewVector | groupurl_test.go:86-101 | no options give the default classifiers; an option returning an error makes New fail with it |

## Left out

- `net/url` parsing: `Add` and `SimplifyPath` take the path string that `u.Path` would hold.
- `Print`, `printNode` and `filterSlice`: these only produce diagnostic output.
- `time.Now().Year()`: the last year the default year classifier accepts is the parameter `endYear` of `DefaultClassifiers` and `New`.
- The RE2 engine: the six expressions are written out as predicates (module `Patterns`). `\d` and the letter classes are ASCII, as in RE2.
- `strings.ToLower`: only ASCII letters are lowered. Unicode case mapping is not modelled.
- Counting.SignificanceIsRatioTest: proved against exact real ratios. float64 rounding, which matters only for counts near 2^53, is not modelled. Neither is the wrap-around of Go's `int` counters.
- Go map iteration order and `sort.Slice`: `Counter.TopN` collects the keys in an arbitrary order and sorts them by insertion. Its contract leaves the order of equal counts open, as the source does.
- The counter inside a trie node is held as a `CounterValue`, as the node embeds it by value. The `Counter` class models the same `add` on an object updated in place.
- User-written classifiers: `Classifier` is a closed datatype of the built-in kinds. The guarantee `MatchIsPrefix` gives (a non-empty prefix match) is not available for foreign code.
- Option closures: an `Option` is a function from classifiers to classifiers or an error. Options that touch `trees` are not modelled.
- Classifiers.TokensCoverPath: the model does not state the full round trip, in which the skipped '/' characters and the consumed matches concatenate back to the input. It states the weaker fact that the tokens hold every non-'/' character of the path, in order.
- The basic example's run: 100 paths `/important-label/N` are added, then `/important-label/1` simplifies to `/important-label/Number`. The model proves the rules this follows (`DefaultSegmentLabel`, `Emit`, `AddedPathIsKnown`), but not that 100-add run itself.
- Concurrency: the Grouper is documented as unsafe for concurrent use and is modelled sequentially.
- The fixture-driven test (groupurl_test.go:12-84): it reads a file of URLs and shuffles them at random. The example programs file and sitemap (examples/file/main.go, examples/sitemap/main.go) are not part of this model either: they read their input from outside and print their results.
- Where `urlTree.add` reads `token.label.LabelFields` (groupurl.go:185, 192), the model reads the label's `Fields`.
- An unmatched remainder: `labelPathToken` returns the whole remainder as the match (classifier.go:262-267). The model follows the code: the remainder becomes one Unknown token for the rest of the path, inner '/' included. It does not stop at the end of the segment. With the default chain this happens when the leading segment is not a date and holds a character outside `[a-zA-Z0-9-_. ]`.

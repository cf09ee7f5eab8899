/**
 * The label model: what a classifier says about one path segment.
 */
module Labels {

  /**
   * How the grouper treats a label: `important` labels may keep their literal
   * values, `cardinalityLimit` bounds how many literal values are remembered,
   * and `value` is the name shown when a segment is generalised. An empty
   * `value` means "no label".
   */
  datatype LabelFields = LabelFields(important: bool, cardinalityLimit: int, value: string)
  {
    /**
     * The limit a counter for this label is created with (cardinalityLimit()
     * in the source): -1, "remember nothing", for a label that is neither
     * important nor limited; the label's own limit otherwise, so that 0 on an
     * important label means "unbounded".
     */
    function CounterLimit(): (r: int)
      ensures r == -1 || r == cardinalityLimit
      ensures r == cardinalityLimit <==> (cardinalityLimit != 0 || important)
    {
      if cardinalityLimit == 0 && !important then -1 else cardinalityLimit
    }
  }

  /** The zero LabelFields value. */
  const NoFields := LabelFields(false, 0, "")

  /**
   * A classifier's verdict: the specific `fields`, and the `parent` fields a
   * nested classifier adds when a more general grouping applies.
   */
  datatype Label = Label(fields: LabelFields, parent: LabelFields)
  {
    /** The key of the trie edge a token with this label follows. */
    function ParentOrSelf(): (r: LabelFields)
      ensures r.value == "" <==> parent.value == "" && fields.value == ""
    {
      if |parent.value| > 0 then parent else fields
    }

    /** A zero label is the "no match" answer of a classifier. */
    predicate IsZero() {
      |fields.value| == 0
    }
  }

  /** The zero Label value. */
  const NoLabel := Label(NoFields, NoFields)

  /** A label without a parent. */
  function Plain(f: LabelFields): Label {
    Label(f, NoFields)
  }

  /** The label given to a remainder that no classifier recognises. */
  const UnknownFields := LabelFields(false, 0, "Unknown")

  /** One classified segment: the raw text (trailing '/' removed) and its label. */
  datatype PathToken = PathToken(token: string, tokenLabel: Label)

  /** The raw texts of a token list. */
  function Texts(tokens: seq<PathToken>): (r: seq<string>)
    ensures |r| == |tokens|
    ensures forall i :: 0 <= i < |tokens| ==> r[i] == tokens[i].token
  {
    if tokens == [] then [] else [tokens[0].token] + Texts(tokens[1..])
  }

  /**
   * The edge key is the parent exactly when the parent is named, the label's
   * own fields otherwise; it is unnamed only when both are.
   */
  lemma ParentOrSelfNamed(l: Label)
    ensures l.ParentOrSelf() == l.parent <== l.parent.value != ""
    ensures l.ParentOrSelf() == l.fields <== l.parent.value == ""
    ensures l.ParentOrSelf().value == "" <==> l.parent.value == "" && l.fields.value == ""
  {
  }
}

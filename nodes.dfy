/**
 * The node model of a property expression: an ordered sequence of field
 * nodes and index nodes. An index is a natural number or the wildcard `*`,
 * so a negative index cannot be represented.
 */
module Nodes {

  datatype Index = Position(n: nat) | Wildcard

  datatype Node = Field(name: string) | Element(index: Index)

  /** A property token that can stand in a path: non-empty, and free of the separators `.`, `[` and `]`. */
  predicate ValidName(s: string) {
    |s| > 0 && forall i :: 0 <= i < |s| ==> s[i] != '.' && s[i] != '[' && s[i] != ']'
  }

  /** Every field node carries a valid name. */
  predicate ValidNodes(e: seq<Node>) {
    forall i :: 0 <= i < |e| && e[i].Field? ==> ValidName(e[i].name)
  }

  /** What a builder can produce: valid names, and an index never opens the path. */
  predicate WellFormed(e: seq<Node>) {
    (|e| > 0 ==> e[0].Field?) && ValidNodes(e)
  }

  /** The index nodes for `indices`, in order. */
  function Elements(indices: seq<Index>): (r: seq<Node>)
    ensures |r| == |indices|
    ensures forall k :: 0 <= k < |r| ==> r[k] == Element(indices[k])
  {
    seq(|indices|, k requires 0 <= k < |indices| => Element(indices[k]))
  }

  /** Appending the first index of a run, then the rest of it, appends the whole run. */
  lemma ElementsCons(e: seq<Node>, indices: seq<Index>)
    requires indices != []
    ensures (e + [Element(indices[0])]) + Elements(indices[1..]) == e + Elements(indices)
  {
    assert Elements(indices) == [Element(indices[0])] + Elements(indices[1..]);
  }

  /** Index nodes never break well-formedness once a field opens the path. */
  lemma ElementsWellFormed(e: seq<Node>, indices: seq<Index>)
    ensures WellFormed(e) && e != [] ==> WellFormed(e + Elements(indices))
  {
    var x := e + Elements(indices);
    if WellFormed(e) && e != [] {
      forall k | 0 <= k < |x|
        ensures x[k].Field? ==> ValidName(x[k].name)
      {
        if k >= |e| {
          assert x[k] == Element(indices[k - |e|]);
        } else {
          assert x[k] == e[k];
        }
      }
    }
  }
}

/**
 * The expression builder behind `Exp<T>()`. An expression is an
 * append-only sequence of nodes. `Into` appends the field a reference
 * resolves to, followed by the indices written on that reference
 * (`Person::nestedDogs[1][2]`); `generate()` renders the path.
 *
 * The root type `T` of `Exp<T>()` is never rendered and is not modelled.
 */
module Expressions {
  import opened Accessors
  import opened Nodes
  import opened Renderer

  datatype Expression = Expression(nodes: seq<Node>)

  /**
   * A reference together with the indices applied to it before it is
   * handed to `into`: `Person::dogs` carries none, `Person::dogs[1]["*"]`
   * and `Person::dogs get 1 get "*"` carry `[1, *]`.
   */
  datatype Selector = Selector(accessor: Accessor, indices: seq<Index>)

  /** `Exp<T>()`: the empty expression. */
  function Create(): Expression {
    Expression([])
  }

  /** Appends one field node; earlier nodes are kept as they are. */
  function AppendField(e: Expression, name: string): (r: Expression)
    ensures |r.nodes| == |e.nodes| + 1 && r.nodes[..|e.nodes|] == e.nodes && r.nodes[|e.nodes|] == Field(name)
    ensures WellFormed(e.nodes) && ValidName(name) ==> WellFormed(r.nodes)
  {
    Expression(e.nodes + [Field(name)])
  }

  /** Appends one index node; earlier nodes are kept as they are. */
  function AppendIndex(e: Expression, i: Index): (r: Expression)
    ensures |r.nodes| == |e.nodes| + 1 && r.nodes[..|e.nodes|] == e.nodes && r.nodes[|e.nodes|] == Element(i)
    ensures WellFormed(e.nodes) && e.nodes != [] ==> WellFormed(r.nodes)
  {
    Expression(e.nodes + [Element(i)])
  }

  /** Appends the indices one `AppendIndex` at a time, in order. */
  function AppendIndices(e: Expression, indices: seq<Index>): (r: Expression)
    ensures r.nodes == e.nodes + Elements(indices)
    decreases |indices|
  {
    if indices == [] then e
    else
      ElementsCons(e.nodes, indices);
      AppendIndices(AppendIndex(e, indices[0]), indices[1..])
  }

  /** A bare reference: `Person::dogs` or `PersonJava::getDogs`. */
  function Reference(a: Accessor): Selector {
    Selector(a, [])
  }

  /** `ref[i]`, `ref["*"]` and `ref get i`: one more index on the reference. */
  function Get(r: Selector, i: Index): Selector {
    Selector(r.accessor, r.indices + [i])
  }

  /** `e into ref` and `e.into(ref)`: the field `ref` resolves to, then its indices. */
  function Into(e: Expression, r: Selector): (x: Expression)
    ensures x.nodes == e.nodes + [Field(Resolve(r.accessor))] + Elements(r.indices)
    ensures WellFormed(e.nodes) && ValidName(Resolve(r.accessor)) ==> WellFormed(x.nodes)
  {
    var f := AppendField(e, Resolve(r.accessor));
    ElementsWellFormed(f.nodes, r.indices);
    AppendIndices(f, r.indices)
  }

  /** `generate()`: the path of the expression. */
  function Generate(e: Expression): string {
    Render(e.nodes)
  }

  // ---------------------------------------------------------------------
  // Properties of built expressions

  /** A valid identifier resolves to a valid token, so references keep expressions well formed. */
  lemma ResolveValid(a: Accessor)
    requires ValidName(a.name)
    ensures ValidName(Resolve(a))
  {
    var r := Resolve(a);
    if a.FunctionRef? && IsGetterName(a.name) {
      forall j | 0 <= j < |r| ensures r[j] != '.' && r[j] != '[' && r[j] != ']' {
        if j > 0 {
          assert r[j] == GetterName(r)[j + 3] == a.name[j + 3];
        }
      }
    }
  }

  /** Every expression built from `Exp<T>()` by `into` with valid identifiers is well formed. */
  lemma IntoWellFormed(e: Expression, r: Selector)
    requires WellFormed(e.nodes) && ValidName(r.accessor.name)
    ensures WellFormed(Into(e, r).nodes)
  {
    ResolveValid(r.accessor);
  }

  /** Indexing a reference before `into` is indexing the expression after it. */
  lemma IntoGet(e: Expression, r: Selector, i: Index)
    ensures Into(e, Get(r, i)) == AppendIndex(Into(e, r), i)
  {
    assert Elements(r.indices + [i]) == Elements(r.indices) + [Element(i)];
  }

  /** Rendering `into ref` appends the resolved token, behind a `.` unless it opens the path, then the index tokens. */
  lemma GenerateInto(e: Expression, r: Selector)
    ensures Generate(Into(e, r)) ==
      (if e.nodes == [] then "" else Generate(e) + ".") + Resolve(r.accessor) + IndicesText(r.indices)
  {
    var name := Resolve(r.accessor);
    assert Into(e, r).nodes == e.nodes + ([Field(name)] + Elements(r.indices));
    RenderFieldIndices(e.nodes, name, r.indices);
  }

  /** A single reference on an empty expression renders as its bare token: `dogs`. */
  lemma GenerateSingleField(a: Accessor)
    ensures Generate(Into(Create(), Reference(a))) == Resolve(a)
  {
    GenerateInto(Create(), Reference(a));
  }

  /** A reference after any non-empty expression joins with exactly one `.`: `dog.name`, `nestedDogs[*][*].name`. */
  lemma GenerateNestedField(e: Expression, a: Accessor)
    requires e.nodes != []
    ensures Generate(Into(e, Reference(a))) == Generate(e) + "." + Resolve(a)
  {
    GenerateInto(e, Reference(a));
  }

  /** Each index on a reference adds its bracketed token with no separator: `[1]`, then `[*]`, and so on. */
  lemma GenerateIndexed(e: Expression, r: Selector, i: Index)
    ensures Generate(Into(e, Get(r, i))) == Generate(Into(e, r)) + IndexToken(i)
  {
    IntoGet(e, r, i);
    RenderAppendIndex(Into(e, r).nodes, i);
  }

  /** One reference with its indices: the bare token followed by the index tokens, `nestedThriceDogs[1][2][2]`. */
  lemma GenerateOne(r: Selector)
    ensures Generate(Into(Create(), r)) == Resolve(r.accessor) + IndicesText(r.indices)
  {
    GenerateInto(Create(), r);
  }

  /**
   * Two references: the second token follows the first reference's index
   * tokens behind exactly one `.`, `nestedDogs[*][*].name`.
   */
  lemma GenerateTwo(r1: Selector, r2: Selector)
    ensures Generate(Into(Into(Create(), r1), r2)) ==
      Resolve(r1.accessor) + IndicesText(r1.indices) + "." + Resolve(r2.accessor) + IndicesText(r2.indices)
  {
    GenerateOne(r1);
    GenerateInto(Into(Create(), r1), r2);
  }

  /** The path of an expression is a prefix of the path of any extension of it. */
  lemma GenerateGrows(e: Expression, r: Selector)
    ensures Generate(e) <= Generate(Into(e, r))
  {
    RenderPrefix(e.nodes, Into(e, r).nodes[|e.nodes|..]);
    assert e.nodes + Into(e, r).nodes[|e.nodes|..] == Into(e, r).nodes;
  }

  /** A getter reference and the property it reads build the same expression, so they render the same path. */
  lemma GetterTwin(e: Expression, p: string, indices: seq<Index>)
    requires |p| > 0 && IsLower(p[0])
    ensures Into(e, Selector(FunctionRef(GetterName(p)), indices)) == Into(e, Selector(PropertyRef(p), indices))
  {
    GetterResolvesToProperty(p);
  }

  /** Generated paths identify well-formed expressions: equal paths mean equal node sequences. */
  lemma GenerateInjective(e1: Expression, e2: Expression)
    requires WellFormed(e1.nodes) && WellFormed(e2.nodes)
    requires Generate(e1) == Generate(e2)
    ensures e1 == e2
  {
    RenderInjective(e1.nodes, e2.nodes);
  }
}

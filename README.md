# Property expressions of fixture-monkey's Kotlin DSL

Fixture Monkey's Kotlin module lets a test name a property of a generated
object with a typed expression instead of a hand-written string:
`Exp<Person>() into Person::nestedDogs[1][2] into Dog::name` generates the
path `nestedDogs[1][2].name`. This project models that expression builder
and the path it renders, and proves the rendering rules:

- the first field is written bare;
- every later field is preceded by exactly one `.`;
- an index is written `[n]`, or `[*]` for the wildcard, with nothing before it;
- consecutive indices sit side by side.

It also proves the following:

- A Java-style getter reference (`PersonJava::getDogs`) resolves to the same token as the property it reads (`dogs`).
- A method that is not a getter (`notGetter`) keeps its name.
- Indexing a reference before handing it to `into` (`ref[1]`) builds the same expression as appending the index after the reference's field (`IntoGet`). The spellings `ref[1]`, `ref get 1` and `(ref)[1]` are all the one function `Get`, and `.into(...)` and infix `into` are both `Into`.

Beyond the equations, the project proves that rendering is unambiguous. A
reader `Parse` recovers the node sequence from the path of any well-formed
node sequence. A string
reads as a path exactly when it is the rendering of a well-formed
expression. Equal paths therefore mean equal expressions.

Modules:

- `Wrappers`: the `Option` type.
- `Decimal`: the decimal literal of an index, with both round trips.
- `Accessors`: property and method references, and how a reference resolves to a path token (the getter rule).
- `Nodes`: the node model. A node is a field or an index, and an index is a natural number or the wildcard, so a negative index cannot be represented. The module also defines well-formedness.
- `Renderer`: `Render` (behind `generate()`), the reader `Parse`, and the lemmas that relate them.
- `Expressions`: `Exp<T>()` as `Create`, the append operations, references with indices (`Selector`, `Get`), `Into` and `Generate`, and their properties.
- `GeneratorTests`: one lemma per test in the Kotlin test class, stating the exact path the test expects. The four `DiffExpression` variants of one test spell the same term, so each is a single lemma.

## Model

| member | source | states |
|---|---|---|
| Decimal.FromNat | fixture-monkey-kotlin/src/test/kotlin/com/navercorp/fixturemonkey/kotlin/ExpressionGeneratorTest.kt:72-80 | the literal of every index is a canonical decimal: at least one digit, no leading zero, and it starts with `0` exactly for index 0 |
| Decimal.ToNatFromNat | fixture-monkey-kotlin/src/test/kotlin/com/navercorp/fixturemonkey/kotlin/ExpressionGeneratorTest.kt:72-80 | reading the rendered literal of `n` gives back `n`, so `[1]` denotes index 1 |
| Decimal.FromNatToNat | fixture-monkey-kotlin/src/test/kotlin/com/navercorp/fixturemonkey/kotlin/ExpressionGeneratorTest.kt:197-206 | every canonical literal is the rendering of its own value, so the literal of an index is unique |
| Decimal.FromNatInjective | fixture-monkey-kotlin/src/test/kotlin/com/navercorp/fixturemonkey/kotlin/ExpressionGeneratorTest.kt:116-135 | distinct indices render as distinct literals |
| Accessors.Resolve | fixture-monkey-kotlin/src/test/kotlin/com/navercorp/fixturemonkey/kotlin/ExpressionGeneratorTest.kt:223-231 | a method reference named `get` + upper-case letter + rest resolves to the rest with its first letter lower-cased (and re-adding `get` with the letter capitalised gives the method name back); any other method reference, and every property reference, resolves to its own identifier unchanged (`notGetter`) |
| Accessors.GetterResolvesToProperty | fixture-monkey-kotlin/src/test/kotlin/com/navercorp/fixturemonkey/kotlin/ExpressionGeneratorTest.kt:223-231 | for every property name `p` starting lower-case, `get` + capitalised `p` is a getter name and resolves to exactly what the property reference `p` resolves to (`getDogs` and `dogs`) |
| Renderer.IndexToken | fixture-monkey-kotlin/src/test/kotlin/com/navercorp/fixturemonkey/kotlin/ExpressionGeneratorTest.kt:61-69 | an index token is bracketed; the wildcard is `[*]`; a position `n` holds a canonical literal whose value is `n` |
| Renderer.IndicesText | fixture-monkey-kotlin/src/test/kotlin/com/navercorp/fixturemonkey/kotlin/ExpressionGeneratorTest.kt:116-135 | no contract; the text of a run of indices. `RenderFromElements` proves it is what the run's index nodes render to, and `IndicesTextAppend` proves one more index adds its token at the end |
| Renderer.Render | fixture-monkey-kotlin/src/test/kotlin/com/navercorp/fixturemonkey/kotlin/ExpressionGeneratorTest.kt:28-36 | no contract; the path of a node sequence. `RenderConcat`, `RenderAppendField` and `RenderAppendIndex` pin down its tokens and separators, and `ParseRender` with `RenderParse` prove it a bijection between well-formed sequences and the strings `Parse` reads |
| Renderer.RenderConcat | fixture-monkey-kotlin/src/test/kotlin/com/navercorp/fixturemonkey/kotlin/ExpressionGeneratorTest.kt:138-146 | the path of a concatenation is the front's path followed by the back's tokens, the back's first field getting its `.` exactly when the front is non-empty |
| Renderer.RenderAppend | fixture-monkey-kotlin/src/test/kotlin/com/navercorp/fixturemonkey/kotlin/ExpressionGeneratorTest.kt:39-47 | appending a node appends exactly its token and never rewrites the path built so far |
| Renderer.RenderAppendField | fixture-monkey-kotlin/src/test/kotlin/com/navercorp/fixturemonkey/kotlin/ExpressionGeneratorTest.kt:39-47 | a field appended to an empty sequence renders bare, after anything else behind exactly one `.` |
| Renderer.RenderAppendIndex | fixture-monkey-kotlin/src/test/kotlin/com/navercorp/fixturemonkey/kotlin/ExpressionGeneratorTest.kt:50-58 | an index appended after anything renders as its bracketed token, with no `.` before it |
| Renderer.RenderFromElements | fixture-monkey-kotlin/src/test/kotlin/com/navercorp/fixturemonkey/kotlin/ExpressionGeneratorTest.kt:116-135 | a run of index nodes renders as its tokens side by side, whether or not it opens the path |
| Renderer.IndicesTextAppend | fixture-monkey-kotlin/src/test/kotlin/com/navercorp/fixturemonkey/kotlin/ExpressionGeneratorTest.kt:197-206 | one more index on a run adds its token at the end |
| Renderer.RenderFieldIndices | fixture-monkey-kotlin/src/test/kotlin/com/navercorp/fixturemonkey/kotlin/ExpressionGeneratorTest.kt:138-146 | a field followed by indices, appended to any prefix, renders as the prefix's path, a `.` if the prefix is non-empty, the name, then the index tokens |
| Renderer.RenderPrefix | fixture-monkey-kotlin/src/test/kotlin/com/navercorp/fixturemonkey/kotlin/ExpressionGeneratorTest.kt:209-219 | the path of a node sequence is a prefix of the path of any extension |
| Renderer.ParseRender | fixture-monkey-kotlin/src/test/kotlin/com/navercorp/fixturemonkey/kotlin/ExpressionGeneratorTest.kt:116-146 | reading back the path of a well-formed node sequence gives that sequence: the path is unambiguous |
| Renderer.RenderParse | fixture-monkey-kotlin/src/test/kotlin/com/navercorp/fixturemonkey/kotlin/ExpressionGeneratorTest.kt:116-146 | whatever reads as a path is well formed and renders to exactly that string: the paths are exactly the renderings |
| Renderer.RenderInjective | fixture-monkey-kotlin/src/test/kotlin/com/navercorp/fixturemonkey/kotlin/ExpressionGeneratorTest.kt:116-146 | two well-formed node sequences with the same path are equal |
| Expressions.Create | fixture-monkey-kotlin/src/test/kotlin/com/navercorp/fixturemonkey/kotlin/ExpressionGeneratorTest.kt:28-36 | no contract; `Exp<T>()`, the empty expression. `GenerateSingleField` and `GenerateOne` state what one `into` on it generates |
| Expressions.Reference | fixture-monkey-kotlin/src/test/kotlin/com/navercorp/fixturemonkey/kotlin/ExpressionGeneratorTest.kt:28-36 | no contract; a bare reference such as `Person::dogs`, carrying no indices. `GenerateSingleField` and `GenerateNestedField` state what `into` with it generates |
| Expressions.Get | fixture-monkey-kotlin/src/test/kotlin/com/navercorp/fixturemonkey/kotlin/ExpressionGeneratorTest.kt:72-80 | no contract; `ref[i]`, `ref["*"]` and `ref get i`, one more index on the reference. `IntoGet` proves that indexing before `into` equals appending the index after it, and `GenerateIndexed` that it adds the index token to the path |
| Expressions.AppendField | fixture-monkey-kotlin/src/test/kotlin/com/navercorp/fixturemonkey/kotlin/ExpressionGeneratorTest.kt:39-47 | appending a field adds one node at the end, keeps every earlier node, and keeps the expression well formed when the name is valid |
| Expressions.AppendIndex | fixture-monkey-kotlin/src/test/kotlin/com/navercorp/fixturemonkey/kotlin/ExpressionGeneratorTest.kt:50-58 | appending an index adds one node at the end, keeps every earlier node, and keeps a non-empty well-formed expression well formed |
| Expressions.AppendIndices | fixture-monkey-kotlin/src/test/kotlin/com/navercorp/fixturemonkey/kotlin/ExpressionGeneratorTest.kt:116-135 | appending indices one at a time appends their index nodes in order |
| Expressions.Into | fixture-monkey-kotlin/src/test/kotlin/com/navercorp/fixturemonkey/kotlin/ExpressionGeneratorTest.kt:149-194 | `into` appends the field its reference resolves to, then the reference's indices in order; with a valid identifier it keeps the expression well formed |
| Expressions.ResolveValid | fixture-monkey-kotlin/src/test/kotlin/com/navercorp/fixturemonkey/kotlin/ExpressionGeneratorTest.kt:223-231 | a valid identifier resolves to a valid path token |
| Expressions.IntoWellFormed | fixture-monkey-kotlin/src/test/kotlin/com/navercorp/fixturemonkey/kotlin/ExpressionGeneratorTest.kt:28-219 | every expression built from `Exp<T>()` by `into` with valid identifiers is well formed |
| Expressions.IntoGet | fixture-monkey-kotlin/src/test/kotlin/com/navercorp/fixturemonkey/kotlin/ExpressionGeneratorTest.kt:149-194 | indexing a reference before `into` (`ref[i]`, `ref get i`) is the same as appending the index after it |
| Expressions.Generate | fixture-monkey-kotlin/src/test/kotlin/com/navercorp/fixturemonkey/kotlin/ExpressionGeneratorTest.kt:28-36 | no contract; `generate()`, the rendered path of the expression's nodes. `GenerateInto` states what each `into` adds to it, and `GenerateInjective` that it identifies well-formed expressions |
| Expressions.GenerateInto | fixture-monkey-kotlin/src/test/kotlin/com/navercorp/fixturemonkey/kotlin/ExpressionGeneratorTest.kt:138-146 | the path after `into` is the old path, a `.` unless the expression was empty, the resolved token, then the index tokens |
| Expressions.GenerateSingleField | fixture-monkey-kotlin/src/test/kotlin/com/navercorp/fixturemonkey/kotlin/ExpressionGeneratorTest.kt:28-36 | a single reference on `Exp<T>()` renders as its bare token |
| Expressions.GenerateNestedField | fixture-monkey-kotlin/src/test/kotlin/com/navercorp/fixturemonkey/kotlin/ExpressionGeneratorTest.kt:39-47 | a reference after a non-empty expression joins with exactly one `.` |
| Expressions.GenerateIndexed | fixture-monkey-kotlin/src/test/kotlin/com/navercorp/fixturemonkey/kotlin/ExpressionGeneratorTest.kt:72-80 | each index on a reference appends its bracketed token to the path with no separator |
| Expressions.GenerateOne | fixture-monkey-kotlin/src/test/kotlin/com/navercorp/fixturemonkey/kotlin/ExpressionGeneratorTest.kt:197-206 | one reference renders as its token followed by its index tokens |
| Expressions.GenerateTwo | fixture-monkey-kotlin/src/test/kotlin/com/navercorp/fixturemonkey/kotlin/ExpressionGeneratorTest.kt:138-146 | two references render as token, index tokens, `.`, token, index tokens |
| Expressions.GenerateGrows | fixture-monkey-kotlin/src/test/kotlin/com/navercorp/fixturemonkey/kotlin/ExpressionGeneratorTest.kt:209-219 | extending an expression only extends its path |
| Expressions.GetterTwin | fixture-monkey-kotlin/src/test/kotlin/com/navercorp/fixturemonkey/kotlin/ExpressionGeneratorTest.kt:223-414 | a getter reference and its property build the same expression with any indices, so every getter test renders the same path as its property twin |
| Expressions.GenerateInjective | fixture-monkey-kotlin/src/test/kotlin/com/navercorp/fixturemonkey/kotlin/ExpressionGeneratorTest.kt:116-146 | equal paths of well-formed expressions mean equal expressions |
| GeneratorTests.GetPropertyExpressionField | fixture-monkey-kotlin/src/test/kotlin/com/navercorp/fixturemonkey/kotlin/ExpressionGeneratorTest.kt:28-36 | the expression the test builds generates exactly `dogs` |
| GeneratorTests.GetPropertyExpressionNestedField | fixture-monkey-kotlin/src/test/kotlin/com/navercorp/fixturemonkey/kotlin/ExpressionGeneratorTest.kt:39-47 | the expression the test builds generates exactly `dog.name` |
| GeneratorTests.GetPropertyExpressionNestedFieldWithIndex | fixture-monkey-kotlin/src/test/kotlin/com/navercorp/fixturemonkey/kotlin/ExpressionGeneratorTest.kt:50-58 | the expression the test builds generates exactly `dog.loves[0]` |
| GeneratorTests.GetPropertyExpressionNestedFieldWithAllIndex | fixture-monkey-kotlin/src/test/kotlin/com/navercorp/fixturemonkey/kotlin/ExpressionGeneratorTest.kt:61-69 | the expression the test builds generates exactly `dog.loves[*]` |
| GeneratorTests.GetPropertyExpressionListWithIndexOnce | fixture-monkey-kotlin/src/test/kotlin/com/navercorp/fixturemonkey/kotlin/ExpressionGeneratorTest.kt:72-80 | the expression the test builds generates exactly `dogs[1]` |
| GeneratorTests.GetPropertyExpressionListWithAllIndexOnce | fixture-monkey-kotlin/src/test/kotlin/com/navercorp/fixturemonkey/kotlin/ExpressionGeneratorTest.kt:83-91 | the expression the test builds generates exactly `dogs[*]` |
| GeneratorTests.GetPropertyExpressionNestedListWithIndex | fixture-monkey-kotlin/src/test/kotlin/com/navercorp/fixturemonkey/kotlin/ExpressionGeneratorTest.kt:94-102 | the expression the test builds generates exactly `nestedDogs[1]` |
| GeneratorTests.GetPropertyExpressionNestedListWithAllIndex | fixture-monkey-kotlin/src/test/kotlin/com/navercorp/fixturemonkey/kotlin/ExpressionGeneratorTest.kt:105-113 | the expression the test builds generates exactly `nestedDogs[*]` |
| GeneratorTests.GetPropertyExpressionListWithIndexAndAllIndex | fixture-monkey-kotlin/src/test/kotlin/com/navercorp/fixturemonkey/kotlin/ExpressionGeneratorTest.kt:116-124 | the expression the test builds generates exactly `nestedDogs[1][*]` |
| GeneratorTests.GetPropertyExpressionListWithAllIndexAndIndex | fixture-monkey-kotlin/src/test/kotlin/com/navercorp/fixturemonkey/kotlin/ExpressionGeneratorTest.kt:127-135 | the expression the test builds generates exactly `nestedDogs[*][2]` |
| GeneratorTests.GetPropertyExpressionListWithAllIndexTwiceWithField | fixture-monkey-kotlin/src/test/kotlin/com/navercorp/fixturemonkey/kotlin/ExpressionGeneratorTest.kt:138-146 | the expression the test builds generates exactly `nestedDogs[*][*].name` |
| GeneratorTests.GetPropertyExpressionListWithIndexTwiceWithField | fixture-monkey-kotlin/src/test/kotlin/com/navercorp/fixturemonkey/kotlin/ExpressionGeneratorTest.kt:149-194 | the expression the test builds generates exactly `nestedDogs[1][2].name` |
| GeneratorTests.GetPropertyExpressionFieldWithIndexThrice | fixture-monkey-kotlin/src/test/kotlin/com/navercorp/fixturemonkey/kotlin/ExpressionGeneratorTest.kt:197-206 | the expression the test builds generates exactly `nestedThriceDogs[1][2][2]` |
| GeneratorTests.GetPropertyExpressionFieldWithIndexThriceWithField | fixture-monkey-kotlin/src/test/kotlin/com/navercorp/fixturemonkey/kotlin/ExpressionGeneratorTest.kt:209-219 | the expression the test builds generates exactly `nestedThriceDogs[1][2][2].name` |
| GeneratorTests.GetGetterExpressionField | fixture-monkey-kotlin/src/test/kotlin/com/navercorp/fixturemonkey/kotlin/ExpressionGeneratorTest.kt:223-231 | the expression the test builds generates exactly `dogs` |
| GeneratorTests.GetGetterExpressionNestedField | fixture-monkey-kotlin/src/test/kotlin/com/navercorp/fixturemonkey/kotlin/ExpressionGeneratorTest.kt:234-242 | the expression the test builds generates exactly `dog.name` |
| GeneratorTests.GetGetterExpressionNestedFieldWithIndex | fixture-monkey-kotlin/src/test/kotlin/com/navercorp/fixturemonkey/kotlin/ExpressionGeneratorTest.kt:245-253 | the expression the test builds generates exactly `dog.loves[0]` |
| GeneratorTests.GetGetterExpressionNestedFieldWithAllIndex | fixture-monkey-kotlin/src/test/kotlin/com/navercorp/fixturemonkey/kotlin/ExpressionGeneratorTest.kt:256-264 | the expression the test builds generates exactly `dog.loves[*]` |
| GeneratorTests.GetGetterExpressionListWithIndexOnce | fixture-monkey-kotlin/src/test/kotlin/com/navercorp/fixturemonkey/kotlin/ExpressionGeneratorTest.kt:267-275 | the expression the test builds generates exactly `dogs[1]` |
| GeneratorTests.GetGetterExpressionListWithAllIndexOnce | fixture-monkey-kotlin/src/test/kotlin/com/navercorp/fixturemonkey/kotlin/ExpressionGeneratorTest.kt:278-286 | the expression the test builds generates exactly `dogs[*]` |
| GeneratorTests.GetGetterExpressionNestedListWithIndex | fixture-monkey-kotlin/src/test/kotlin/com/navercorp/fixturemonkey/kotlin/ExpressionGeneratorTest.kt:289-297 | the expression the test builds generates exactly `nestedDogs[1]` |
| GeneratorTests.GetGetterExpressionNestedListWithAllIndex | fixture-monkey-kotlin/src/test/kotlin/com/navercorp/fixturemonkey/kotlin/ExpressionGeneratorTest.kt:300-308 | the expression the test builds generates exactly `nestedDogs[*]` |
| GeneratorTests.GetGetterExpressionListWithIndexAndAllIndex | fixture-monkey-kotlin/src/test/kotlin/com/navercorp/fixturemonkey/kotlin/ExpressionGeneratorTest.kt:311-319 | the expression the test builds generates exactly `nestedDogs[1][*]` |
| GeneratorTests.GetGetterExpressionListWithAllIndexAndIndex | fixture-monkey-kotlin/src/test/kotlin/com/navercorp/fixturemonkey/kotlin/ExpressionGeneratorTest.kt:322-330 | the expression the test builds generates exactly `nestedDogs[*][2]` |
| GeneratorTests.GetGetterExpressionListWithAllIndexTwiceWithField | fixture-monkey-kotlin/src/test/kotlin/com/navercorp/fixturemonkey/kotlin/ExpressionGeneratorTest.kt:333-341 | the expression the test builds generates exactly `nestedDogs[*][*].name` |
| GeneratorTests.GetGetterExpressionListWithIndexTwiceWithField | fixture-monkey-kotlin/src/test/kotlin/com/navercorp/fixturemonkey/kotlin/ExpressionGeneratorTest.kt:344-389 | the expression the test builds generates exactly `nestedDogs[1][2].name` |
| GeneratorTests.GetGetterExpressionFieldWithIndexThrice | fixture-monkey-kotlin/src/test/kotlin/com/navercorp/fixturemonkey/kotlin/ExpressionGeneratorTest.kt:392-401 | the expression the test builds generates exactly `nestedThriceDogs[1][2][2]` |
| GeneratorTests.GetGetterExpressionFieldWithIndexThriceWithField | fixture-monkey-kotlin/src/test/kotlin/com/navercorp/fixturemonkey/kotlin/ExpressionGeneratorTest.kt:404-414 | the expression the test builds generates exactly `nestedThriceDogs[1][2][2].name` |
| GeneratorTests.NotGetter | fixture-monkey-kotlin/src/test/kotlin/com/navercorp/fixturemonkey/kotlin/ExpressionGeneratorTest.kt:417-425 | the expression the test builds generates exactly `notGetter` |

## Left out

- The implementation of the builder is not part of this model. The rules here are the ones the test class asserts.
- Kotlin reflection over `KProperty` and `KFunction`, and the operator overloads behind `into`, `[]` and `get`, are not modelled. A reference is its raw identifier (`PropertyRef` or `FunctionRef`). The overloads are the functions `Into` and `Get`.
- The root type of `Exp<T>()` and the owner types of references (`Person`, `PersonJava`, `Dog`) are never rendered, and are not modelled.
- Error behaviour is not modelled:
  - indices that are negative, or strings other than `"*"`, cannot be represented;
  - an empty identifier, or rendering an expression without any field, has no error path.

  The builder's preconditions are instead stated as `WellFormed` (valid names, and a field first), which the lemmas assume where they need it.
- Accessors.Resolve: only the `get` + upper-case rule is modelled. There is no `is` prefix for booleans and no JavaBeans rule that keeps `getURL` as `URL`. Case mapping covers ASCII letters only.
- `Renderer.Parse` is not an operation of the library. It exists only to state that the rendered path is unambiguous.
- How the fixture engine consumes the path, and the `java.time` introspector in the API module, are not part of this model. The introspector is a dispatch table over foreign generators.

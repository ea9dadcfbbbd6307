/**
 * The equations asserted by ExpressionGeneratorTest.kt, one lemma per
 * test: each builds an expression the way the test does and states the
 * exact path `generate()` returns.
 *
 * `Person::dogs` is `Reference(PropertyRef("dogs"))`, `PersonJava::getDogs`
 * is `Reference(FunctionRef("getDogs"))`, `[1]` and `get 1` are
 * `Get(_, Position(1))`, and `["*"]` is `Get(_, Wildcard)`. Parenthesising a
 * reference and choosing between `.into(...)` and infix `into` do not change
 * the term.
 *
 * Each test lemma only combines the facts stated before it: what each
 * reference resolves to, what each index list renders to, and how the
 * tokens join. Those fact lemmas (`Chain1`-`Chain3`, `PropertyResolves`,
 * the `...Resolves` and `Tokens...` lemmas and the `Spelling...` string
 * identities) claim nothing about the model beyond the general lemmas; they
 * exist to keep each test lemma's proof obligation small, since computing
 * those literal facts inside a test lemma makes its proof far more costly.
 */
module GeneratorTests {
  import opened Accessors
  import opened Nodes
  import opened Renderer
  import opened Expressions

  /** A test that hands one reference to `into`. */
  lemma One(r: Selector, token: string, indices: string, path: string)
    requires Resolve(r.accessor) == token && IndicesText(r.indices) == indices
    requires path == token + indices
    ensures Generate(Into(Create(), r)) == path
  {
    GenerateOne(r);
  }

  /** A test that hands two references to `into`. */
  lemma Two(r1: Selector, r2: Selector, token1: string, indices1: string, token2: string, indices2: string, path: string)
    requires Resolve(r1.accessor) == token1 && IndicesText(r1.indices) == indices1
    requires Resolve(r2.accessor) == token2 && IndicesText(r2.indices) == indices2
    requires path == token1 + indices1 + "." + token2 + indices2
    ensures Generate(Into(Into(Create(), r1), r2)) == path
  {
    GenerateTwo(r1, r2);
  }

  /** Indices written on a reference, one to three of them as in the tests. */
  lemma Chain1(a: Accessor, i: Index)
    ensures Get(Reference(a), i) == Selector(a, [i])
  {
  }

  lemma Chain2(a: Accessor, i: Index, j: Index)
    ensures Get(Get(Reference(a), i), j) == Selector(a, [i, j])
  {
  }

  lemma Chain3(a: Accessor, i: Index, j: Index, k: Index)
    ensures Get(Get(Get(Reference(a), i), j), k) == Selector(a, [i, j, k])
  {
  }

  /** Kotlin property references resolve to their own names. */
  lemma PropertyResolves(name: string)
    ensures Resolve(PropertyRef(name)) == name
  {
  }

  // The getter references of the tests and what they resolve to.

  lemma GetDogsResolves()
    ensures Resolve(FunctionRef("getDogs")) == "dogs"
  {
    assert GetterName("dogs") == "getDogs";
    GetterResolvesToProperty("dogs");
  }

  lemma GetDogResolves()
    ensures Resolve(FunctionRef("getDog")) == "dog"
  {
    assert GetterName("dog") == "getDog";
    GetterResolvesToProperty("dog");
  }

  lemma GetNameResolves()
    ensures Resolve(FunctionRef("getName")) == "name"
  {
    assert GetterName("name") == "getName";
    GetterResolvesToProperty("name");
  }

  lemma GetLovesResolves()
    ensures Resolve(FunctionRef("getLoves")) == "loves"
  {
    assert GetterName("loves") == "getLoves";
    GetterResolvesToProperty("loves");
  }

  lemma GetNestedDogsResolves()
    ensures Resolve(FunctionRef("getNestedDogs")) == "nestedDogs"
  {
    assert GetterName("nestedDogs") == "getNestedDogs";
    GetterResolvesToProperty("nestedDogs");
  }

  lemma GetNestedThriceDogsResolves()
    ensures Resolve(FunctionRef("getNestedThriceDogs")) == "nestedThriceDogs"
  {
    assert GetterName("nestedThriceDogs") == "getNestedThriceDogs";
    GetterResolvesToProperty("nestedThriceDogs");
  }

  lemma NotGetterResolves()
    ensures Resolve(FunctionRef("notGetter")) == "notGetter"
  {
    assert !IsGetterName("notGetter");
  }

  // The index runs of the tests and their tokens.

  lemma TokensAt0()
    ensures IndicesText([Position(0)]) == "[0]"
  {
  }

  lemma TokensAll()
    ensures IndicesText([Wildcard]) == "[*]"
  {
  }

  lemma TokensAt1()
    ensures IndicesText([Position(1)]) == "[1]"
  {
  }

  lemma TokensAt1All()
    ensures IndicesText([Position(1), Wildcard]) == "[1][*]"
  {
  }

  lemma TokensAllAt2()
    ensures IndicesText([Wildcard, Position(2)]) == "[*][2]"
  {
  }

  lemma TokensAllAll()
    ensures IndicesText([Wildcard, Wildcard]) == "[*][*]"
  {
  }

  lemma TokensAt1At2()
    ensures IndicesText([Position(1), Position(2)]) == "[1][2]"
  {
  }

  lemma TokensAt1At2At2()
    ensures IndicesText([Position(1), Position(2), Position(2)]) == "[1][2][2]"
  {
  }

  // The expected paths, split into the tokens that make them up.

  lemma SpellingDogs()
    ensures "dogs" == "dogs" + ""
  {
  }

  lemma SpellingDogName()
    ensures "dog.name" == "dog" + "" + "." + "name" + ""
  {
  }

  lemma SpellingDogLovesAt0()
    ensures "dog.loves[0]" == "dog" + "" + "." + "loves" + "[0]"
  {
  }

  lemma SpellingDogLovesAll()
    ensures "dog.loves[*]" == "dog" + "" + "." + "loves" + "[*]"
  {
  }

  lemma SpellingDogsAt1()
    ensures "dogs[1]" == "dogs" + "[1]"
  {
  }

  lemma SpellingDogsAll()
    ensures "dogs[*]" == "dogs" + "[*]"
  {
  }

  lemma SpellingNestedDogsAt1()
    ensures "nestedDogs[1]" == "nestedDogs" + "[1]"
  {
  }

  lemma SpellingNestedDogsAll()
    ensures "nestedDogs[*]" == "nestedDogs" + "[*]"
  {
  }

  lemma SpellingNestedDogsAt1All()
    ensures "nestedDogs[1][*]" == "nestedDogs" + "[1][*]"
  {
  }

  lemma SpellingNestedDogsAllAt2()
    ensures "nestedDogs[*][2]" == "nestedDogs" + "[*][2]"
  {
  }

  lemma SpellingNestedDogsAllAllName()
    ensures "nestedDogs[*][*].name" == "nestedDogs" + "[*][*]" + "." + "name" + ""
  {
  }

  lemma SpellingNestedDogsAt1At2Name()
    ensures "nestedDogs[1][2].name" == "nestedDogs" + "[1][2]" + "." + "name" + ""
  {
  }

  lemma SpellingNestedThriceDogsAt1At2At2()
    ensures "nestedThriceDogs[1][2][2]" == "nestedThriceDogs" + "[1][2][2]"
  {
  }

  lemma SpellingNestedThriceDogsAt1At2At2Name()
    ensures "nestedThriceDogs[1][2][2].name" == "nestedThriceDogs" + "[1][2][2]" + "." + "name" + ""
  {
  }

  lemma SpellingNotGetter()
    ensures "notGetter" == "notGetter" + ""
  {
  }

  // The tests.

  lemma GetPropertyExpressionField()
    ensures Generate(Into(Create(), Reference(PropertyRef("dogs")))) == "dogs"
  {
    PropertyResolves("dogs");
    SpellingDogs();
    One(Reference(PropertyRef("dogs")), "dogs", "", "dogs");
  }

  lemma GetPropertyExpressionNestedField()
    ensures Generate(Into(Into(Create(), Reference(PropertyRef("dog"))), Reference(PropertyRef("name")))) == "dog.name"
  {
    PropertyResolves("dog");
    PropertyResolves("name");
    SpellingDogName();
    Two(Reference(PropertyRef("dog")), Reference(PropertyRef("name")), "dog", "", "name", "", "dog.name");
  }

  lemma GetPropertyExpressionNestedFieldWithIndex()
    ensures Generate(Into(Into(Create(), Reference(PropertyRef("dog"))), Get(Reference(PropertyRef("loves")), Position(0)))) == "dog.loves[0]"
  {
    PropertyResolves("dog");
    PropertyResolves("loves");
    Chain1(PropertyRef("loves"), Position(0));
    TokensAt0();
    SpellingDogLovesAt0();
    Two(Reference(PropertyRef("dog")), Get(Reference(PropertyRef("loves")), Position(0)), "dog", "", "loves", "[0]", "dog.loves[0]");
  }

  lemma GetPropertyExpressionNestedFieldWithAllIndex()
    ensures Generate(Into(Into(Create(), Reference(PropertyRef("dog"))), Get(Reference(PropertyRef("loves")), Wildcard))) == "dog.loves[*]"
  {
    PropertyResolves("dog");
    PropertyResolves("loves");
    Chain1(PropertyRef("loves"), Wildcard);
    TokensAll();
    SpellingDogLovesAll();
    Two(Reference(PropertyRef("dog")), Get(Reference(PropertyRef("loves")), Wildcard), "dog", "", "loves", "[*]", "dog.loves[*]");
  }

  lemma GetPropertyExpressionListWithIndexOnce()
    ensures Generate(Into(Create(), Get(Reference(PropertyRef("dogs")), Position(1)))) == "dogs[1]"
  {
    PropertyResolves("dogs");
    Chain1(PropertyRef("dogs"), Position(1));
    TokensAt1();
    SpellingDogsAt1();
    One(Get(Reference(PropertyRef("dogs")), Position(1)), "dogs", "[1]", "dogs[1]");
  }

  lemma GetPropertyExpressionListWithAllIndexOnce()
    ensures Generate(Into(Create(), Get(Reference(PropertyRef("dogs")), Wildcard))) == "dogs[*]"
  {
    PropertyResolves("dogs");
    Chain1(PropertyRef("dogs"), Wildcard);
    TokensAll();
    SpellingDogsAll();
    One(Get(Reference(PropertyRef("dogs")), Wildcard), "dogs", "[*]", "dogs[*]");
  }

  lemma GetPropertyExpressionNestedListWithIndex()
    ensures Generate(Into(Create(), Get(Reference(PropertyRef("nestedDogs")), Position(1)))) == "nestedDogs[1]"
  {
    PropertyResolves("nestedDogs");
    Chain1(PropertyRef("nestedDogs"), Position(1));
    TokensAt1();
    SpellingNestedDogsAt1();
    One(Get(Reference(PropertyRef("nestedDogs")), Position(1)), "nestedDogs", "[1]", "nestedDogs[1]");
  }

  lemma GetPropertyExpressionNestedListWithAllIndex()
    ensures Generate(Into(Create(), Get(Reference(PropertyRef("nestedDogs")), Wildcard))) == "nestedDogs[*]"
  {
    PropertyResolves("nestedDogs");
    Chain1(PropertyRef("nestedDogs"), Wildcard);
    TokensAll();
    SpellingNestedDogsAll();
    One(Get(Reference(PropertyRef("nestedDogs")), Wildcard), "nestedDogs", "[*]", "nestedDogs[*]");
  }

  lemma GetPropertyExpressionListWithIndexAndAllIndex()
    ensures Generate(Into(Create(), Get(Get(Reference(PropertyRef("nestedDogs")), Position(1)), Wildcard))) == "nestedDogs[1][*]"
  {
    PropertyResolves("nestedDogs");
    Chain2(PropertyRef("nestedDogs"), Position(1), Wildcard);
    TokensAt1All();
    SpellingNestedDogsAt1All();
    One(Get(Get(Reference(PropertyRef("nestedDogs")), Position(1)), Wildcard), "nestedDogs", "[1][*]", "nestedDogs[1][*]");
  }

  lemma GetPropertyExpressionListWithAllIndexAndIndex()
    ensures Generate(Into(Create(), Get(Get(Reference(PropertyRef("nestedDogs")), Wildcard), Position(2)))) == "nestedDogs[*][2]"
  {
    PropertyResolves("nestedDogs");
    Chain2(PropertyRef("nestedDogs"), Wildcard, Position(2));
    TokensAllAt2();
    SpellingNestedDogsAllAt2();
    One(Get(Get(Reference(PropertyRef("nestedDogs")), Wildcard), Position(2)), "nestedDogs", "[*][2]", "nestedDogs[*][2]");
  }

  lemma GetPropertyExpressionListWithAllIndexTwiceWithField()
    ensures Generate(Into(Into(Create(), Get(Get(Reference(PropertyRef("nestedDogs")), Wildcard), Wildcard)), Reference(PropertyRef("name")))) == "nestedDogs[*][*].name"
  {
    PropertyResolves("nestedDogs");
    Chain2(PropertyRef("nestedDogs"), Wildcard, Wildcard);
    TokensAllAll();
    PropertyResolves("name");
    SpellingNestedDogsAllAllName();
    Two(Get(Get(Reference(PropertyRef("nestedDogs")), Wildcard), Wildcard), Reference(PropertyRef("name")), "nestedDogs", "[*][*]", "name", "", "nestedDogs[*][*].name");
  }

  /** The four spellings `ref[1][2]`, `(ref get 1 get 2)`, `(ref)[1][2]`, infix or dotted `into`, all denote this one term. */
  lemma GetPropertyExpressionListWithIndexTwiceWithField()
    ensures Generate(Into(Into(Create(), Get(Get(Reference(PropertyRef("nestedDogs")), Position(1)), Position(2))), Reference(PropertyRef("name")))) == "nestedDogs[1][2].name"
  {
    PropertyResolves("nestedDogs");
    Chain2(PropertyRef("nestedDogs"), Position(1), Position(2));
    TokensAt1At2();
    PropertyResolves("name");
    SpellingNestedDogsAt1At2Name();
    Two(Get(Get(Reference(PropertyRef("nestedDogs")), Position(1)), Position(2)), Reference(PropertyRef("name")), "nestedDogs", "[1][2]", "name", "", "nestedDogs[1][2].name");
  }

  lemma GetPropertyExpressionFieldWithIndexThrice()
    ensures Generate(Into(Create(), Get(Get(Get(Reference(PropertyRef("nestedThriceDogs")), Position(1)), Position(2)), Position(2)))) == "nestedThriceDogs[1][2][2]"
  {
    PropertyResolves("nestedThriceDogs");
    Chain3(PropertyRef("nestedThriceDogs"), Position(1), Position(2), Position(2));
    TokensAt1At2At2();
    SpellingNestedThriceDogsAt1At2At2();
    One(Get(Get(Get(Reference(PropertyRef("nestedThriceDogs")), Position(1)), Position(2)), Position(2)), "nestedThriceDogs", "[1][2][2]", "nestedThriceDogs[1][2][2]");
  }

  lemma GetPropertyExpressionFieldWithIndexThriceWithField()
    ensures Generate(Into(Into(Create(), Get(Get(Get(Reference(PropertyRef("nestedThriceDogs")), Position(1)), Position(2)), Position(2))), Reference(PropertyRef("name")))) == "nestedThriceDogs[1][2][2].name"
  {
    PropertyResolves("nestedThriceDogs");
    Chain3(PropertyRef("nestedThriceDogs"), Position(1), Position(2), Position(2));
    TokensAt1At2At2();
    PropertyResolves("name");
    SpellingNestedThriceDogsAt1At2At2Name();
    Two(Get(Get(Get(Reference(PropertyRef("nestedThriceDogs")), Position(1)), Position(2)), Position(2)), Reference(PropertyRef("name")), "nestedThriceDogs", "[1][2][2]", "name", "", "nestedThriceDogs[1][2][2].name");
  }

  lemma GetGetterExpressionField()
    ensures Generate(Into(Create(), Reference(FunctionRef("getDogs")))) == "dogs"
  {
    GetDogsResolves();
    SpellingDogs();
    One(Reference(FunctionRef("getDogs")), "dogs", "", "dogs");
  }

  lemma GetGetterExpressionNestedField()
    ensures Generate(Into(Into(Create(), Reference(FunctionRef("getDog"))), Reference(FunctionRef("getName")))) == "dog.name"
  {
    GetDogResolves();
    GetNameResolves();
    SpellingDogName();
    Two(Reference(FunctionRef("getDog")), Reference(FunctionRef("getName")), "dog", "", "name", "", "dog.name");
  }

  lemma GetGetterExpressionNestedFieldWithIndex()
    ensures Generate(Into(Into(Create(), Reference(FunctionRef("getDog"))), Get(Reference(FunctionRef("getLoves")), Position(0)))) == "dog.loves[0]"
  {
    GetDogResolves();
    GetLovesResolves();
    Chain1(FunctionRef("getLoves"), Position(0));
    TokensAt0();
    SpellingDogLovesAt0();
    Two(Reference(FunctionRef("getDog")), Get(Reference(FunctionRef("getLoves")), Position(0)), "dog", "", "loves", "[0]", "dog.loves[0]");
  }

  lemma GetGetterExpressionNestedFieldWithAllIndex()
    ensures Generate(Into(Into(Create(), Reference(FunctionRef("getDog"))), Get(Reference(FunctionRef("getLoves")), Wildcard))) == "dog.loves[*]"
  {
    GetDogResolves();
    GetLovesResolves();
    Chain1(FunctionRef("getLoves"), Wildcard);
    TokensAll();
    SpellingDogLovesAll();
    Two(Reference(FunctionRef("getDog")), Get(Reference(FunctionRef("getLoves")), Wildcard), "dog", "", "loves", "[*]", "dog.loves[*]");
  }

  lemma GetGetterExpressionListWithIndexOnce()
    ensures Generate(Into(Create(), Get(Reference(FunctionRef("getDogs")), Position(1)))) == "dogs[1]"
  {
    GetDogsResolves();
    Chain1(FunctionRef("getDogs"), Position(1));
    TokensAt1();
    SpellingDogsAt1();
    One(Get(Reference(FunctionRef("getDogs")), Position(1)), "dogs", "[1]", "dogs[1]");
  }

  lemma GetGetterExpressionListWithAllIndexOnce()
    ensures Generate(Into(Create(), Get(Reference(FunctionRef("getDogs")), Wildcard))) == "dogs[*]"
  {
    GetDogsResolves();
    Chain1(FunctionRef("getDogs"), Wildcard);
    TokensAll();
    SpellingDogsAll();
    One(Get(Reference(FunctionRef("getDogs")), Wildcard), "dogs", "[*]", "dogs[*]");
  }

  lemma GetGetterExpressionNestedListWithIndex()
    ensures Generate(Into(Create(), Get(Reference(FunctionRef("getNestedDogs")), Position(1)))) == "nestedDogs[1]"
  {
    GetNestedDogsResolves();
    Chain1(FunctionRef("getNestedDogs"), Position(1));
    TokensAt1();
    SpellingNestedDogsAt1();
    One(Get(Reference(FunctionRef("getNestedDogs")), Position(1)), "nestedDogs", "[1]", "nestedDogs[1]");
  }

  lemma GetGetterExpressionNestedListWithAllIndex()
    ensures Generate(Into(Create(), Get(Reference(FunctionRef("getNestedDogs")), Wildcard))) == "nestedDogs[*]"
  {
    GetNestedDogsResolves();
    Chain1(FunctionRef("getNestedDogs"), Wildcard);
    TokensAll();
    SpellingNestedDogsAll();
    One(Get(Reference(FunctionRef("getNestedDogs")), Wildcard), "nestedDogs", "[*]", "nestedDogs[*]");
  }

  lemma GetGetterExpressionListWithIndexAndAllIndex()
    ensures Generate(Into(Create(), Get(Get(Reference(FunctionRef("getNestedDogs")), Position(1)), Wildcard))) == "nestedDogs[1][*]"
  {
    GetNestedDogsResolves();
    Chain2(FunctionRef("getNestedDogs"), Position(1), Wildcard);
    TokensAt1All();
    SpellingNestedDogsAt1All();
    One(Get(Get(Reference(FunctionRef("getNestedDogs")), Position(1)), Wildcard), "nestedDogs", "[1][*]", "nestedDogs[1][*]");
  }

  lemma GetGetterExpressionListWithAllIndexAndIndex()
    ensures Generate(Into(Create(), Get(Get(Reference(FunctionRef("getNestedDogs")), Wildcard), Position(2)))) == "nestedDogs[*][2]"
  {
    GetNestedDogsResolves();
    Chain2(FunctionRef("getNestedDogs"), Wildcard, Position(2));
    TokensAllAt2();
    SpellingNestedDogsAllAt2();
    One(Get(Get(Reference(FunctionRef("getNestedDogs")), Wildcard), Position(2)), "nestedDogs", "[*][2]", "nestedDogs[*][2]");
  }

  lemma GetGetterExpressionListWithAllIndexTwiceWithField()
    ensures Generate(Into(Into(Create(), Get(Get(Reference(FunctionRef("getNestedDogs")), Wildcard), Wildcard)), Reference(FunctionRef("getName")))) == "nestedDogs[*][*].name"
  {
    GetNestedDogsResolves();
    Chain2(FunctionRef("getNestedDogs"), Wildcard, Wildcard);
    TokensAllAll();
    GetNameResolves();
    SpellingNestedDogsAllAllName();
    Two(Get(Get(Reference(FunctionRef("getNestedDogs")), Wildcard), Wildcard), Reference(FunctionRef("getName")), "nestedDogs", "[*][*]", "name", "", "nestedDogs[*][*].name");
  }

  /** The four spellings `ref[1][2]`, `(ref get 1 get 2)`, `(ref)[1][2]`, infix or dotted `into`, all denote this one term. */
  lemma GetGetterExpressionListWithIndexTwiceWithField()
    ensures Generate(Into(Into(Create(), Get(Get(Reference(FunctionRef("getNestedDogs")), Position(1)), Position(2))), Reference(FunctionRef("getName")))) == "nestedDogs[1][2].name"
  {
    GetNestedDogsResolves();
    Chain2(FunctionRef("getNestedDogs"), Position(1), Position(2));
    TokensAt1At2();
    GetNameResolves();
    SpellingNestedDogsAt1At2Name();
    Two(Get(Get(Reference(FunctionRef("getNestedDogs")), Position(1)), Position(2)), Reference(FunctionRef("getName")), "nestedDogs", "[1][2]", "name", "", "nestedDogs[1][2].name");
  }

  lemma GetGetterExpressionFieldWithIndexThrice()
    ensures Generate(Into(Create(), Get(Get(Get(Reference(FunctionRef("getNestedThriceDogs")), Position(1)), Position(2)), Position(2)))) == "nestedThriceDogs[1][2][2]"
  {
    GetNestedThriceDogsResolves();
    Chain3(FunctionRef("getNestedThriceDogs"), Position(1), Position(2), Position(2));
    TokensAt1At2At2();
    SpellingNestedThriceDogsAt1At2At2();
    One(Get(Get(Get(Reference(FunctionRef("getNestedThriceDogs")), Position(1)), Position(2)), Position(2)), "nestedThriceDogs", "[1][2][2]", "nestedThriceDogs[1][2][2]");
  }

  lemma GetGetterExpressionFieldWithIndexThriceWithField()
    ensures Generate(Into(Into(Create(), Get(Get(Get(Reference(FunctionRef("getNestedThriceDogs")), Position(1)), Position(2)), Position(2))), Reference(FunctionRef("getName")))) == "nestedThriceDogs[1][2][2].name"
  {
    GetNestedThriceDogsResolves();
    Chain3(FunctionRef("getNestedThriceDogs"), Position(1), Position(2), Position(2));
    TokensAt1At2At2();
    GetNameResolves();
    SpellingNestedThriceDogsAt1At2At2Name();
    Two(Get(Get(Get(Reference(FunctionRef("getNestedThriceDogs")), Position(1)), Position(2)), Position(2)), Reference(FunctionRef("getName")), "nestedThriceDogs", "[1][2][2]", "name", "", "nestedThriceDogs[1][2][2].name");
  }

  lemma NotGetter()
    ensures Generate(Into(Create(), Reference(FunctionRef("notGetter")))) == "notGetter"
  {
    NotGetterResolves();
    SpellingNotGetter();
    One(Reference(FunctionRef("notGetter")), "notGetter", "", "notGetter");
  }
}

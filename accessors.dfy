/**
 * Accessor-name resolution. A property reference (`Person::dogs`) or a
 * method reference (`PersonJava::getDogs`) is reduced to the raw name the
 * host's reflection reports; `Resolve` turns that name into the property
 * token that goes into the path.
 */
module Accessors {

  /** A symbolic reference, abstracted to the identifier it carries. */
  datatype Accessor =
    | PropertyRef(name: string)  // a field / Kotlin property reference
    | FunctionRef(name: string)  // a method reference, possibly a getter

  predicate IsUpper(c: char) {
    'A' <= c <= 'Z'
  }

  predicate IsLower(c: char) {
    'a' <= c <= 'z'
  }

  function ToLower(c: char): (l: char)
    ensures IsUpper(c) ==> IsLower(l)
    ensures !IsUpper(c) ==> l == c
  {
    if IsUpper(c) then (c as int + 32) as char else c
  }

  function ToUpper(c: char): (u: char)
    ensures IsLower(c) ==> IsUpper(u)
    ensures !IsLower(c) ==> u == c
  {
    if IsLower(c) then (c as int - 32) as char else c
  }

  /** A getter-style method name: `get` followed by an upper-case letter. */
  predicate IsGetterName(n: string) {
    |n| > 3 && n[0] == 'g' && n[1] == 'e' && n[2] == 't' && IsUpper(n[3])
  }

  /** The name of the getter of property `p`: `dogs` becomes `getDogs`. */
  function GetterName(p: string): (g: string)
    requires |p| > 0
  {
    "get" + [ToUpper(p[0])] + p[1..]
  }

  /** The property token an accessor stands for. */
  function Resolve(a: Accessor): (r: string)
    // a getter names the property it reads: the getter of `r` is the method itself
    ensures a.FunctionRef? && IsGetterName(a.name) ==>
      |r| == |a.name| - 3 && IsLower(r[0]) && GetterName(r) == a.name
    // a property reference, or a method that is not a getter, keeps its identifier
    ensures !(a.FunctionRef? && IsGetterName(a.name)) ==> r == a.name
  {
    match a
    case PropertyRef(n) => n
    case FunctionRef(n) =>
      if IsGetterName(n) then
        var r := [ToLower(n[3])] + n[4..];
        assert GetterName(r) == n by {
          assert ToUpper(ToLower(n[3])) == n[3];
          assert n == "get" + [n[3]] + n[4..];
        }
        r
      else n
  }

  /** A getter reference resolves to the same token as the property it reads. */
  lemma GetterResolvesToProperty(p: string)
    requires |p| > 0 && IsLower(p[0])
    ensures IsGetterName(GetterName(p))
    ensures Resolve(FunctionRef(GetterName(p))) == Resolve(PropertyRef(p))
  {
    var g := GetterName(p);
    assert g[3] == ToUpper(p[0]);
    assert ToLower(ToUpper(p[0])) == p[0];
    assert g[4..] == p[1..];
    assert p == [p[0]] + p[1..];
  }
}

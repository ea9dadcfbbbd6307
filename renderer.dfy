/**
 * The renderer behind `generate()`: the first field is written bare, every
 * later field is prefixed with `.`, and every index is written `[n]` or
 * `[*]` with nothing before it. `Parse` reads such a path back; it exists to
 * show that the rendered path is unambiguous.
 */
module Renderer {
  import opened Wrappers
  import opened Decimal
  import opened Nodes

  /** What stands between the brackets of an index token. */
  function IndexContent(i: Index): string {
    match i
    case Position(n) => FromNat(n)
    case Wildcard => "*"
  }

  /** The bracketed token of an index: `[2]` or `[*]`. */
  function IndexToken(i: Index): (t: string)
    ensures |t| >= 3 && t[0] == '[' && t[|t| - 1] == ']'
    ensures i.Wildcard? ==> t == "[*]"
    ensures i.Position? ==> IsCanonical(t[1..|t| - 1]) && ToNat(t[1..|t| - 1]) == i.n
  {
    var c := IndexContent(i);
    assert ("[" + c + "]")[1..|c| + 1] == c;
    match i
    case Position(n) => ToNatFromNat(n); "[" + c + "]"
    case Wildcard => "[" + c + "]"
  }

  /** The token of one node; `first` tells whether it opens the path. */
  function Token(n: Node, first: bool): string {
    match n
    case Field(name) => if first then name else "." + name
    case Element(i) => IndexToken(i)
  }

  function RenderFrom(e: seq<Node>, first: bool): string
    decreases |e|
  {
    if e == [] then "" else Token(e[0], first) + RenderFrom(e[1..], false)
  }

  /** The canonical path of a node sequence. */
  function Render(e: seq<Node>): string {
    RenderFrom(e, true)
  }

  /** Concatenated tokens of a run of indices: `[1][*][2]`. */
  function IndicesText(indices: seq<Index>): string
    decreases |indices|
  {
    if indices == [] then "" else IndexToken(indices[0]) + IndicesText(indices[1..])
  }

  // ---------------------------------------------------------------------
  // Rendering distributes over appending

  lemma {:induction false} RenderFromConcat(a: seq<Node>, b: seq<Node>, first: bool)
    ensures RenderFrom(a + b, first) == RenderFrom(a, first) + RenderFrom(b, first && a == [])
    decreases |a|
  {
    if a != [] {
      var t := Token(a[0], first);
      assert (a + b)[0] == a[0] && (a + b)[1..] == a[1..] + b;
      RenderFromConcat(a[1..], b, false);
      assert RenderFrom(a + b, first) == t + (RenderFrom(a[1..], false) + RenderFrom(b, false));
    } else {
      assert a + b == b;
    }
  }

  /**
   * The path of a concatenation is the path of its front followed by the
   * tokens of its back; the back's first field gets its `.` unless the
   * front is empty.
   */
  lemma RenderConcat(a: seq<Node>, b: seq<Node>)
    ensures Render(a + b) == Render(a) + RenderFrom(b, a == [])
  {
    RenderFromConcat(a, b, true);
  }

  /** Appending one node appends exactly its token: rendering never rewrites what is already there. */
  lemma RenderAppend(e: seq<Node>, n: Node)
    ensures Render(e + [n]) == Render(e) + Token(n, e == [])
  {
    RenderConcat(e, [n]);
  }

  /** A field after anything joins with exactly one `.`. */
  lemma RenderAppendField(e: seq<Node>, name: string)
    ensures Render(e + [Field(name)]) == if e == [] then name else Render(e) + "." + name
  {
    RenderAppend(e, Field(name));
  }

  /** An index after anything is its bracketed token, with no separator. */
  lemma RenderAppendIndex(e: seq<Node>, i: Index)
    ensures Render(e + [Element(i)]) == Render(e) + IndexToken(i)
  {
    RenderAppend(e, Element(i));
  }

  lemma RenderFromCons(n: Node, rest: seq<Node>, first: bool)
    ensures RenderFrom([n] + rest, first) == Token(n, first) + RenderFrom(rest, false)
  {
    assert ([n] + rest)[0] == n && ([n] + rest)[1..] == rest;
  }

  /** A run of index nodes renders as its bracketed tokens side by side, wherever it stands. */
  lemma {:induction false} RenderFromElements(indices: seq<Index>, first: bool)
    ensures RenderFrom(Elements(indices), first) == IndicesText(indices)
    decreases |indices|
  {
    if indices != [] {
      assert Elements(indices)[1..] == Elements(indices[1..]);
      RenderFromElements(indices[1..], false);
    }
  }

  /** One more index on a run adds its token at the end. */
  lemma {:induction false} IndicesTextAppend(indices: seq<Index>, i: Index)
    ensures IndicesText(indices + [i]) == IndicesText(indices) + IndexToken(i)
    decreases |indices|
  {
    if indices == [] {
      assert indices + [i] == [i];
    } else {
      assert (indices + [i])[1..] == indices[1..] + [i];
      IndicesTextAppend(indices[1..], i);
    }
  }

  /** A field followed by a run of indices, appended to any prefix. */
  lemma RenderFieldIndices(prefix: seq<Node>, name: string, indices: seq<Index>)
    ensures Render(prefix + ([Field(name)] + Elements(indices))) ==
      (if prefix == [] then "" else Render(prefix) + ".") + name + IndicesText(indices)
  {
    var es := Elements(indices);
    RenderConcat(prefix, [Field(name)] + es);
    RenderFromCons(Field(name), es, prefix == []);
    RenderFromElements(indices, false);
    if prefix != [] {
      var p, text := Render(prefix), IndicesText(indices);
      assert p + ("." + name + text) == p + "." + name + text;
    }
  }

  /** Rendering is monotone in the node sequence: a prefix renders to a prefix. */
  lemma RenderPrefix(a: seq<Node>, b: seq<Node>)
    ensures Render(a) <= Render(a + b)
  {
    RenderConcat(a, b);
  }

  // ---------------------------------------------------------------------
  // Reading a path back

  /** Length of the leading name: up to the first `.` or `[`. */
  function NameEnd(s: string): (k: nat)
    ensures k <= |s|
    ensures forall j :: 0 <= j < k ==> s[j] != '.' && s[j] != '['
    ensures k < |s| ==> s[k] == '.' || s[k] == '['
    decreases |s|
  {
    if s == [] || s[0] == '.' || s[0] == '[' then 0 else 1 + NameEnd(s[1..])
  }

  /** Position of the first `]`, or the length when there is none. */
  function CloseEnd(s: string): (k: nat)
    ensures k <= |s|
    ensures forall j :: 0 <= j < k ==> s[j] != ']'
    ensures k < |s| ==> s[k] == ']'
    decreases |s|
  {
    if s == [] || s[0] == ']' then 0 else 1 + CloseEnd(s[1..])
  }

  function ParseIndex(c: string): Option<Index> {
    if c == "*" then Some(Wildcard)
    else if IsCanonical(c) then Some(Position(ToNat(c)))
    else None
  }

  /** Reads the tokens of a path; `first` tells whether a bare name may open it. */
  function ParseFrom(s: string, first: bool): Option<seq<Node>>
    decreases |s|
  {
    if s == [] then Some([])
    else if s[0] == '[' then
      var k := CloseEnd(s[1..]);
      if k == |s| - 1 then None
      else
        match ParseIndex(s[1..k + 1])
        case None => None
        case Some(i) =>
          match ParseFrom(s[k + 2..], false)
          case None => None
          case Some(rest) => Some([Element(i)] + rest)
    else if s[0] == '.' then
      if first then None
      else
        var k := NameEnd(s[1..]);
        var name := s[1..k + 1];
        if !ValidName(name) then None
        else
          match ParseFrom(s[k + 1..], false)
          case None => None
          case Some(rest) => Some([Field(name)] + rest)
    else if first then
      var k := NameEnd(s);
      var name := s[..k];
      if !ValidName(name) then None
      else
        match ParseFrom(s[k..], false)
        case None => None
        case Some(rest) => Some([Field(name)] + rest)
    else None
  }

  /** Reads a whole path; a path may not open with an index. */
  function Parse(s: string): Option<seq<Node>> {
    if s != [] && s[0] == '[' then None else ParseFrom(s, true)
  }

  // ---------------------------------------------------------------------
  // Render and Parse are inverse

  lemma {:induction false} NameEndOf(name: string, rest: string)
    requires forall j :: 0 <= j < |name| ==> name[j] != '.' && name[j] != '['
    requires rest == [] || rest[0] == '.' || rest[0] == '['
    ensures NameEnd(name + rest) == |name|
    decreases |name|
  {
    if name == [] {
      assert name + rest == rest;
    } else {
      assert (name + rest)[1..] == name[1..] + rest;
      NameEndOf(name[1..], rest);
    }
  }

  lemma {:induction false} CloseEndOf(content: string, rest: string)
    requires forall j :: 0 <= j < |content| ==> content[j] != ']'
    ensures CloseEnd(content + "]" + rest) == |content|
    decreases |content|
  {
    if content != [] {
      assert (content + "]" + rest)[1..] == content[1..] + "]" + rest;
      CloseEndOf(content[1..], rest);
    }
  }

  lemma ParseIndexContent(i: Index)
    ensures ParseIndex(IndexContent(i)) == Some(i)
  {
    if i.Position? {
      ToNatFromNat(i.n);
    }
  }

  /** Every token after the first opens with `.` or `[`. */
  lemma RenderFromLaterStart(e: seq<Node>)
    ensures var s := RenderFrom(e, false); s == [] || s[0] == '.' || s[0] == '['
  {
  }

  /** Puts `n` in front of a parsed remainder, if there is one. */
  function Prepend(n: Node, rest: Option<seq<Node>>): Option<seq<Node>> {
    match rest
    case None => None
    case Some(r) => Some([n] + r)
  }

  /** Where the pieces of an index token followed by `rest` sit. */
  lemma IndexTokenSplit(i: Index, rest: string)
    ensures var s, c := IndexToken(i) + rest, IndexContent(i);
      s != [] && s[0] == '[' && |c| + 1 < |s| && CloseEnd(s[1..]) == |c| &&
      s[1..|c| + 1] == c && s[|c| + 2..] == rest
  {
    var c := IndexContent(i);
    var s := IndexToken(i) + rest;
    assert s == "[" + (c + "]" + rest);
    CloseEndOf(c, rest);
    assert s[1..] == c + "]" + rest;
  }

  lemma ParseElementStep(i: Index, rest: string, first: bool)
    ensures ParseFrom(IndexToken(i) + rest, first) == Prepend(Element(i), ParseFrom(rest, false))
  {
    IndexTokenSplit(i, rest);
    ParseIndexContent(i);
  }

  /** Where the name of an opening field token followed by `rest` sits. */
  lemma BareFieldSplit(name: string, rest: string)
    requires ValidName(name)
    requires rest == [] || rest[0] == '.' || rest[0] == '['
    ensures var s := name + rest;
      s[0] != '.' && s[0] != '[' && NameEnd(s) == |name| && s[..|name|] == name && s[|name|..] == rest
  {
    NameEndOf(name, rest);
  }

  /** Where the name of a later field token followed by `rest` sits. */
  lemma DottedFieldSplit(name: string, rest: string)
    requires ValidName(name)
    requires rest == [] || rest[0] == '.' || rest[0] == '['
    ensures var s := "." + name + rest;
      s[0] == '.' && NameEnd(s[1..]) == |name| && s[1..|name| + 1] == name && s[|name| + 1..] == rest
  {
    NameEndOf(name, rest);
    var s := "." + name + rest;
    assert s[1..] == name + rest;
  }

  lemma ParseFieldStep(name: string, rest: string, first: bool)
    requires ValidName(name)
    requires rest == [] || rest[0] == '.' || rest[0] == '['
    ensures ParseFrom(Token(Field(name), first) + rest, first) == Prepend(Field(name), ParseFrom(rest, false))
  {
    if first {
      BareFieldSplit(name, rest);
    } else {
      DottedFieldSplit(name, rest);
      assert Token(Field(name), first) + rest == "." + name + rest;
    }
  }

  /** One token, then whatever follows it. */
  lemma ParseTokenStep(n: Node, rest: string, first: bool)
    requires n.Field? ==> ValidName(n.name) && (rest == [] || rest[0] == '.' || rest[0] == '[')
    ensures ParseFrom(Token(n, first) + rest, first) == Prepend(n, ParseFrom(rest, false))
  {
    if n.Element? {
      ParseElementStep(n.index, rest, first);
    } else {
      ParseFieldStep(n.name, rest, first);
    }
  }

  lemma ValidNodesTail(e: seq<Node>)
    requires e != [] && ValidNodes(e)
    ensures ValidNodes(e[1..])
  {
    forall j | 0 <= j < |e[1..]| && e[1..][j].Field?
      ensures ValidName(e[1..][j].name)
    {
      assert e[1..][j] == e[j + 1];
    }
  }

  lemma {:induction false} ParseRenderFrom(e: seq<Node>, first: bool)
    requires ValidNodes(e)
    requires first && e != [] ==> e[0].Field?
    ensures ParseFrom(RenderFrom(e, first), first) == Some(e)
    decreases |e|
  {
    if e != [] {
      var rest := RenderFrom(e[1..], false);
      assert RenderFrom(e, first) == Token(e[0], first) + rest;
      ValidNodesTail(e);
      ParseRenderFrom(e[1..], false);
      RenderFromLaterStart(e[1..]);
      ParseTokenStep(e[0], rest, first);
      assert ParseFrom(Token(e[0], first) + rest, first) == Prepend(e[0], Some(e[1..]));
      assert [e[0]] + e[1..] == e;
    }
  }

  /** Reading a rendered well-formed path gives back the node sequence it came from. */
  lemma ParseRender(e: seq<Node>)
    requires WellFormed(e)
    ensures Parse(Render(e)) == Some(e)
  {
    ParseRenderFrom(e, true);
  }

  lemma IndexContentOfParse(c: string, i: Index)
    requires ParseIndex(c) == Some(i)
    ensures IndexContent(i) == c
  {
    if c != "*" {
      FromNatToNat(c);
    }
  }

  lemma ParseElementBack(s: string, first: bool, e: seq<Node>) returns (i: Index, r: string, tail: seq<Node>)
    requires s != [] && s[0] == '[' && ParseFrom(s, first) == Some(e)
    ensures |r| < |s| && ParseFrom(r, false) == Some(tail)
    ensures e == [Element(i)] + tail && s == IndexToken(i) + r
  {
    var k := CloseEnd(s[1..]);
    var c := s[1..k + 1];
    i := ParseIndex(c).value;
    r := s[k + 2..];
    tail := ParseFrom(r, false).value;
    IndexContentOfParse(c, i);
    assert s == "[" + c + "]" + r;
  }

  lemma ParseFieldBack(s: string, first: bool, e: seq<Node>) returns (name: string, r: string, tail: seq<Node>)
    requires s != [] && s[0] != '[' && ParseFrom(s, first) == Some(e)
    ensures ValidName(name)
    ensures |r| < |s| && ParseFrom(r, false) == Some(tail)
    ensures e == [Field(name)] + tail && s == Token(Field(name), first) + r
  {
    if s[0] == '.' {
      var k := NameEnd(s[1..]);
      name := s[1..k + 1];
      r := s[k + 1..];
      tail := ParseFrom(r, false).value;
      assert s == "." + name + r;
    } else {
      var k := NameEnd(s);
      name := s[..k];
      r := s[k..];
      tail := ParseFrom(r, false).value;
      assert s == name + r;
    }
  }

  lemma {:induction false} RenderParseFrom(s: string, first: bool, e: seq<Node>)
    requires ParseFrom(s, first) == Some(e)
    ensures ValidNodes(e)
    ensures RenderFrom(e, first) == s
    ensures e != [] ==> (e[0].Field? <==> s[0] != '[')
    decreases |s|
  {
    if s != [] {
      var n, r, tail;
      if s[0] == '[' {
        var i;
        i, r, tail := ParseElementBack(s, first, e);
        n := Element(i);
      } else {
        var name;
        name, r, tail := ParseFieldBack(s, first, e);
        n := Field(name);
      }
      RenderParseFrom(r, false, tail);
      assert e[0] == n && e[1..] == tail;
      assert RenderFrom(e, first) == Token(n, first) + RenderFrom(tail, false);
      forall j | 0 <= j < |e| && e[j].Field?
        ensures ValidName(e[j].name)
      {
        if j > 0 {
          assert e[j] == tail[j - 1];
        }
      }
    }
  }

  /** Whatever reads as a path is the rendering of what it reads as: the renderer's image is exactly the readable paths. */
  lemma RenderParse(s: string, e: seq<Node>)
    requires Parse(s) == Some(e)
    ensures WellFormed(e)
    ensures Render(e) == s
  {
    RenderParseFrom(s, true, e);
  }

  /** Two well-formed expressions with the same path are the same expression. */
  lemma RenderInjective(a: seq<Node>, b: seq<Node>)
    requires WellFormed(a) && WellFormed(b)
    requires Render(a) == Render(b)
    ensures a == b
  {
    ParseRender(a);
    ParseRender(b);
  }
}

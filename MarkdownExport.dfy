/** The Markdown export of the article page: the generated HTML is parsed into
    a detached `div`, every element below it is visited in document order
    (`querySelectorAll('*')`), and each visited element appends a fragment
    chosen by its tag name. Parsing is not modelled: the element tree is the
    input. */
module MarkdownExport {
  import opened JsString

  /** A node of the parsed fragment: a text node, or an element with its DOM
      `tagName` (upper case for HTML elements) and its children. */
  datatype Node = Text(data: Str) | Element(tagName: Str, children: seq<Node>)

  /** An element as the walk sees it: its tag name, its children, and the
      tag name of its parent element. */
  datatype Visited = Visited(tagName: Str, children: seq<Node>, parentTagName: Str)

  /** `tagName` of the `div` the fragment is parsed into; it is the parent of
      every top-level element. */
  const WrapperTagName: Str := Units("DIV")

  /** `textContent`: the data of every descendant text node, in document
      order. */
  function TextOf(nodes: seq<Node>): Str
    decreases nodes
  {
    if nodes == [] then []
    else
      (match nodes[0]
        case Text(d) => d
        case Element(_, kids) => TextOf(kids))
      + TextOf(nodes[1..])
  }

  /** The elements among `nodes` and their descendants in document (pre-)order,
      each with the tag name of its parent; `parentTagName` is the tag name of
      the element holding `nodes`. */
  function Walk(nodes: seq<Node>, parentTagName: Str): seq<Visited>
    decreases nodes
  {
    if nodes == [] then []
    else
      (match nodes[0]
        case Text(_) => []
        case Element(t, kids) => [Visited(t, kids, parentTagName)] + Walk(kids, t))
      + Walk(nodes[1..], parentTagName)
  }

  /** `tagName.match(/LI|UL|OL/)` succeeds: the pattern is unanchored and
      case-sensitive, so it matches any tag name containing one of the three
      words. */
  predicate IsListTagName(tagName: Str)
  {
    HasInfix(tagName, Units("LI")) || HasInfix(tagName, Units("UL")) || HasInfix(tagName, Units("OL"))
  }

  /** The Markdown one visited element contributes. */
  function Fragment(v: Visited): (r: Str)
  {
    var tag := LowerAscii(v.tagName);
    var text := TextOf(v.children);
    if tag == Units("h1") then Units("# ") + text + Units("\n\n")
    else if tag == Units("h2") then Units("## ") + text + Units("\n\n")
    else if tag == Units("h3") then Units("### ") + text + Units("\n\n")
    else if tag == Units("p") && !IsListTagName(v.parentTagName) then text + Units("\n\n")
    else if tag == Units("li") then Units("- ") + text + Units("\n")
    else if tag == Units("strong") then Units("**") + text + Units("**")
    else []
  }

  /** The fragments of a sequence of visited elements, in order. */
  function Fragments(vs: seq<Visited>): seq<Str>
  {
    seq(|vs|, i requires 0 <= i < |vs| => Fragment(vs[i]))
  }

  /** The export of `nodes` held by an element named `parentTagName`. */
  function ExportUnder(nodes: seq<Node>, parentTagName: Str): Str
  {
    Concat(Fragments(Walk(nodes, parentTagName)))
  }

  /** The whole Markdown export of a parsed article. */
  function Markdown(roots: seq<Node>): Str
  {
    ExportUnder(roots, WrapperTagName)
  }

  /** The `forEach` callback: the if-chain on the lower-cased tag name appends
      the visited element's fragment to `markdown`. */
  method AppendFragment(markdown: Str, el: Visited) returns (extended: Str)
    ensures extended == markdown + Fragment(el)
  {
    var tag := LowerAscii(el.tagName);
    var text := TextOf(el.children);
    ghost var piece := Fragment(el);
    extended := markdown;
    if tag == Units("h1") {
      assert piece == Units("# ") + text + Units("\n\n");
      extended := extended + (Units("# ") + text + Units("\n\n"));
    } else if tag == Units("h2") {
      assert piece == Units("## ") + text + Units("\n\n");
      extended := extended + (Units("## ") + text + Units("\n\n"));
    } else if tag == Units("h3") {
      assert piece == Units("### ") + text + Units("\n\n");
      extended := extended + (Units("### ") + text + Units("\n\n"));
    } else if tag == Units("p") && !IsListTagName(el.parentTagName) {
      assert piece == text + Units("\n\n");
      extended := extended + (text + Units("\n\n"));
    } else if tag == Units("li") {
      assert piece == Units("- ") + text + Units("\n");
      extended := extended + (Units("- ") + text + Units("\n"));
    } else if tag == Units("strong") {
      assert piece == Units("**") + text + Units("**");
      extended := extended + (Units("**") + text + Units("**"));
    } else {
      assert piece == [];
    }
  }

  /** The `forEach` loop: starting from the empty string, append each visited
      element's fragment in turn. The result is the join of the fragments of
      the elements in the order given. */
  method BuildMarkdown(elements: seq<Visited>) returns (markdown: Str)
    ensures markdown == Concat(Fragments(elements))
  {
    markdown := [];
    for k := 0 to |elements|
      invariant markdown == Concat(Fragments(elements[..k]))
    {
      markdown := AppendFragment(markdown, elements[k]);
      assert elements[..k + 1] == elements[..k] + [elements[k]];
      assert Fragments(elements[..k + 1]) == Fragments(elements[..k]) + [Fragment(elements[k])];
      ConcatAppend(Fragments(elements[..k]), [Fragment(elements[k])]);
    }
    assert elements[..|elements|] == elements;
  }

  // ---------------------------------------------------------------------------
  // Properties of the export

  /** Walking two runs of siblings walks the first, then the second. */
  lemma {:induction false} WalkAppend(a: seq<Node>, b: seq<Node>, parentTagName: Str)
    ensures Walk(a + b, parentTagName) == Walk(a, parentTagName) + Walk(b, parentTagName)
    decreases a
  {
    if a == [] {
      assert a + b == b;
    } else {
      assert (a + b)[0] == a[0];
      assert (a + b)[1..] == a[1..] + b;
      WalkAppend(a[1..], b, parentTagName);
    }
  }

  /** The export of two runs of siblings is the export of the first followed
      by the export of the second: fragments are emitted in document order. */
  lemma ExportAppend(a: seq<Node>, b: seq<Node>, parentTagName: Str)
    ensures ExportUnder(a + b, parentTagName) == ExportUnder(a, parentTagName) + ExportUnder(b, parentTagName)
  {
    WalkAppend(a, b, parentTagName);
    var wa, wb := Walk(a, parentTagName), Walk(b, parentTagName);
    assert Fragments(wa + wb) == Fragments(wa) + Fragments(wb);
    ConcatAppend(Fragments(wa), Fragments(wb));
  }

  /** A text node contributes nothing by itself. */
  lemma ExportText(d: Str, parentTagName: Str)
    ensures ExportUnder([Text(d)], parentTagName) == []
  {
    assert [Text(d)][1..] == [];
    assert Walk([Text(d)], parentTagName) == [];
    assert Fragments([]) == [];
  }

  /** One element contributes its own fragment, followed by the export of its
      children, which see it as their parent. */
  lemma {:induction false} ExportElement(t: Str, kids: seq<Node>, parentTagName: Str)
    ensures ExportUnder([Element(t, kids)], parentTagName)
         == Fragment(Visited(t, kids, parentTagName)) + ExportUnder(kids, t)
  {
    var w := Walk(kids, t);
    assert [Element(t, kids)][1..] == [];
    assert Walk([Element(t, kids)], parentTagName) == [Visited(t, kids, parentTagName)] + w;
    assert Fragments([Visited(t, kids, parentTagName)] + w) == [Fragment(Visited(t, kids, parentTagName))] + Fragments(w);
  }

  /** The parent's tag name matters only through the list-tag test of `p`: two
      parents that agree on it give the same export. */
  lemma {:induction false} ExportParentOnlyGuardsParagraphs(nodes: seq<Node>, p1: Str, p2: Str)
    requires IsListTagName(p1) == IsListTagName(p2)
    ensures ExportUnder(nodes, p1) == ExportUnder(nodes, p2)
    decreases nodes
  {
    if nodes != [] {
      assert nodes == [nodes[0]] + nodes[1..];
      ExportAppend([nodes[0]], nodes[1..], p1);
      ExportAppend([nodes[0]], nodes[1..], p2);
      ExportParentOnlyGuardsParagraphs(nodes[1..], p1, p2);
      match nodes[0]
      case Text(d) =>
        ExportText(d, p1);
        ExportText(d, p2);
      case Element(t, kids) =>
        ExportElement(t, kids, p1);
        ExportElement(t, kids, p2);
    }
  }

  /** An element whose tag is none of h1, h2, h3, p, li, strong adds no text
      of its own; when its tag name also agrees with its parent's on the
      list-tag test, it is invisible to the export. */
  lemma TransparentElement(t: Str, kids: seq<Node>, parentTagName: Str)
    requires LowerAscii(t) !in {Units("h1"), Units("h2"), Units("h3"), Units("p"), Units("li"), Units("strong")}
    requires IsListTagName(t) == IsListTagName(parentTagName)
    ensures ExportUnder([Element(t, kids)], parentTagName) == ExportUnder(kids, parentTagName)
  {
    ExportElement(t, kids, parentTagName);
    ExportParentOnlyGuardsParagraphs(kids, t, parentTagName);
  }

  // ---------------------------------------------------------------------------
  // Fragments by tag, for elements as the HTML parser names them

  /** `<h1>`, `<h2>`, `<h3>` give one, two or three `#`, a space, the text and
      a blank line. */
  lemma FragmentOfHeadings(kids: seq<Node>, parentTagName: Str)
    ensures Fragment(Visited(Units("H1"), kids, parentTagName)) == Units("# ") + TextOf(kids) + Units("\n\n")
    ensures Fragment(Visited(Units("H2"), kids, parentTagName)) == Units("## ") + TextOf(kids) + Units("\n\n")
    ensures Fragment(Visited(Units("H3"), kids, parentTagName)) == Units("### ") + TextOf(kids) + Units("\n\n")
  {
    assert LowerAscii(Units("H1")) == Units("h1");
    assert LowerAscii(Units("H2")) == Units("h2");
    assert LowerAscii(Units("H3")) == Units("h3");
    assert Units("h2") != Units("h1") by {
      assert Units("h2")[1] != Units("h1")[1];
    }
    assert Units("h3") != Units("h1") && Units("h3") != Units("h2") by {
      assert Units("h3")[1] != Units("h1")[1] && Units("h3")[1] != Units("h2")[1];
    }
  }

  /** `<p>` gives its text and a blank line, unless its parent's tag name
      contains LI, UL or OL, in which case it gives nothing. */
  lemma FragmentOfParagraph(kids: seq<Node>, parentTagName: Str)
    ensures Fragment(Visited(Units("P"), kids, parentTagName))
         == if IsListTagName(parentTagName) then [] else TextOf(kids) + Units("\n\n")
  {
  }

  /** `<li>` gives a `- ` bullet line, whatever its parent. */
  lemma FragmentOfListItem(kids: seq<Node>, parentTagName: Str)
    ensures Fragment(Visited(Units("LI"), kids, parentTagName)) == Units("- ") + TextOf(kids) + Units("\n")
  {
    assert LowerAscii(Units("LI")) == Units("li");
    assert Units("li")[0] != Units("h1")[0];
  }

  /** `<strong>` gives its text between `**` pairs, with no line break. */
  lemma FragmentOfStrong(kids: seq<Node>, parentTagName: Str)
    ensures Fragment(Visited(Units("STRONG"), kids, parentTagName)) == Units("**") + TextOf(kids) + Units("**")
  {
  }

  /** Every other tag gives nothing of its own. */
  lemma FragmentOfOtherTags(t: Str, kids: seq<Node>, parentTagName: Str)
    requires LowerAscii(t) !in {Units("h1"), Units("h2"), Units("h3"), Units("p"), Units("li"), Units("strong")}
    ensures Fragment(Visited(t, kids, parentTagName)) == []
  {
  }

  /** `<ul>` and `<ol>` give nothing of their own; their items do. */
  lemma FragmentOfListContainers(kids: seq<Node>, parentTagName: Str)
    ensures Fragment(Visited(Units("UL"), kids, parentTagName)) == []
    ensures Fragment(Visited(Units("OL"), kids, parentTagName)) == []
  {
    assert LowerAscii(Units("UL")) == Units("ul");
    assert LowerAscii(Units("OL")) == Units("ol");
    assert Units("ul")[0] != Units("h1")[0] && Units("ul")[0] != Units("li")[0];
    assert Units("ol")[0] != Units("h1")[0] && Units("ol")[0] != Units("li")[0];
  }

  /** The `div` wrapper, `<ul>` and `<ol>` are not list tags / are list tags
      for the paragraph test. */
  lemma ListTagNames()
    ensures !IsListTagName(WrapperTagName)
    ensures IsListTagName(Units("UL")) && IsListTagName(Units("OL")) && IsListTagName(Units("LI"))
  {
    NoInfixWithoutFirstUnit(WrapperTagName, Units("LI"));
    NoInfixWithoutFirstUnit(WrapperTagName, Units("UL"));
    NoInfixWithoutFirstUnit(WrapperTagName, Units("OL"));
  }

  /** A word cannot occur where its first code unit never does. */
  lemma {:induction false} NoInfixWithoutFirstUnit(hay: Str, needle: Str)
    requires needle != []
    requires forall i :: 0 <= i < |hay| ==> hay[i] != needle[0]
    ensures !HasInfix(hay, needle)
    decreases |hay|
  {
    if |hay| >= |needle| {
      assert hay[..|needle|][0] != needle[0];
      NoInfixWithoutFirstUnit(hay[1..], needle);
    }
  }

  // ---------------------------------------------------------------------------
  // Worked exports

  /** An element holding a single text node contributes exactly its own
      fragment. */
  lemma ExportLeaf(t: Str, d: Str, parentTagName: Str)
    ensures ExportUnder([Element(t, [Text(d)])], parentTagName) == Fragment(Visited(t, [Text(d)], parentTagName))
  {
    ExportElement(t, [Text(d)], parentTagName);
    ExportText(d, t);
  }

  /** Three sibling nodes export one after the other. */
  lemma ExportThree(a: Node, b: Node, c: Node, parentTagName: Str)
    ensures ExportUnder([a, b, c], parentTagName)
         == ExportUnder([a], parentTagName) + ExportUnder([b], parentTagName) + ExportUnder([c], parentTagName)
  {
    assert [a, b, c] == [a] + [b] + [c];
    ExportAppend([a] + [b], [c], parentTagName);
    ExportAppend([a], [b], parentTagName);
  }

  /** `<h1>Title</h1>` directly in the wrapper gives one heading line. */
  lemma ExampleHeading(title: Str)
    ensures ExportUnder([Element(Units("H1"), [Text(title)])], WrapperTagName) == Units("# ") + title + Units("\n\n")
  {
    ExportLeaf(Units("H1"), title, WrapperTagName);
    FragmentOfHeadings([Text(title)], WrapperTagName);
  }

  /** `<p>Body</p>` directly in the wrapper gives one paragraph. */
  lemma ExampleParagraph(body: Str)
    ensures ExportUnder([Element(Units("P"), [Text(body)])], WrapperTagName) == body + Units("\n\n")
  {
    ExportLeaf(Units("P"), body, WrapperTagName);
    FragmentOfParagraph([Text(body)], WrapperTagName);
    ListTagNames();
  }

  /** `<ul><li>Item</li></ul>` gives one bullet line; the `ul` adds nothing. */
  lemma ExampleList(item: Str)
    ensures ExportUnder([Element(Units("UL"), [Element(Units("LI"), [Text(item)])])], WrapperTagName)
         == Units("- ") + item + Units("\n")
  {
    var li := Element(Units("LI"), [Text(item)]);
    ExportElement(Units("UL"), [li], WrapperTagName);
    FragmentOfListContainers([li], WrapperTagName);
    ExportLeaf(Units("LI"), item, Units("UL"));
    FragmentOfListItem([Text(item)], Units("UL"));
  }

  /** `<h1>Title</h1><p>Body</p><ul><li>Item</li></ul>` exports as
      "# Title\n\nBody\n\n- Item\n": the `ul` adds nothing of its own, for
      any texts in place of Title, Body and Item. */
  lemma ExampleHeadingParagraphList(title: Str, body: Str, item: Str)
    ensures Markdown([
              Element(Units("H1"), [Text(title)]),
              Element(Units("P"), [Text(body)]),
              Element(Units("UL"), [Element(Units("LI"), [Text(item)])])])
         == Units("# ") + title + Units("\n\n") + body + Units("\n\n") + Units("- ") + item + Units("\n")
  {
    var h1 := Element(Units("H1"), [Text(title)]);
    var p := Element(Units("P"), [Text(body)]);
    var li := Element(Units("LI"), [Text(item)]);
    var ul := Element(Units("UL"), [li]);
    var m1, m2, m3 := Units("# ") + title + Units("\n\n"), body + Units("\n\n"), Units("- ") + item + Units("\n");
    calc {
      Markdown([h1, p, ul]);
      { ExportThree(h1, p, ul, WrapperTagName); }
      ExportUnder([h1], WrapperTagName) + ExportUnder([p], WrapperTagName) + ExportUnder([ul], WrapperTagName);
      { ExampleHeading(title); ExampleParagraph(body); ExampleList(item); }
      m1 + m2 + m3;
    }
  }

  /** Text inside nested listed elements is emitted once per element:
      `<h1><strong>T</strong></h1>` exports as "# T\n\n**T**". */
  lemma ExampleNestedStrong(t: Str)
    ensures Markdown([Element(Units("H1"), [Element(Units("STRONG"), [Text(t)])])])
         == Units("# ") + t + Units("\n\n") + Units("**") + t + Units("**")
  {
    var strong := Element(Units("STRONG"), [Text(t)]);
    ExportElement(Units("H1"), [strong], WrapperTagName);
    var heading := Fragment(Visited(Units("H1"), [strong], WrapperTagName));
    var inner := ExportUnder([strong], Units("H1"));
    assert heading == Units("# ") + t + Units("\n\n") by {
      assert TextOf([strong]) == t by {
        assert [strong][1..] == [];
        assert [Text(t)][1..] == [];
      }
      FragmentOfHeadings([strong], WrapperTagName);
    }
    assert inner == Units("**") + t + Units("**") by {
      ExportLeaf(Units("STRONG"), t, Units("H1"));
      FragmentOfStrong([Text(t)], Units("H1"));
    }
  }

  /** A paragraph directly inside a list item is dropped; only the bullet
      carries its text: `<ul><li><p>A</p></li></ul>` exports as "- A\n". */
  lemma ExampleParagraphInListItem(a: Str)
    ensures Markdown([Element(Units("UL"), [Element(Units("LI"), [Element(Units("P"), [Text(a)])])])])
         == Units("- ") + a + Units("\n")
  {
    var p := Element(Units("P"), [Text(a)]);
    var li := Element(Units("LI"), [p]);
    ListTagNames();
    ExportElement(Units("UL"), [li], WrapperTagName);
    FragmentOfListContainers([li], WrapperTagName);
    ExportElement(Units("LI"), [p], Units("UL"));
    assert TextOf([p]) == a by {
      assert [p][1..] == [];
      assert [Text(a)][1..] == [];
    }
    FragmentOfListItem([p], Units("UL"));
    ExportLeaf(Units("P"), a, Units("LI"));
    FragmentOfParagraph([Text(a)], Units("LI"));
  }

  /** The list-tag test is a substring match: a paragraph whose parent is a
      custom element named `x-list` is dropped as well, because "X-LIST"
      contains "LI". */
  lemma ExampleParagraphInCustomList(a: Str)
    ensures Markdown([Element(Units("X-LIST"), [Element(Units("P"), [Text(a)])])]) == []
  {
    var p := Element(Units("P"), [Text(a)]);
    assert IsListTagName(Units("X-LIST")) by {
      assert IsAt(Units("X-LIST"), Units("LI"), 2);
      HasInfixIffContains(Units("X-LIST"), Units("LI"));
    }
    ExportElement(Units("X-LIST"), [p], WrapperTagName);
    assert Fragment(Visited(Units("X-LIST"), [p], WrapperTagName)) == [] by {
      assert LowerAscii(Units("X-LIST")) == Units("x-list");
      assert Units("x-list")[0] != Units("strong")[0];
      FragmentOfOtherTags(Units("X-LIST"), [p], WrapperTagName);
    }
    ExportLeaf(Units("P"), a, Units("X-LIST"));
    FragmentOfParagraph([Text(a)], Units("X-LIST"));
  }
}

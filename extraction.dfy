/**
 * Model of src/ainfo/extraction/__init__.py: gathering the text of a parsed
 * page tree and building the contact-information record from it.
 */
module Extraction {

  /** A node of the parsed page: its own text and its ordered children. */
  datatype PageNode = PageNode(text: string, children: seq<PageNode>)

  /** A parsed page: the sequence of its top-level nodes. */
  datatype Document = Document(nodes: seq<PageNode>)

  /** `" ".join(parts)`: the parts with exactly one space between neighbours. */
  function Join(parts: seq<string>): string
  {
    if parts == [] then ""
    else if |parts| == 1 then parts[0]
    else parts[0] + " " + Join(parts[1..])
  }

  /** The parts one node adds to the list `parts` of `_gather_text`. */
  function NodeParts(node: PageNode): seq<string>
    decreases node, 0
  {
    (if node.text != "" then [node.text] else [])
    + (if node.children != [] then [Gathered(node.children)] else [])
  }

  /** The list `parts` that `_gather_text(nodes)` builds before joining. */
  function Parts(nodes: seq<PageNode>): seq<string>
    decreases nodes, 1
  {
    if nodes == [] then [] else NodeParts(nodes[0]) + Parts(nodes[1..])
  }

  /** The string `_gather_text(nodes)` returns. */
  function Gathered(nodes: seq<PageNode>): string
    decreases nodes, 2
  {
    Join(Parts(nodes))
  }

  /** The parts of the first `i + 1` nodes extend those of the first `i`. */
  lemma PartsSnoc(nodes: seq<PageNode>, i: nat)
    requires i < |nodes|
    ensures Parts(nodes[..i + 1]) == Parts(nodes[..i]) + NodeParts(nodes[i])
  {
    assert nodes[..i + 1] == nodes[..i] + [nodes[i]];
    PartsAppend(nodes[..i], [nodes[i]]);
    assert Parts([nodes[i]]) == NodeParts(nodes[i]) + Parts([]);
  }

  /**
   * `_gather_text`: the loop over `nodes` appending each non-empty text and
   * then the recursively gathered text of a node's children.
   */
  method GatherText(nodes: seq<PageNode>) returns (s: string)
    ensures s == Gathered(nodes)
    decreases nodes
  {
    var parts: seq<string> := [];
    var i := 0;
    while i < |nodes|
      invariant 0 <= i <= |nodes|
      invariant parts == Parts(nodes[..i])
    {
      var node := nodes[i];
      PartsSnoc(nodes, i);
      var own: seq<string> := if node.text != "" then [node.text] else [];
      var sub: seq<string> := [];
      if node.children != [] {
        var g := GatherText(node.children);
        sub := [g];
      }
      assert own + sub == NodeParts(node);
      parts := parts + (own + sub);
      i := i + 1;
    }
    assert nodes[..i] == nodes;
    s := Join(parts);
  }

  // ---------------------------------------------------------------------
  // Properties of the gathered text
  // ---------------------------------------------------------------------

  /** An empty node sequence gathers to the empty string. */
  lemma GatheredEmpty()
    ensures Gathered([]) == ""
  {
  }

  /** Joining two part lists: one separator between them when both are non-empty. */
  lemma {:induction false} JoinAppend(a: seq<string>, b: seq<string>)
    ensures Join(a + b) == if a == [] then Join(b)
                           else if b == [] then Join(a)
                           else Join(a) + " " + Join(b)
  {
    if a == [] {
      assert a + b == b;
    } else if b == [] {
      assert a + b == a;
    } else if |a| == 1 {
      assert (a + b)[1..] == b;
    } else {
      assert (a + b)[1..] == a[1..] + b;
      JoinAppend(a[1..], b);
    }
  }

  /** Siblings keep their order: the parts of `a + b` are those of `a`, then of `b`. */
  lemma {:induction false} PartsAppend(a: seq<PageNode>, b: seq<PageNode>)
    ensures Parts(a + b) == Parts(a) + Parts(b)
  {
    if a != [] {
      assert (a + b)[0] == a[0] && (a + b)[1..] == a[1..] + b;
      PartsAppend(a[1..], b);
    } else {
      assert a + b == b;
    }
  }

  /** `[""]` stands for a non-empty child list whose gathered text is empty. */
  function Placeholder(t: seq<string>): seq<string>
  {
    if t == [] then [""] else t
  }

  /**
   * Reference definition: the flat pre-order list of the strings that end up
   * between separators. A node contributes its text when non-empty, then the
   * tokens of its children; a non-empty child list with no tokens still
   * contributes one empty string.
   */
  function NodeTokens(node: PageNode): seq<string>
    decreases node, 0
  {
    (if node.text != "" then [node.text] else [])
    + (if node.children != [] then Placeholder(Tokens(node.children)) else [])
  }

  function Tokens(nodes: seq<PageNode>): seq<string>
    decreases nodes, 1
  {
    if nodes == [] then [] else NodeTokens(nodes[0]) + Tokens(nodes[1..])
  }

  lemma {:induction false} NodePartsTokens(node: PageNode)
    ensures NodeParts(node) == [] <==> NodeTokens(node) == []
    ensures Join(NodeParts(node)) == Join(NodeTokens(node))
    decreases node, 0
  {
    var own: seq<string> := if node.text != "" then [node.text] else [];
    if node.children != [] {
      GatheredIsJoinOfTokens(node.children);
      var t := Placeholder(Tokens(node.children));
      assert Join([Gathered(node.children)]) == Join(t);
      JoinAppend(own, [Gathered(node.children)]);
      JoinAppend(own, t);
    } else {
      assert NodeParts(node) == own && NodeTokens(node) == own;
    }
  }

  /**
   * The nested joins of `_gather_text` flatten into one single-space join of
   * the pre-order tokens.
   */
  lemma {:induction false} GatheredIsJoinOfTokens(nodes: seq<PageNode>)
    ensures Parts(nodes) == [] <==> Tokens(nodes) == []
    ensures Gathered(nodes) == Join(Tokens(nodes))
    decreases nodes, 1
  {
    if nodes != [] {
      NodePartsTokens(nodes[0]);
      GatheredIsJoinOfTokens(nodes[1..]);
      JoinAppend(NodeParts(nodes[0]), Parts(nodes[1..]));
      JoinAppend(NodeTokens(nodes[0]), Tokens(nodes[1..]));
    }
  }

  /** Every node of the forest has a non-empty text. */
  predicate AllTextsNonEmpty(nodes: seq<PageNode>)
  {
    nodes == [] ||
    (nodes[0].text != "" && AllTextsNonEmpty(nodes[0].children) && AllTextsNonEmpty(nodes[1..]))
  }

  /** All texts of the forest in document pre-order. */
  function Preorder(nodes: seq<PageNode>): seq<string>
  {
    if nodes == [] then [] else [nodes[0].text] + Preorder(nodes[0].children) + Preorder(nodes[1..])
  }

  lemma {:induction false} TokensArePreorder(nodes: seq<PageNode>)
    requires AllTextsNonEmpty(nodes)
    ensures Tokens(nodes) == Preorder(nodes)
    ensures nodes != [] ==> Tokens(nodes) != []
  {
    if nodes != [] {
      TokensArePreorder(nodes[0].children);
      TokensArePreorder(nodes[1..]);
    }
  }

  /**
   * When every node has text, the result is the pre-order sequence of all
   * texts joined with single spaces: each text precedes its descendants'.
   */
  lemma GatheredPreorder(nodes: seq<PageNode>)
    requires AllTextsNonEmpty(nodes)
    ensures Gathered(nodes) == Join(Preorder(nodes))
  {
    GatheredIsJoinOfTokens(nodes);
    TokensArePreorder(nodes);
  }

  /** The non-empty texts of the nodes, in order. */
  function NonEmptyTexts(nodes: seq<PageNode>): seq<string>
  {
    if nodes == [] then []
    else (if nodes[0].text != "" then [nodes[0].text] else []) + NonEmptyTexts(nodes[1..])
  }

  /** Without children the result is the space-join of the non-empty texts, and only those. */
  lemma {:induction false} GatheredFlat(nodes: seq<PageNode>)
    requires forall i :: 0 <= i < |nodes| ==> nodes[i].children == []
    ensures Parts(nodes) == NonEmptyTexts(nodes)
    ensures Gathered(nodes) == Join(NonEmptyTexts(nodes))
  {
    if nodes != [] {
      assert nodes[0].children == [];
      GatheredFlat(nodes[1..]);
    }
  }

  /**
   * A node with empty text adds no part of its own: when its children
   * gather to something non-empty, it reads as if the children stood in
   * its place.
   */
  lemma EmptyTextNodeTransparent(children: seq<PageNode>, rest: seq<PageNode>)
    requires Gathered(children) != ""
    ensures Gathered([PageNode("", children)] + rest) == Gathered(children + rest)
  {
    var node := PageNode("", children);
    assert children != [];
    assert NodeParts(node) == [Gathered(children)];
    PartsAppend([node], rest);
    PartsAppend(children, rest);
    assert Parts([node]) == NodeParts(node);
    JoinAppend([Gathered(children)], Parts(rest));
    JoinAppend(Parts(children), Parts(rest));
  }

  /** A child list gathering to `""` still adds an empty part: two spaces. */
  lemma DoubledSpaceExample()
    ensures Gathered([PageNode("a", [PageNode("", [])]), PageNode("b", [])]) == "a  b"
  {
    var inner := PageNode("", []);
    var n1 := PageNode("a", [inner]);
    var n2 := PageNode("b", []);
    assert Gathered([inner]) == "" by {
      assert NodeParts(inner) == [];
      assert Parts([inner]) == NodeParts(inner) + Parts([]);
    }
    assert NodeParts(n1) == ["a", ""];
    assert Parts([n2]) == ["b"] by {
      assert NodeParts(n2) == ["b"];
      assert Parts([n2]) == NodeParts(n2) + Parts([]);
    }
    assert Parts([n1, n2]) == ["a", "", "b"] by {
      assert [n1, n2][1..] == [n2];
    }
    assert Join(["", "b"]) == " b" by {
      assert ["", "b"][1..] == ["b"];
    }
    assert Join(["a", "", "b"]) == "a" + " " + " b" by {
      assert ["a", "", "b"][1..] == ["", "b"];
    }
  }

  // ---------------------------------------------------------------------
  // extract_information
  // ---------------------------------------------------------------------

  /**
   * The three contact extractors of ainfo.extractors.contact, which are not
   * part of this model: each maps the gathered text to a list of matches.
   */
  datatype Extractors = Extractors(
    emails: string -> seq<string>,
    phoneNumbers: string -> seq<string>,
    addresses: string -> seq<string>)

  /**
   * `extract_information(doc)`: the record with keys `emails`,
   * `phone_numbers` and `addresses`, each its extractor applied to the one
   * gathered text of the document.
   */
  method ExtractInformation(doc: Document, ex: Extractors) returns (info: map<string, seq<string>>)
    ensures info.Keys == {"emails", "phone_numbers", "addresses"}
    ensures info["emails"] == ex.emails(Gathered(doc.nodes))
    ensures info["phone_numbers"] == ex.phoneNumbers(Gathered(doc.nodes))
    ensures info["addresses"] == ex.addresses(Gathered(doc.nodes))
  {
    var text := GatherText(doc.nodes);
    info := map[
      "emails" := ex.emails(text),
      "phone_numbers" := ex.phoneNumbers(text),
      "addresses" := ex.addresses(text)
    ];
  }
}

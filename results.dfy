/** Turning the XPath engine's answer into the text of the result view
    (the result-type switch, the node iterator loop and the "no results" sentinel of `search`). */
module Results {
  import opened Messages

  /** One node yielded by the engine's iterator: its serialized markup (`outerHTML`,
      the empty string when the node has none, as for text and attribute nodes)
      and its text content. */
  datatype Node = Node(outerHTML: string, textContent: string)

  /** A number already rendered by the engine's `toString`, which never yields an empty string. */
  type NumberText = s: string | s != "" witness "0"

  /** What evaluating an expression against the current document gives back:
      an exception (a DOMException or some other one), or a typed result. */
  datatype Outcome =
    | Throws(isDomException: bool)
    | Num(repr: NumberText)
    | Str(s: string)
    | Bool(b: bool)
    | Nodes(nodes: seq<Node>)

  /** The text one node contributes: its markup, or its text content when it has no markup. */
  function NodeText(n: Node): string
  {
    if n.outerHTML != "" then n.outerHTML else n.textContent
  }

  /** The nodes' texts concatenated in iteration order, with no separator. */
  function Serialize(nodes: seq<Node>): string
  {
    if nodes == [] then "" else NodeText(nodes[0]) + Serialize(nodes[1..])
  }

  lemma {:induction false} SerializeAppend(a: seq<Node>, b: seq<Node>)
    ensures Serialize(a + b) == Serialize(a) + Serialize(b)
  {
    if a == [] {
      assert a + b == b;
    } else {
      assert (a + b)[1..] == a[1..] + b;
      SerializeAppend(a[1..], b);
    }
  }

  /** Every node's text sits in the output between the texts of the nodes before it
      and the texts of the nodes after it. */
  lemma {:induction false} SerializeAt(nodes: seq<Node>, k: nat)
    requires k < |nodes|
    ensures Serialize(nodes) == Serialize(nodes[..k]) + NodeText(nodes[k]) + Serialize(nodes[k + 1..])
  {
    assert nodes == nodes[..k] + ([nodes[k]] + nodes[k + 1..]);
    SerializeAppend(nodes[..k], [nodes[k]] + nodes[k + 1..]);
    assert ([nodes[k]] + nodes[k + 1..])[1..] == nodes[k + 1..];
  }

  /** The output is empty exactly when every node contributes nothing
      (in particular when the iterator yields no node at all). */
  lemma {:induction false} SerializeEmpty(nodes: seq<Node>)
    ensures Serialize(nodes) == "" <==> forall i :: 0 <= i < |nodes| ==> NodeText(nodes[i]) == ""
  {
    if nodes != [] {
      SerializeEmpty(nodes[1..]);
      assert forall i :: 1 <= i < |nodes| ==> nodes[i] == nodes[1..][i - 1];
    }
  }

  /** Drains the node iterator, appending each node's text to the result. */
  method DrainNodes(nodes: seq<Node>) returns (result: string)
    ensures result == Serialize(nodes)
  {
    result := "";
    var i := 0;
    while i < |nodes|
      invariant i <= |nodes|
      invariant result == Serialize(nodes[..i])
    {
      assert nodes[..i + 1] == nodes[..i] + [nodes[i]];
      SerializeAppend(nodes[..i], [nodes[i]]);
      result := result + NodeText(nodes[i]);
      i := i + 1;
    }
    assert nodes[..i] == nodes;
  }

  /** The text of a scalar result: a number as rendered, a string unchanged,
      a boolean as "true" or "false". */
  function ScalarText(o: Outcome): (r: string)
    requires o.Num? || o.Str? || o.Bool?
    ensures o.Num? ==> r == o.repr && r != ""
    ensures o.Str? ==> r == o.s
    ensures o.Bool? ==> (r == "true" || r == "false") && (r == "true" <==> o.b)
  {
    match o
    case Num(repr) => repr
    case Str(s) => s
    case Bool(b) => if b then "true" else "false"
  }

  /** The formatted text of a successful evaluation, before the sentinel is applied. */
  function Rendered(o: Outcome): string
    requires !o.Throws?
  {
    if o.Nodes? then Serialize(o.nodes) else ScalarText(o)
  }

  /** An empty formatted result is replaced by the "no results" sentinel;
      any other is kept as it is. */
  function WithSentinel(result: string): (r: string)
    ensures r != ""
    ensures result != "" ==> r == result
    ensures result == "" ==> r == NoResults
  {
    if result == "" then NoResults else result
  }

  /** A node result shows the sentinel when no node contributes text, and is
      shown as it is as soon as one node does. */
  lemma NodeResultShown(nodes: seq<Node>)
    ensures (forall i :: 0 <= i < |nodes| ==> NodeText(nodes[i]) == "") ==> WithSentinel(Serialize(nodes)) == NoResults
    ensures (exists i :: 0 <= i < |nodes| && NodeText(nodes[i]) != "") ==> WithSentinel(Serialize(nodes)) == Serialize(nodes) != ""
  {
    SerializeEmpty(nodes);
  }
}

/**
 * Flattening of a parsed BLAST XML document into nested arrays.
 *
 * A text node stays a string, an element of one of ten container kinds becomes
 * the array of its flattened children, and any other element becomes its first
 * text child (or nil when it has none).
 */
module XmlTree {

  /** A node of the parsed document: a text node, or an element with its children in document order. */
  datatype Node = Text(text: string) | Element(name: string, nodes: seq<Node>)

  /** A flattened value: a Ruby String, nil, or an Array of flattened values. */
  datatype Value = Str(s: string) | Nil | Arr(items: seq<Value>)

  /** The element names whose content is kept as an ordered array. */
  const ContainerNames: seq<string> := [
    "Parameters", "BlastOutput_param", "Iteration_stat", "Statistics",
    "Hsp", "Iteration_hits", "BlastOutput_iterations", "Iteration",
    "Hit", "Hit_hsps"
  ]

  predicate IsContainer(n: Node)
  {
    n.Element? && n.name in ContainerNames
  }

  /** The first text child, or nil when no child is text. */
  function FirstText(nodes: seq<Node>): (r: Value)
    ensures !r.Arr?
    ensures r.Nil? <==> forall i :: 0 <= i < |nodes| ==> !nodes[i].Text?
    ensures r.Str? ==> exists i :: 0 <= i < |nodes| && nodes[i] == Text(r.s)
                                   && forall j :: 0 <= j < i ==> !nodes[j].Text?
  {
    if |nodes| == 0 then Nil
    else if nodes[0].Text? then Str(nodes[0].text)
    else
      var r := FirstText(nodes[1..]);
      assert forall i :: 1 <= i < |nodes| ==> nodes[i] == nodes[1..][i - 1];
      r
  }

  /** The flattened value of one node. */
  function NodeToValue(n: Node): (r: Value)
    ensures n.Text? ==> r == Str(n.text)
    ensures r.Arr? <==> IsContainer(n)
    ensures n.Element? && !IsContainer(n) ==> r == FirstText(n.nodes)
    ensures r.Arr? ==> |r.items| == |n.nodes|
    decreases n, 1
  {
    match n
    case Text(t) => Str(t)
    case Element(name, nodes) =>
      if name in ContainerNames then Arr(NodeToArray(n)) else FirstText(nodes)
  }

  /** The flattened values of an element's children, one per child. */
  function NodeToArray(e: Node): (r: seq<Value>)
    requires e.Element?
    ensures |r| == |e.nodes|
    ensures forall i :: 0 <= i < |e.nodes| ==> r[i] == NodeToValue(e.nodes[i])
    decreases e, 0
  {
    seq(|e.nodes|, i requires 0 <= i < |e.nodes| => NodeToValue(e.nodes[i]))
  }

  /** A container whose children are all text flattens to exactly the list of those texts. */
  lemma {:induction false} ContainerOfTexts(e: Node, texts: seq<string>)
    requires IsContainer(e) && |e.nodes| == |texts|
    requires forall i :: 0 <= i < |texts| ==> e.nodes[i] == Text(texts[i])
    ensures NodeToValue(e) == Arr(seq(|texts|, i requires 0 <= i < |texts| => Str(texts[i])))
  {
    var r := NodeToArray(e);
    assert forall i :: 0 <= i < |texts| ==> r[i] == Str(texts[i]);
  }
}

/** The corpus markup and the walk that turns it into text segments.
    The corpus is taken as its tree: the XML declaration and the DOCTYPE
    are nodes that yield nothing, elements carry attributes and children,
    and text is text. Walking the tree in document order yields segments:
    plain text becomes an untagged segment, an entity element (`EM`)
    becomes one segment holding all of its text and the raw value of its
    `CATEG` attribute, and every other element (`colHAREM`, `DOC`, `P`, …)
    is transparent, so text directly under `DOC` is kept as well. */
module Markup {
  import opened Wrappers

  datatype Attribute = Attribute(name: string, value: string)

  datatype Node =
    | Declaration(body: string)
    | Doctype(body: string)
    | Element(name: string, attributes: seq<Attribute>, children: seq<Node>)
    | Text(content: string)

  /** A run of text, with the raw `CATEG` value of the entity it belongs
      to, if any. */
  datatype Segment = Segment(text: string, categ: Option<string>)

  const EntityTag: string := "EM"
  const CategoryAttribute: string := "CATEG"

  /** The value of the first attribute called `name`, if there is one. */
  function AttributeValue(attrs: seq<Attribute>, name: string): (v: Option<string>)
    ensures v.None? <==> forall i :: 0 <= i < |attrs| ==> attrs[i].name != name
    ensures forall i :: 0 <= i < |attrs| && attrs[i].name == name && (forall j :: 0 <= j < i ==> attrs[j].name != name)
              ==> v == Some(attrs[i].value)
  {
    if attrs == [] then None
    else if attrs[0].name == name then Some(attrs[0].value)
    else AttributeValue(attrs[1..], name)
  }

  /** All the text of `nodes`, in document order. */
  function InnerText(nodes: seq<Node>): string
    decreases nodes
  {
    if nodes == [] then []
    else
      var head := match nodes[0]
        case Text(s) => s
        case Element(_, _, children) => InnerText(children)
        case _ => [];
      head + InnerText(nodes[1..])
  }

  /** The segments of `nodes`, in document order. */
  function Segments(nodes: seq<Node>): seq<Segment>
    decreases nodes
  {
    if nodes == [] then [] else NodeSegments(nodes[0]) + Segments(nodes[1..])
  }

  function NodeSegments(n: Node): seq<Segment>
    decreases n
  {
    match n
    case Text(s) => [Segment(s, None)]
    case Element(name, attrs, children) =>
      if name == EntityTag then [Segment(InnerText(children), AttributeValue(attrs, CategoryAttribute))]
      else Segments(children)
    case _ => []
  }

  /** The texts of the segments, concatenated. */
  function SegmentText(segs: seq<Segment>): string {
    if segs == [] then [] else segs[0].text + SegmentText(segs[1..])
  }

  /** No entity element anywhere in `nodes`. */
  predicate NoEntities(nodes: seq<Node>)
    decreases nodes
  {
    forall i :: 0 <= i < |nodes| ==>
      match nodes[i]
      case Element(name, _, children) => name != EntityTag && NoEntities(children)
      case _ => true
  }

  /** The attributes of an element that the walk reads: `CATEG` on an
      entity element, nothing on any other element. */
  function ReadAttributes(name: string, attrs: seq<Attribute>): seq<Attribute> {
    if name != EntityTag then []
    else match AttributeValue(attrs, CategoryAttribute)
      case Some(v) => [Attribute(CategoryAttribute, v)]
      case None => []
  }

  /** `nodes` with every attribute that the walk does not read removed. */
  function Bare(nodes: seq<Node>): (r: seq<Node>)
    decreases nodes
    ensures |r| == |nodes|
  {
    if nodes == [] then [] else [BareNode(nodes[0])] + Bare(nodes[1..])
  }

  function BareNode(n: Node): Node
    decreases n
  {
    match n
    case Element(name, attrs, children) => Element(name, ReadAttributes(name, attrs), Bare(children))
    case other => other
  }

  // ---------------------------------------------------------------------
  // Laws of the walk

  lemma {:induction false} SegmentTextAppend(a: seq<Segment>, b: seq<Segment>)
    ensures SegmentText(a + b) == SegmentText(a) + SegmentText(b)
  {
    if a == [] {
      assert a + b == b;
    } else {
      assert (a + b)[0] == a[0];
      assert (a + b)[1..] == a[1..] + b;
      SegmentTextAppend(a[1..], b);
    }
  }

  /** Document order, no deduplication: the segments of two node sequences
      side by side are the segments of each, one after the other. */
  lemma {:induction false} SegmentsAppend(a: seq<Node>, b: seq<Node>)
    ensures Segments(a + b) == Segments(a) + Segments(b)
  {
    if a == [] {
      assert a + b == b;
    } else {
      assert (a + b)[0] == a[0];
      assert (a + b)[1..] == a[1..] + b;
      SegmentsAppend(a[1..], b);
    }
  }

  /** The walk neither loses nor invents text: its segments, put back
      together, are all the text of the markup, and nothing from the
      declaration, the DOCTYPE or any attribute. */
  lemma {:induction false} SegmentsKeepText(nodes: seq<Node>)
    ensures SegmentText(Segments(nodes)) == InnerText(nodes)
    decreases nodes
  {
    if nodes != [] {
      SegmentsKeepText(nodes[1..]);
      var head := NodeSegments(nodes[0]);
      SegmentTextAppend(head, Segments(nodes[1..]));
      match nodes[0]
      case Element(name, _, children) =>
        if name != EntityTag {
          SegmentsKeepText(children);
        }
      case _ =>
    }
  }

  /** Outside entity elements every segment is untagged. */
  lemma {:induction false} NoEntitiesUntagged(nodes: seq<Node>)
    requires NoEntities(nodes)
    ensures forall i :: 0 <= i < |Segments(nodes)| ==> Segments(nodes)[i].categ == None
    decreases nodes
  {
    if nodes != [] {
      assert NoEntities(nodes[1..]) by {
        forall i | 0 <= i < |nodes[1..]| ensures nodes[1..][i] == nodes[i + 1] {}
      }
      NoEntitiesUntagged(nodes[1..]);
      var head := NodeSegments(nodes[0]);
      match nodes[0] {
        case Element(name, _, children) =>
          assert name != EntityTag && NoEntities(children);
          NoEntitiesUntagged(children);
          assert head == Segments(children);
        case _ =>
      }
      assert forall i :: 0 <= i < |head| ==> head[i].categ == None;
      assert Segments(nodes) == head + Segments(nodes[1..]);
    }
  }

  /** Attributes other than `CATEG` (`ID`, `TIPO`, `SUBTIPO`, `COREL`,
      `TIPOREL`, `COMENT`, `DOCID`, `versao`, …) never change the segments. */
  lemma {:induction false} BareSegments(nodes: seq<Node>)
    ensures Segments(Bare(nodes)) == Segments(nodes)
    decreases nodes
  {
    if nodes != [] {
      BareSegments(nodes[1..]);
      match nodes[0]
      case Element(name, attrs, children) =>
        BareSegments(children);
        BareInnerText(children);
        if name == EntityTag {
          assert AttributeValue(ReadAttributes(name, attrs), CategoryAttribute) == AttributeValue(attrs, CategoryAttribute);
        }
      case _ =>
    }
  }

  lemma {:induction false} BareInnerText(nodes: seq<Node>)
    ensures InnerText(Bare(nodes)) == InnerText(nodes)
    decreases nodes
  {
    if nodes != [] {
      BareInnerText(nodes[1..]);
      match nodes[0]
      case Element(_, _, children) =>
        BareInnerText(children);
      case _ =>
    }
  }
}

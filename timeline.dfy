/**
  The journey timeline: the entries are stacked at a fixed vertical spacing
  inside a container tall enough for all of them, a vertical line joins the
  first dot to the last, each card is anchored to the left or the right of the
  centre line by its entry type, and the one card under the mouse is drawn on
  top with its details expanded and a coloured border.

  Pixel values are kept as integers; class strings and markup are left out and
  only the values they are chosen from are kept.
*/
module Timeline {
  import opened Wrappers

  datatype EntryType = Education | Work

  /** One timeline entry; `id` is the React key and the hover identity. */
  datatype TimelineNode = TimelineNode(
    id: string,
    title: string,
    organization: string,
    period: string,
    kind: EntryType,
    description: string,
    skills: seq<string>)

  /** The four entries the page ships with, top to bottom. The long
      descriptions are shortened; nothing computes with them. */
  const ShownNodes: seq<TimelineNode> := [
    TimelineNode("bsc-start", "BSc Computer Science", "University", "2019 - 2023", Education,
                 "Started Bachelor of Science in Computer Science",
                 ["Data Structures", "Algorithms", "Software Engineering", "Databases", "Web Development", "Embedded Systems"]),
    TimelineNode("internship", "Placement year", "Axia Digital", "2021 - 2022", Work,
                 "Developed web applications for professional development platforms",
                 ["React", "JavaScript", "Node.js", "Git", "Agile", "REST APIs"]),
    TimelineNode("graduated", "Graduated", "BSc Computer Science", "2023", Education,
                 "Graduated with a highest achievable grade (1:1)",
                 ["Award", "1:1"]),
    TimelineNode("developer", "Software Developer", "Axia Digital", "2022 - Present", Work,
                 "Building enterprise-grade CPD platforms for professionals",
                 ["React", "TypeScript", "Flutter", "Node.js", "AWS", "MongoDB", "Docker"])
  ]

  /** No two entries share an id. */
  predicate DistinctIds(nodes: seq<TimelineNode>)
  {
    forall i, j :: 0 <= i < j < |nodes| ==> nodes[i].id != nodes[j].id
  }

  lemma ShownIdsDistinct()
    ensures DistinctIds(ShownNodes)
  {
  }

  const NodeSpacing: int := 150
  const FirstNodeTop: int := 30
  /** How far below its card's top a node's dot sits. */
  const DotOffset: int := 20
  /** Extra height the container gets below the last spacing slot. */
  const ContainerSlack: int := 100

  /** `getNodePosition`: the card top of entry `index`, in pixels from the
      container's top. The component also calls it with `nodes.length - 1`,
      which is `-1` for an empty list, so the index is an `int`. Positions lie
      on a grid of one spacing, offset by the first node's top. */
  function NodePosition(index: int): (r: int)
    ensures r % NodeSpacing == FirstNodeTop
    ensures index >= 0 ==> r >= FirstNodeTop
  {
    index * NodeSpacing + FirstNodeTop
  }

  /** Consecutive entries are exactly one spacing apart. */
  lemma ConstantGap(i: int)
    ensures NodePosition(i + 1) - NodePosition(i) == NodeSpacing
  {
  }

  /** Positions grow with the index, so the cards never swap order. */
  lemma PositionStrictlyIncreasing(i: int, j: int)
    requires i < j
    ensures NodePosition(i) < NodePosition(j)
    ensures NodePosition(j) - NodePosition(i) >= NodeSpacing
  {
  }

  /** The top of entry `index`'s dot: below its card's top and above the
      next card's top. */
  function DotTop(index: int): (r: int)
    ensures NodePosition(index) < r < NodePosition(index + 1)
  {
    NodePosition(index) + DotOffset
  }

  /** The container's `minHeight` for `count` entries. */
  function MinHeight(count: nat): (r: int)
    ensures forall i :: 0 <= i < count ==> 0 <= NodePosition(i) < DotTop(i) < r
  {
    count * NodeSpacing + ContainerSlack
  }

  /** The connecting line's end points `y1` and `y2`. */
  datatype Line = Line(y1: int, y2: int)

  /** From the first entry's dot to the last entry's dot. */
  function ConnectingLine(count: nat): (r: Line)
    ensures count > 0 ==> r.y1 == DotTop(0) && r.y2 == DotTop(count - 1)
    ensures count > 0 ==> r.y1 <= r.y2 && r.y2 < MinHeight(count)
    ensures count > 0 ==> forall i :: 0 <= i < count ==> r.y1 <= DotTop(i) <= r.y2
    ensures count == 0 ==> r.y2 < 0 < r.y1
  {
    Line(NodePosition(0) + DotOffset, NodePosition(count - 1) + DotOffset)
  }

  /** `isLeft`: every entry that is not work sits on the left anchor. */
  predicate IsLeft(kind: EntryType)
    ensures IsLeft(kind) <==> kind == Education
  {
    kind != Work
  }

  /** A CSS length of the card's placement. */
  datatype Length = Percent(p: nat) | Px(px: nat) | Auto

  /** The computed inline style of an entry's card. */
  datatype CardStyle = CardStyle(
    top: int,
    left: Length, right: Length,
    marginLeft: Length, marginRight: Length,
    zIndex: int)

  /** Whether `node` is the hovered one: the test behind the border colour,
      the z-index and the expanded details alike. */
  predicate IsHovered(hovered: Option<string>, node: TimelineNode)
    ensures IsHovered(hovered, node) ==> hovered.Some? && hovered.value == node.id
    ensures hovered.None? ==> !IsHovered(hovered, node)
  {
    hovered == Some(node.id)
  }

  /** The style of the card of entry `index`: anchored at the centre line on
      one side with a 24px gap, `auto` on the other, raised above its
      neighbours while hovered. */
  function CardStyleOf(hovered: Option<string>, node: TimelineNode, index: int): (r: CardStyle)
    ensures r.top == NodePosition(index)
    ensures (r.left == Auto) != (r.right == Auto)
    ensures (r.marginLeft == Auto) != (r.marginRight == Auto)
    ensures (r.left == Auto) == (r.marginLeft == Auto)
    ensures r.left != Auto <==> node.kind != Work
    ensures r.left != Auto ==> r.left == Percent(50) && r.marginLeft == Px(24)
    ensures r.right != Auto ==> r.right == Percent(50) && r.marginRight == Px(24)
    ensures r.zIndex == 10 <==> IsHovered(hovered, node)
    ensures r.zIndex == 2 <==> !IsHovered(hovered, node)
  {
    var left := IsLeft(node.kind);
    CardStyle(
      NodePosition(index),
      if left then Percent(50) else Auto,
      if left then Auto else Percent(50),
      if left then Px(24) else Auto,
      if left then Auto else Px(24),
      if IsHovered(hovered, node) then 10 else 2)
  }

  datatype BorderColor = Slate | Purple | Cyan

  /** `borderColor`: slate unless hovered; a hovered education entry is
      purple and a hovered work entry cyan. */
  function BorderColorOf(hovered: Option<string>, node: TimelineNode): (r: BorderColor)
    ensures r == Slate <==> !IsHovered(hovered, node)
    ensures r == Purple <==> IsHovered(hovered, node) && node.kind == Education
    ensures r == Cyan <==> IsHovered(hovered, node) && node.kind == Work
  {
    if !IsHovered(hovered, node) then Slate
    else match node.kind
      case Education => Purple
      case Work => Cyan
  }

  /** How many entries are expanded: a card shows its description and
      skills exactly when it is the hovered one. */
  function ExpandedCount(hovered: Option<string>, nodes: seq<TimelineNode>): (r: nat)
    ensures r <= |nodes|
    ensures hovered.None? ==> r == 0
  {
    if nodes == [] then 0
    else (if IsHovered(hovered, nodes[0]) then 1 else 0) + ExpandedCount(hovered, nodes[1..])
  }

  /** Some entry is expanded exactly when the hover id belongs to an entry. */
  lemma {:induction false} ExpandedCountPositive(hovered: Option<string>, nodes: seq<TimelineNode>)
    ensures (ExpandedCount(hovered, nodes) > 0)
            <==> (exists k :: 0 <= k < |nodes| && IsHovered(hovered, nodes[k]))
  {
    if nodes != [] {
      ExpandedCountPositive(hovered, nodes[1..]);
      assert forall k :: 1 <= k < |nodes| ==> nodes[k] == nodes[1..][k - 1];
      if ExpandedCount(hovered, nodes[1..]) > 0 {
        var k :| 0 <= k < |nodes[1..]| && IsHovered(hovered, nodes[1..][k]);
        assert IsHovered(hovered, nodes[k + 1]);
      }
    }
  }

  /** With distinct ids at most one entry is expanded, and one is exactly
      when the hovered id is an entry's id. */
  lemma {:induction false} AtMostOneExpanded(hovered: Option<string>, nodes: seq<TimelineNode>)
    requires DistinctIds(nodes)
    ensures ExpandedCount(hovered, nodes) <= 1
    ensures (ExpandedCount(hovered, nodes) == 1)
            <==> (exists k :: 0 <= k < |nodes| && hovered == Some(nodes[k].id))
  {
    if nodes != [] {
      assert DistinctIds(nodes[1..]) by {
        forall i, j | 0 <= i < j < |nodes[1..]|
          ensures nodes[1..][i].id != nodes[1..][j].id
        {
          assert nodes[1..][i] == nodes[i + 1] && nodes[1..][j] == nodes[j + 1];
        }
      }
      AtMostOneExpanded(hovered, nodes[1..]);
      ExpandedCountPositive(hovered, nodes[1..]);
      ExpandedCountPositive(hovered, nodes);
      if IsHovered(hovered, nodes[0]) {
        forall k | 0 <= k < |nodes[1..]|
          ensures !IsHovered(hovered, nodes[1..][k])
        {
          assert nodes[1..][k] == nodes[k + 1];
        }
      }
    }
  }

  /** With distinct ids, hovering entry `i` expands entry `j` exactly when
      `j` is `i`. */
  lemma OnlyHoveredExpanded(nodes: seq<TimelineNode>, i: nat, j: nat)
    requires DistinctIds(nodes) && i < |nodes| && j < |nodes|
    ensures IsHovered(Some(nodes[i].id), nodes[j]) <==> i == j
    ensures CardStyleOf(Some(nodes[i].id), nodes[j], j).zIndex == (if i == j then 10 else 2)
  {
  }

  /** The hover state of the timeline component. */
  class TimelineView {
    const nodes: seq<TimelineNode>
    var hoveredNode: Option<string>

    /** Nothing hovered at first. */
    constructor (nodes: seq<TimelineNode>)
      ensures this.nodes == nodes && hoveredNode == None
      ensures ExpandedCount(hoveredNode, nodes) == 0
    {
      this.nodes := nodes;
      hoveredNode := None;
      ExpandedCountPositive(None, nodes);
    }

    /** `onMouseEnter` on entry `i`'s card: that entry becomes the hovered
        one, and (ids being distinct) the only expanded one. */
    method MouseEnter(i: nat)
      requires i < |nodes|
      modifies this
      ensures hoveredNode == Some(nodes[i].id)
      ensures DistinctIds(nodes) ==>
                forall j :: 0 <= j < |nodes| ==> (IsHovered(hoveredNode, nodes[j]) <==> j == i)
      ensures DistinctIds(nodes) ==> ExpandedCount(hoveredNode, nodes) == 1
    {
      hoveredNode := Some(nodes[i].id);
      if DistinctIds(nodes) {
        forall j | 0 <= j < |nodes|
          ensures IsHovered(hoveredNode, nodes[j]) <==> j == i
        {
          OnlyHoveredExpanded(nodes, i, j);
        }
        AtMostOneExpanded(hoveredNode, nodes);
      }
    }

    /** `onMouseLeave`: nothing is hovered, so nothing is expanded and every
        card has the base z-index and the slate border. */
    method MouseLeave()
      modifies this
      ensures hoveredNode == None
      ensures ExpandedCount(hoveredNode, nodes) == 0
      ensures forall j :: 0 <= j < |nodes| ==>
                CardStyleOf(hoveredNode, nodes[j], j).zIndex == 2
                && BorderColorOf(hoveredNode, nodes[j]) == Slate
    {
      hoveredNode := None;
      ExpandedCountPositive(None, nodes);
    }
  }
}

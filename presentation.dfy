/** Per-message presentation rules: the colour style chosen by a message's
    type, the rounded corners chosen by its side and its place in its group,
    and the one timestamp shown under each group. */
module Presentation {
  import opened Messages
  import opened Grouping

  datatype Hue = Yellow | Green | Red | Blue | Gray

  /** A Tailwind colour: a hue at a shade, or plain white. */
  datatype Paint = Tint(hue: Hue, shade: nat) | White

  /** The border and background colours of a message bubble. */
  datatype Style = Style(border: Paint, background: Paint)

  /** What an untagged statement gets: a light gray border on white. */
  const DefaultStyle := Style(Tint(Gray, 200), White)

  /** Bubble colours by rhetorical type; "statement" falls to the default. */
  function GetMessageStyle(kind: MessageType): (r: Style)
    ensures r == DefaultStyle <==> kind == Statement
    ensures kind != Statement ==>
      r.background.Tint? && r.background.shade == 50 && r.border == Tint(r.background.hue, 400)
  {
    match kind
    case Axiom => Style(Tint(Yellow, 400), Tint(Yellow, 50))
    case Claim => Style(Tint(Green, 400), Tint(Green, 50))
    case Question => Style(Tint(Red, 400), Tint(Red, 50))
    case Evidence => Style(Tint(Blue, 400), Tint(Blue, 50))
    case Statement => DefaultStyle
  }

  /** The style tells the type apart: no two types share a style. */
  lemma StyleDeterminesType(a: MessageType, b: MessageType)
    ensures GetMessageStyle(a) == GetMessageStyle(b) <==> a == b
  {
  }

  /** The Tailwind corner classes the page emits. */
  datatype CornerClass = RoundedR | RoundedL | RoundedTL | RoundedBL | RoundedTR | RoundedBR

  /** Which corners of a bubble are rounded. */
  datatype Corners = Corners(topLeft: bool, topRight: bool, bottomLeft: bool, bottomRight: bool)

  /** The corners a set of corner classes rounds: a side class rounds both
      corners of that side, a corner class rounds its one corner. */
  function Rounded(classes: set<CornerClass>): Corners
  {
    Corners(
      RoundedL in classes || RoundedTL in classes,
      RoundedR in classes || RoundedTR in classes,
      RoundedL in classes || RoundedBL in classes,
      RoundedR in classes || RoundedBR in classes)
  }

  /** Swaps left and right. */
  function Mirror(c: Corners): Corners
  {
    Corners(c.topRight, c.topLeft, c.bottomRight, c.bottomLeft)
  }

  /** Corner classes of a bubble: the side facing the partner is always
      rounded, the outer side only at the top of the group's first bubble
      and the bottom of its last. */
  function GetCornerStyles(isUser1: bool, isFirst: bool, isLast: bool): (r: set<CornerClass>)
    ensures var c := Rounded(r);
      if isUser1 then c.topRight && c.bottomRight && c.topLeft == isFirst && c.bottomLeft == isLast
      else c.topLeft && c.bottomLeft && c.topRight == isFirst && c.bottomRight == isLast
  {
    if isUser1 then
      {RoundedR} + (if isFirst then {RoundedTL} else {}) + (if isLast then {RoundedBL} else {})
    else
      {RoundedL} + (if isFirst then {RoundedTR} else {}) + (if isLast then {RoundedBR} else {})
  }

  /** user2's bubbles are user1's mirrored. */
  lemma CornersMirrored(isFirst: bool, isLast: bool)
    ensures Rounded(GetCornerStyles(false, isFirst, isLast)) == Mirror(Rounded(GetCornerStyles(true, isFirst, isLast)))
  {
  }

  /** A group is drawn on user1's side when its first message is user1's. */
  predicate IsUser1Group(group: seq<Message>)
    requires group != []
  {
    group[0].sender == User1
  }

  /** Whether the bubble at `messageIndex` opens its group. */
  predicate IsFirst(messageIndex: nat)
  {
    messageIndex == 0
  }

  /** Whether the bubble at `messageIndex` closes a group of `groupLength`. */
  predicate IsLast(messageIndex: nat, groupLength: nat)
  {
    messageIndex == groupLength - 1
  }

  /** The corners of the bubble at `messageIndex` within `group`: the side
      facing the partner is rounded, the outer top corner exactly on the
      first bubble and the outer bottom corner exactly on the last. */
  function BubbleCorners(group: seq<Message>, messageIndex: nat): (r: Corners)
    requires messageIndex < |group|
    ensures IsUser1Group(group) ==>
      r.topRight && r.bottomRight && (r.topLeft <==> messageIndex == 0) && (r.bottomLeft <==> messageIndex == |group| - 1)
    ensures !IsUser1Group(group) ==>
      r.topLeft && r.bottomLeft && (r.topRight <==> messageIndex == 0) && (r.bottomRight <==> messageIndex == |group| - 1)
  {
    Rounded(GetCornerStyles(IsUser1Group(group), IsFirst(messageIndex), IsLast(messageIndex, |group|)))
  }

  /** A one-message group is both first and last: all four corners round. */
  lemma {:induction false} SingleBubbleFullyRounded(group: seq<Message>)
    requires |group| == 1
    ensures BubbleCorners(group, 0) == Corners(true, true, true, true)
  {
  }

  /** The timestamp shown under one group: its last message's, when the
      page's `timestamp && ...` guard lets it through. */
  function GroupTimestamp(group: seq<Message>): seq<string>
    requires group != []
  {
    var last := group[|group| - 1];
    if Truthy(last.timestamp) then [last.timestamp.value] else []
  }

  /** The timestamps shown for a list of groups, top to bottom. */
  function ShownTimestamps(groups: seq<seq<Message>>): (r: seq<string>)
    requires forall i :: 0 <= i < |groups| ==> groups[i] != []
    ensures |r| <= |groups|
  {
    if groups == [] then [] else GroupTimestamp(groups[0]) + ShownTimestamps(groups[1..])
  }

  /** A group shows at most one timestamp; it is the last message's when
      that is present and non-empty, whatever the earlier messages carry. */
  lemma {:induction false} GroupTimestampFromLast(earlier: seq<Message>, last: Message)
    ensures |GroupTimestamp(earlier + [last])| <= 1
    ensures GroupTimestamp(earlier + [last]) ==
      if last.timestamp.Some? && last.timestamp.value != "" then [last.timestamp.value] else []
    ensures forall other: seq<Message> :: GroupTimestamp(other + [last]) == GroupTimestamp(earlier + [last])
  {
  }

  /** Message i closes its group: it is the last message or the next one
      comes from the other sender. */
  predicate EndsGroup(messages: seq<Message>, i: nat)
    requires i < |messages|
  {
    i == |messages| - 1 || messages[i + 1].sender != messages[i].sender
  }

  /** Per-message reference: the present, non-empty timestamps of the
      messages that close a group, in order. */
  function TimestampsOfGroupEnds(messages: seq<Message>): seq<string>
  {
    if messages == [] then []
    else
      (if EndsGroup(messages, 0) && messages[0].timestamp.Some? && messages[0].timestamp.value != "" then [messages[0].timestamp.value] else [])
      + TimestampsOfGroupEnds(messages[1..])
  }

  /** The page shows exactly the non-empty timestamps of the messages that
      close a group; a timestamp on any other message is never shown. */
  lemma {:induction false} ShownTimestampsAreGroupEnds(messages: seq<Message>)
    ensures IsGrouping(messages, Groups(messages))
    ensures ShownTimestamps(Groups(messages)) == TimestampsOfGroupEnds(messages)
    decreases |messages|
  {
    GroupsIsGrouping(messages);
    if messages != [] {
      var k := RunLength(messages);
      var gs := Groups(messages);
      assert gs[0] == messages[..k] && gs[1..] == Groups(messages[k..]);
      RunTimestamps(messages);
      ShownTimestampsAreGroupEnds(messages[k..]);
    }
  }

  /** Only the last message of the front run contributes its timestamp. */
  lemma {:induction false} RunTimestamps(messages: seq<Message>)
    requires messages != []
    ensures var k := RunLength(messages);
      TimestampsOfGroupEnds(messages) == GroupTimestamp(messages[..k]) + TimestampsOfGroupEnds(messages[k..])
    decreases |messages|
  {
    var k := RunLength(messages);
    if k > 1 {
      RunTimestamps(messages[1..]);
      assert messages[1..][..k - 1][k - 2] == messages[..k][k - 1];
      assert messages[1..][k - 1..] == messages[k..];
    }
  }

  /** The seeded conversation renders as two groups, user1's two messages
      and user2's four, showing "09:42" and "09:56" once each; message 5's
      "09:56" is not shown because message 6 follows it. */
  lemma SeededConversation()
    ensures Groups(SeededMessages) == [SeededMessages[..2], SeededMessages[2..]]
    ensures ShownTimestamps(Groups(SeededMessages)) == ["09:42", "09:56"]
  {
    var ms := SeededMessages;
    RunLengthIsMaximalRun(ms);
    RunLengthIsMaximalRun(ms[2..]);
    assert RunLength(ms) == 2;
    assert RunLength(ms[2..]) == 4;
    assert ms[2..][..4] == ms[2..] && ms[2..][4..] == [];
    assert Groups(ms[2..]) == [ms[2..]] + Groups([]);
    assert Groups(ms) == [ms[..2]] + Groups(ms[2..]);
  }
}

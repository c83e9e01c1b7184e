# Discussion page: grouping and presentation rules

This project models the logic inside the `DiscussionInterface` page of a two-party
discussion mock-up. The page has a fixed list of messages. Each message has a
rhetorical type (statement, claim, axiom, question, evidence) and one of two
senders. The page does four things with them:

- It splits the ordered list into maximal runs of same-sender messages ("groups").
  This is a single left-to-right pass with an accumulator.
- It picks each bubble's colours from the message type.
- It picks which corners of a bubble are rounded. This depends on the sender's side
  and on whether the bubble is the first or the last of its group.
- It shows at most one timestamp under each group: its last message's, when that
  message has a non-empty one.

The page also keeps a reply target (`replyingTo`). The reply button sets it, and
Cancel clears it. While a target is set, the page shows a preview of the target's
content, cut to 50 characters.

Modules:

- `Messages` (messages.dfy) has the `Message`, `MessageType` and `Sender`
  datatypes, `Option`, the `Truthy` test on optional strings, and the seeded
  message list.
- `Grouping` (grouping.dfy) has the grouping pass `MessageGroups`, written as a
  method with a loop over the list. It is proved equal to a recursive reference
  definition, `Groups`, which cuts off the maximal front run. The properties of a
  grouping are stated once, as `IsGrouping`.
- `Presentation` (presentation.dfy) has the style per type, the corner classes,
  first/last in a group, and the timestamps shown.
- `Reply` (reply.dfy) has the `replyingTo` state as a small class, the lookup
  `find`, the preview truncation, and when the reply area is visible.

Colour class names are modelled as (hue, shade) pairs or white. Corner class names
are modelled as a set of Tailwind corner tokens. `Rounded` says which corners a set
of tokens rounds, so the corner contracts talk about corners, not strings.

Four behaviours of the code that the model follows as written:

- When no message has the reply target's id, the code keeps the target set and
  shows an empty preview, with no "...". The target stays set.
- The grouping pass compares senders only. Timestamps play no part in where a
  group ends, although the comment above the pass mentions them.
- A group's timestamp is guarded by `timestamp && ...`. JavaScript treats `""`
  as false, so a group whose last message has an empty timestamp shows none.
  `Truthy` (in `Messages`) states this test once.
- The reply area is guarded by `replyingTo && ...`. JavaScript treats an empty id
  `""` as false, so a target whose id is empty is set but its reply area stays
  hidden. `ReplyPanel` models this.

## Model

| member | source | states |
|---|---|---|
| Grouping.MessageGroups | app/protected/changeMe/page.tsx:79-105 | The accumulator loop returns exactly the reference grouping `Groups(messages)`. That result is a grouping: concatenating the groups gives back the input in order, no group is empty, each group has one sender, and adjacent groups have different senders. There are no groups exactly when there are no messages. |
| Grouping.RunLengthIsMaximalRun | app/protected/changeMe/page.tsx:84-96 | Every message in the front run has the first message's sender, and the message right after the run (if any) has the other sender. So the front run is the maximal run the loop keeps adding to. |
| Grouping.GroupsIsGrouping | app/protected/changeMe/page.tsx:83-102 | The reference grouping satisfies all four grouping properties for every input: it partitions the input in order, its groups are non-empty, each has one sender, and adjacent groups have different senders. |
| Grouping.GroupingUnique | app/protected/changeMe/page.tsx:86-96 | Any list of groups with the four grouping properties is the reference grouping. So the groups are exactly the maximal same-sender runs; no other split qualifies. |
| Grouping.GroupCount | app/protected/changeMe/page.tsx:84-93 | An empty list has no groups. A non-empty list has 1 plus the number of indices i > 0 where message i's sender differs from message i - 1's. |
| Grouping.GroupsSnocNew | app/protected/changeMe/page.tsx:89-93 | Appending a message whose sender differs from the previous message's closes the open group and starts a new one-message group. |
| Grouping.GroupsSnocExtend | app/protected/changeMe/page.tsx:94-95 | Appending a message with the previous message's sender adds it to the end of the last group and leaves the other groups as they were. |
| Grouping.ThreeRuns | app/protected/changeMe/page.tsx:79-105 | Senders A, A, B, B, B, A give three groups: messages 0-1, messages 2-4 and message 5. |
| Presentation.GetMessageStyle | app/protected/changeMe/page.tsx:108-121 | The mapping is total over the five types. Only "statement" gets the default gray-200 border on white. Each of the other four gets a 400 border and a 50 background of one hue. |
| Presentation.StyleDeterminesType | app/protected/changeMe/page.tsx:108-121 | Two types get the same style exactly when they are the same type. So axiom, claim, question and evidence have four distinct styles, all different from the default. |
| Presentation.GetCornerStyles | app/protected/changeMe/page.tsx:124-132 | For user1, both right corners are always rounded. Its top-left is rounded exactly when `isFirst`, and its bottom-left exactly when `isLast`. user2 is the same with left and right swapped. |
| Presentation.CornersMirrored | app/protected/changeMe/page.tsx:124-132 | user2's rounded corners are user1's mirrored left to right, for every combination of first/last. |
| Presentation.BubbleCorners | app/protected/changeMe/page.tsx:156-173 | Within a group, the side facing the partner is always rounded. The outer top corner is rounded exactly on the bubble at index 0. The outer bottom corner is rounded exactly on the bubble at the last index. |
| Presentation.SingleBubbleFullyRounded | app/protected/changeMe/page.tsx:171-173 | The bubble of a one-message group is both first and last, so all four of its corners are rounded. |
| Presentation.ShownTimestamps | app/protected/changeMe/page.tsx:207-212 | A list of groups shows at most one timestamp per group. The link to the messages themselves is `ShownTimestampsAreGroupEnds`. |
| Presentation.GroupTimestampFromLast | app/protected/changeMe/page.tsx:208-210 | A group shows at most one timestamp. It is the last message's timestamp when that is present and non-empty, and nothing otherwise (a missing or empty timestamp shows nothing). Changing the earlier messages of the group does not change it. |
| Presentation.ShownTimestampsAreGroupEnds | app/protected/changeMe/page.tsx:207-212 | Over the whole conversation, the timestamps shown are exactly the present, non-empty timestamps of the messages that end a group (the last message, or one followed by the other sender), in order. A timestamp on any other message is never shown. |
| Presentation.SeededConversation | app/protected/changeMe/page.tsx:30-70 | The seeded list renders as two groups: user1's first two messages and user2's last four. They show "09:42" and "09:56" once each. |
| Reply.Find | app/protected/changeMe/page.tsx:228 | The lookup finds nothing exactly when no message has the id. Otherwise it returns the first message with that id. |
| Reply.Truncate | app/protected/changeMe/page.tsx:228-229 | Content of at most 50 characters is shown whole, with no "...". Longer content shows its first 50 characters followed by "...". |
| Reply.ReplyPreview | app/protected/changeMe/page.tsx:228-229 | The preview is at most 53 characters. It is the truncated content of the first message with the target id. If no message has that id, it is empty and has no "...". |
| Reply.ReplyPanel | app/protected/changeMe/page.tsx:223-239 | The reply area is shown exactly when a target is set and its id is not the empty string. When shown, it holds the preview of that target. |
| Reply.ReplyState.constructor | app/protected/changeMe/page.tsx:75 | The state starts with no reply target. |
| Reply.ReplyState.HandleReply | app/protected/changeMe/page.tsx:135-143 | From any prior state, the target becomes the clicked message's id. |
| Reply.ReplyState.Cancel | app/protected/changeMe/page.tsx:234 | From any prior state, the target becomes null. |
| Reply.ReplyThenCancel | app/protected/changeMe/page.tsx:135-136 | On the seeded list, replying to message "3" shows the preview "I am a claim", and Cancel then hides the reply area. |

## Left out

- JSX rendering, layout, avatars, left/right alignment, tooltips and the
  select, textarea and button components: these are presentation and foreign
  library code. Only the rules that pick bubble colours, corners and timestamps
  are modelled.
- React hooks as such (`useState`, `useMemo`). The seeded list has no setter, so
  it is a constant (`SeededMessages`). The memoised grouping is the method
  `MessageGroups` applied to the list.
- `hoveredMessage`: it is declared but never updated.
- `statementType`, `connectionType` and the compose text `newMessage`: these are
  plain input bindings with no logic.
- The Submit button: it has no handler, so there is no behaviour to model.
- The rule that an axiom must be voted on by both users: it is only a comment and
  is not implemented.
- `connectedTo`: it is kept in the `Message` datatype but is never read.
- Strings are sequences of Dafny characters. JavaScript's `substring` and
  `length` count UTF-16 code units, so content with characters outside the Basic
  Multilingual Plane would be cut at a different place. The seeded content is
  plain ASCII.
- The lookup inside `handleReply`: the source looks up the message and then
  does nothing with the result. The model makes the same lookup, and nothing
  observable follows from it.

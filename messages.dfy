/** The shape of one discussion message: its rhetorical type, its sender
    (one of exactly two participants) and the optional fields. */
module Messages {

  datatype Option<+T> = None | Some(value: T)

  /** The rhetorical role of a message. */
  datatype MessageType = Statement | Claim | Axiom | Question | Evidence

  /** The two participants; user1 is drawn on the left, user2 on the right. */
  datatype Sender = User1 | User2

  /** A message. `connectedTo` is carried but never read by the page. */
  datatype Message = Message(
    id: string,
    content: string,
    kind: MessageType,
    sender: Sender,
    timestamp: Option<string>,
    connectedTo: Option<string>
  )

  /** Whether the page's `value && ...` guard lets an optional string
      through: JavaScript treats both a missing value and "" as false. */
  predicate Truthy(value: Option<string>)
  {
    value.Some? && value.value != ""
  }

  /** The list the page is seeded with; it has no setter, so it never changes. */
  const SeededMessages: seq<Message> := [
    Message("1", "I am a statement - with no designated type", Statement, User1, None, None),
    Message("2", "I am an Axiom", Axiom, User1, Some("09:42"), None),
    Message("3", "I am a claim", Claim, User2, None, None),
    Message("4", "I am a question?", Question, User2, None, None),
    Message("5", "I am Evidence printing and typesetting industry Lorem Ipsum has been the industry's standard dummy text ever since the 1500s when an unknown printer took a galley of type and scrambled it to make a type specimen book it has?", Evidence, User2, Some("09:56"), None),
    Message("6", "What does this dummy text mean?", Question, User2, Some("09:56"), None)
  ]
}

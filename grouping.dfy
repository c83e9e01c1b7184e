/** Splitting the ordered message list into maximal contiguous runs of
    messages from one sender ("groups"). */
module Grouping {
  import opened Messages

  /** The messages of all groups, in order. */
  function Flatten(groups: seq<seq<Message>>): seq<Message>
  {
    if groups == [] then [] else groups[0] + Flatten(groups[1..])
  }

  /** Every message of a non-empty group has the sender of its first one. */
  predicate Uniform(group: seq<Message>)
    requires group != []
  {
    forall j :: 0 <= j < |group| ==> group[j].sender == group[0].sender
  }

  /** `groups` is a grouping of `messages` by sender: it partitions them in
      order, no group is empty, each group has one sender, and adjacent
      groups have different senders. */
  predicate IsGrouping(messages: seq<Message>, groups: seq<seq<Message>>)
  {
    && Flatten(groups) == messages
    && (forall i :: 0 <= i < |groups| ==> groups[i] != [] && Uniform(groups[i]))
    && (forall i :: 0 < i < |groups| ==> groups[i - 1][0].sender != groups[i][0].sender)
  }

  /** Length of the longest prefix of `messages` sent by its first sender. */
  function RunLength(messages: seq<Message>): (k: nat)
    requires messages != []
    ensures 1 <= k <= |messages|
  {
    if |messages| == 1 || messages[1].sender != messages[0].sender then 1
    else 1 + RunLength(messages[1..])
  }

  /** The front run is maximal: every message in it has the first message's
      sender, and the message right after it has the other sender. */
  lemma {:induction false} RunLengthIsMaximalRun(messages: seq<Message>)
    requires messages != []
    ensures forall j :: 0 <= j < RunLength(messages) ==> messages[j].sender == messages[0].sender
    ensures RunLength(messages) < |messages| ==> messages[RunLength(messages)].sender != messages[0].sender
    decreases |messages|
  {
    if |messages| > 1 && messages[1].sender == messages[0].sender {
      RunLengthIsMaximalRun(messages[1..]);
    }
  }

  /** Reference definition: the first group is the maximal run at the front,
      the rest is the grouping of what follows it. */
  function Groups(messages: seq<Message>): seq<seq<Message>>
    decreases |messages|
  {
    if messages == [] then []
    else
      var k := RunLength(messages);
      [messages[..k]] + Groups(messages[k..])
  }

  /** The number of indices i > 0 where the sender differs from message i - 1's. */
  function SenderChanges(messages: seq<Message>): nat
  {
    if |messages| <= 1 then 0
    else (if messages[0].sender != messages[1].sender then 1 else 0) + SenderChanges(messages[1..])
  }

  /** The groups so far followed by the open accumulator, if it holds any. */
  function Closed(groups: seq<seq<Message>>, currentGroup: seq<Message>): seq<seq<Message>>
  {
    if currentGroup == [] then groups else groups + [currentGroup]
  }

  /** The page's grouping pass: one left-to-right scan with an accumulator
      `currentGroup` that is closed whenever the sender changes. */
  method MessageGroups(messages: seq<Message>) returns (groups: seq<seq<Message>>)
    ensures groups == Groups(messages)
    ensures IsGrouping(messages, groups)
    ensures groups == [] <==> messages == []
  {
    groups := [];
    var currentGroup: seq<Message> := [];
    var index := 0;
    while index < |messages|
      invariant 0 <= index <= |messages|
      invariant currentGroup == [] <==> index == 0
      invariant Closed(groups, currentGroup) == Groups(messages[..index])
    {
      var message := messages[index];
      var prevMessage := if index > 0 then Some(messages[index - 1]) else None;
      assert messages[..index + 1] == messages[..index] + [message];
      ghost var before := messages[..index];
      if prevMessage.None? || prevMessage.value.sender != message.sender {
        if index == 0 {
          assert before == [] && groups == [];
          assert Groups(before + [message]) == [[message]] by {
            assert before + [message] == [message];
            assert [message][..1] == [message] && [message][1..] == [];
          }
        } else {
          GroupsSnocNew(before, message);
        }
        if |currentGroup| > 0 {
          groups := groups + [currentGroup];
        }
        currentGroup := [message];
      } else {
        GroupsSnocExtend(before, message, groups, currentGroup);
        currentGroup := currentGroup + [message];
      }
      index := index + 1;
    }
    if |currentGroup| > 0 {
      groups := groups + [currentGroup];
    }
    assert messages[..index] == messages;
    GroupsIsGrouping(messages);
  }

  /** Appending a message leaves the front run alone unless the run spans
      the whole prefix. */
  lemma {:induction false} RunLengthSnoc(prefix: seq<Message>, m: Message)
    requires prefix != []
    ensures RunLength(prefix + [m]) ==
      if RunLength(prefix) < |prefix| then RunLength(prefix)
      else if prefix[0].sender == m.sender then |prefix| + 1
      else |prefix|
    decreases |prefix|
  {
    var all := prefix + [m];
    assert all[0] == prefix[0];
    if |prefix| == 1 {
      assert all[1] == m && all[1..] == [m];
    } else {
      assert all[1] == prefix[1];
      if prefix[1].sender == prefix[0].sender {
        assert all[1..] == prefix[1..] + [m];
        RunLengthSnoc(prefix[1..], m);
      }
    }
  }

  /** Appending past the end of the front run leaves that run as the first
      group. */
  lemma {:induction false} GroupsSnocPastRun(prefix: seq<Message>, m: Message)
    requires prefix != [] && RunLength(prefix) < |prefix|
    ensures var k := RunLength(prefix);
      Groups(prefix + [m]) == [prefix[..k]] + Groups(prefix[k..] + [m])
  {
    RunLengthSnoc(prefix, m);
    SliceSnoc(prefix, m, RunLength(prefix));
  }

  /** A list that is one run is one group; a message appended to it joins
      that group or opens a second one. */
  lemma {:induction false} GroupsSnocWithinRun(prefix: seq<Message>, m: Message)
    requires prefix != [] && RunLength(prefix) == |prefix|
    ensures Groups(prefix) == [prefix]
    ensures Groups(prefix + [m]) == if prefix[|prefix| - 1].sender == m.sender then [prefix + [m]] else [prefix, [m]]
  {
    var all := prefix + [m];
    RunLengthSnoc(prefix, m);
    RunLengthIsMaximalRun(prefix);
    assert prefix[..|prefix|] == prefix && prefix[|prefix|..] == [];
    if prefix[0].sender == m.sender {
      assert all[..|all|] == all && all[|all|..] == [];
    } else {
      assert all[..|prefix|] == prefix && all[|prefix|..] == [m];
      assert [m][..1] == [m] && [m][1..] == [];
    }
  }

  /** A message from the other sender opens a new group at the end. */
  lemma {:induction false} GroupsSnocNew(prefix: seq<Message>, m: Message)
    requires prefix != [] && prefix[|prefix| - 1].sender != m.sender
    ensures Groups(prefix + [m]) == Groups(prefix) + [[m]]
    decreases |prefix|
  {
    var k := RunLength(prefix);
    if k < |prefix| {
      var tail := prefix[k..];
      assert tail[|tail| - 1] == prefix[|prefix| - 1];
      GroupsSnocPastRun(prefix, m);
      GroupsSnocNew(tail, m);
      GroupsUnfold(prefix);
      assert Groups(prefix) == [prefix[..k]] + Groups(tail);
    } else {
      GroupsSnocWithinRun(prefix, m);
    }
  }

  /** A message from the same sender joins the last group. */
  lemma {:induction false} GroupsSnocExtend(prefix: seq<Message>, m: Message, init: seq<seq<Message>>, last: seq<Message>)
    requires prefix != [] && prefix[|prefix| - 1].sender == m.sender
    requires Groups(prefix) == init + [last]
    ensures Groups(prefix + [m]) == init + [last + [m]]
    decreases |prefix|
  {
    var k := RunLength(prefix);
    if k < |prefix| {
      var tail := prefix[k..];
      GroupsUnfold(prefix);
      GroupsUnfold(tail);
      SplitLast(prefix[..k], Groups(tail), init, last);
      assert tail[|tail| - 1] == prefix[|prefix| - 1];
      GroupsSnocPastRun(prefix, m);
      GroupsSnocExtend(tail, m, init[1..], last);
      SplitLast(prefix[..k], Groups(tail + [m]), init, last + [m]);
    } else {
      GroupsSnocWithinRun(prefix, m);
      SplitLast(prefix, [], init, last);
    }
  }

  /** Matching a list split at its head against one split at its last
      element. */
  lemma {:induction false} SplitLast<T>(first: T, rest: seq<T>, init: seq<T>, last: T)
    ensures [first] + rest == init + [last] <==>
      if rest == [] then init == [] && first == last
      else init != [] && init[0] == first && rest == init[1..] + [last]
  {
    if [first] + rest == init + [last] {
      if rest == [] {
        assert |init| == 0;
        assert ([first] + rest)[0] == (init + [last])[0];
      } else {
        assert ([first] + rest)[0] == (init + [last])[0];
        assert ([first] + rest)[1..] == rest;
        assert (init + [last])[1..] == init[1..] + [last];
      }
    }
    if rest != [] && init != [] && init[0] == first && rest == init[1..] + [last] {
      assert init == [init[0]] + init[1..];
    }
  }

  /** Slicing a list with one element appended. */
  lemma {:induction false} SliceSnoc<T>(s: seq<T>, x: T, k: nat)
    requires k <= |s|
    ensures (s + [x])[..k] == s[..k]
    ensures (s + [x])[k..] == s[k..] + [x]
  {
  }

  /** The grouping of a non-empty list starts with its front run. */
  lemma {:induction false} GroupsUnfold(messages: seq<Message>)
    requires messages != []
    ensures Groups(messages) != []
    ensures Groups(messages)[0] == messages[..RunLength(messages)]
    ensures Groups(messages)[1..] == Groups(messages[RunLength(messages)..])
  {
  }

  /** The reference grouping is a grouping. */
  lemma {:induction false} GroupsIsGrouping(messages: seq<Message>)
    ensures IsGrouping(messages, Groups(messages))
    decreases |messages|
  {
    if messages != [] {
      var k := RunLength(messages);
      RunLengthIsMaximalRun(messages);
      var rest := Groups(messages[k..]);
      GroupsIsGrouping(messages[k..]);
      var gs := Groups(messages);
      assert gs == [messages[..k]] + rest;
      assert gs[1..] == rest;
      assert Flatten(gs) == messages[..k] + messages[k..] == messages;
      if rest != [] {
        assert rest[0][0] == messages[k];
      }
      forall i | 0 < i < |gs|
        ensures gs[i - 1][0].sender != gs[i][0].sender
      {
        if i > 1 {
          assert gs[i - 1] == rest[i - 2] && gs[i] == rest[i - 1];
        }
      }
    }
  }

  /** A grouping is unique: whatever satisfies IsGrouping is the reference
      grouping. */
  lemma {:induction false} GroupingUnique(messages: seq<Message>, groups: seq<seq<Message>>)
    requires IsGrouping(messages, groups)
    ensures groups == Groups(messages)
    decreases |messages|
  {
    if groups == [] {
      assert messages == [];
    } else {
      var g := groups[0];
      var rest := groups[1..];
      assert messages == g + Flatten(rest);
      var k := RunLength(messages);
      RunLengthIsMaximalRun(messages);
      assert |g| <= k;
      if |g| < |messages| {
        assert rest != [];
        assert messages[|g|] == rest[0][0] && rest[0] == groups[1];
        assert messages[|g|].sender != messages[0].sender;
      }
      assert |g| >= k;
      assert g == messages[..k];
      assert Flatten(rest) == messages[k..];
      assert IsGrouping(messages[k..], rest) by {
        forall i | 0 < i < |rest|
          ensures rest[i - 1][0].sender != rest[i][0].sender
        {
          assert rest[i - 1] == groups[i] && rest[i] == groups[i + 1];
        }
      }
      GroupingUnique(messages[k..], rest);
    }
  }

  /** For non-empty input there is one group more than there are sender
      changes; no input gives no group. */
  lemma {:induction false} GroupCount(messages: seq<Message>)
    ensures |Groups(messages)| == if messages == [] then 0 else 1 + SenderChanges(messages)
    decreases |messages|
  {
    if messages != [] {
      var k := RunLength(messages);
      RunSenderChanges(messages);
      GroupCount(messages[k..]);
    }
  }

  /** Senders A, A, B, B, B, A give three groups of sizes 2, 3 and 1. */
  lemma {:induction false} ThreeRuns(messages: seq<Message>, a: Sender, b: Sender)
    requires |messages| == 6 && a != b
    requires messages[0].sender == messages[1].sender == messages[5].sender == a
    requires messages[2].sender == messages[3].sender == messages[4].sender == b
    ensures Groups(messages) == [messages[..2], messages[2..5], messages[5..]]
  {
    RunLengthIsMaximalRun(messages);
    RunLengthIsMaximalRun(messages[2..]);
    assert RunLength(messages) == 2;
    assert RunLength(messages[2..]) == 3;
    assert messages[2..][3..] == messages[5..];
    assert RunLength(messages[5..]) == 1;
    assert messages[2..][..3] == messages[2..5];
    assert messages[5..][..1] == messages[5..] && messages[5..][1..] == [];
    assert Groups(messages[5..]) == [messages[5..]] + Groups([]);
    assert Groups(messages[2..]) == [messages[2..5]] + Groups(messages[5..]);
    assert Groups(messages) == [messages[..2]] + Groups(messages[2..]);
  }

  /** Sender changes inside the front run contribute nothing; the change
      that ends it counts one. */
  lemma {:induction false} RunSenderChanges(messages: seq<Message>)
    requires messages != []
    ensures var k := RunLength(messages);
      SenderChanges(messages) == if k < |messages| then 1 + SenderChanges(messages[k..]) else 0
    decreases |messages|
  {
    if |messages| > 1 && messages[1].sender == messages[0].sender {
      var k := RunLength(messages);
      RunSenderChanges(messages[1..]);
      assert messages[1..][k - 1..] == messages[k..];
    }
  }
}

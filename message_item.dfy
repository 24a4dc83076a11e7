/**
 * The two conditions of components/MessageItem.tsx and the sender header they decide,
 * over the message list that app/(main)/message.tsx renders (each item gets the one
 * before it as `prevItem`, the first gets `null`).
 */
module MessageItem {
  import opened Wrappers

  datatype Sender = Sender(id: string, name: string, image: Option<string>)

  /** A message with its sender joined in: the flat `user_id` column and the nested `user` row. */
  datatype ChatMessage = ChatMessage(userId: string, user: Sender, content: string)

  /** `isMine` (MessageItem.tsx:18): the flat `user_id` equals the signed-in user's id (none when signed out). */
  predicate IsMine(item: ChatMessage, viewer: Option<string>)
    ensures IsMine(item, viewer) ==> viewer == Some(item.userId)
    ensures viewer == Some(item.userId) ==> IsMine(item, viewer)
  {
    viewer.Some? && item.userId == viewer.value
  }

  /** `showUserInfo` (MessageItem.tsx:19): no previous message, or one from a different nested `user.id`. */
  predicate ShowUserInfo(item: ChatMessage, prevItem: Option<ChatMessage>)
    ensures prevItem.None? ==> ShowUserInfo(item, prevItem)
    ensures prevItem.Some? ==> (!ShowUserInfo(item, prevItem) <==> prevItem.value.user.id == item.user.id)
  {
    prevItem.None? || prevItem.value.user.id != item.user.id
  }

  /** The avatar and name are drawn (MessageItem.tsx:23). */
  predicate ShowsHeader(item: ChatMessage, prevItem: Option<ChatMessage>, viewer: Option<string>)
    ensures ShowsHeader(item, prevItem, viewer) ==> !IsMine(item, viewer)
    ensures prevItem.None? ==> (ShowsHeader(item, prevItem, viewer) <==> !IsMine(item, viewer))
    ensures prevItem.Some? && prevItem.value.user.id == item.user.id ==> !ShowsHeader(item, prevItem, viewer)
    ensures prevItem.Some? && prevItem.value.user.id != item.user.id ==>
      (ShowsHeader(item, prevItem, viewer) <==> !IsMine(item, viewer))
  {
    !IsMine(item, viewer) && ShowUserInfo(item, prevItem)
  }

  /** The `prevItem` that message.tsx passes for the item at `index`. */
  function PrevItem(messages: seq<ChatMessage>, index: nat): Option<ChatMessage>
    requires index < |messages|
  {
    if index > 0 then Some(messages[index - 1]) else None
  }

  /** How many sender headers the list shows. */
  function HeaderCount(messages: seq<ChatMessage>, viewer: Option<string>): nat {
    if messages == [] then 0
    else
      var i := |messages| - 1;
      HeaderCount(messages[..i], viewer) + (if ShowsHeader(messages[i], PrevItem(messages, i), viewer) then 1 else 0)
  }

  /** A maximal stretch of consecutive messages with the same nested sender id. */
  datatype Run = Run(senderId: string, messages: seq<ChatMessage>)

  function Flatten(runs: seq<Run>): seq<ChatMessage> {
    if runs == [] then [] else Flatten(runs[..|runs| - 1]) + runs[|runs| - 1].messages
  }

  predicate WellFormedRun(run: Run) {
    run.messages != [] && forall m :: m in run.messages ==> m.user.id == run.senderId
  }

  /** Splits a message list into its sender runs: consecutive messages from one sender share a run. */
  function Runs(messages: seq<ChatMessage>): (r: seq<Run>)
    ensures |r| == 0 <==> |messages| == 0
    ensures forall k :: 0 <= k < |r| ==> r[k].messages != []
    ensures r != [] ==> r[|r| - 1].senderId == messages[|messages| - 1].user.id
  {
    if messages == [] then []
    else
      var m := messages[|messages| - 1];
      var before := Runs(messages[..|messages| - 1]);
      if before != [] && before[|before| - 1].senderId == m.user.id then
        var last := before[|before| - 1];
        before[..|before| - 1] + [Run(last.senderId, last.messages + [m])]
      else
        before + [Run(m.user.id, [m])]
  }

  /** Every run is non-empty and all its messages come from its sender. */
  lemma {:induction false} RunsWellFormed(messages: seq<ChatMessage>)
    ensures forall k :: 0 <= k < |Runs(messages)| ==> WellFormedRun(Runs(messages)[k])
    decreases |messages|
  {
    if messages != [] {
      var i := |messages| - 1;
      var m := messages[i];
      var before := Runs(messages[..i]);
      RunsWellFormed(messages[..i]);
      RunsLast(messages);
      if i > 0 && messages[i - 1].user.id == m.user.id {
        var last := before[|before| - 1];
        assert WellFormedRun(last);
        assert WellFormedRun(Run(last.senderId, last.messages + [m]));
      }
    }
  }

  /** Neighbouring runs have different senders, so no run could be merged with the next. */
  lemma {:induction false} RunsSendersAlternate(messages: seq<ChatMessage>)
    ensures forall k :: 0 < k < |Runs(messages)| ==> Runs(messages)[k - 1].senderId != Runs(messages)[k].senderId
    decreases |messages|
  {
    if messages != [] {
      var i := |messages| - 1;
      var m := messages[i];
      RunsSendersAlternate(messages[..i]);
      RunsLast(messages);
      assert i > 0 ==> messages[..i][i - 1] == messages[i - 1];
    }
  }

  /** Put back together, the runs are the message list. */
  lemma {:induction false} RunsFlatten(messages: seq<ChatMessage>)
    ensures Flatten(Runs(messages)) == messages
    decreases |messages|
  {
    if messages != [] {
      var i := |messages| - 1;
      var m := messages[i];
      var before := Runs(messages[..i]);
      RunsFlatten(messages[..i]);
      RunsLast(messages);
      assert messages == messages[..i] + [m];
      var r := Runs(messages);
      if i > 0 && messages[i - 1].user.id == m.user.id {
        var last := before[|before| - 1];
        assert r[..|r| - 1] == before[..|before| - 1];
        assert Flatten(before) == Flatten(before[..|before| - 1]) + last.messages;
      } else {
        assert r[..|r| - 1] == before;
      }
    }
  }

  /** How many runs start with a message that is not the viewer's own. */
  function ForeignRuns(runs: seq<Run>, viewer: Option<string>): nat {
    if runs == [] then 0
    else
      var last := runs[|runs| - 1];
      ForeignRuns(runs[..|runs| - 1], viewer) + (if last.messages != [] && !IsMine(last.messages[0], viewer) then 1 else 0)
  }

  /** Adding a message to the last run leaves that run's first message, and so the count, as it was. */
  lemma ForeignRunsExtendLast(runs: seq<Run>, m: ChatMessage, viewer: Option<string>)
    requires runs != [] && runs[|runs| - 1].messages != []
    ensures var last := runs[|runs| - 1];
      var r := runs[..|runs| - 1] + [Run(last.senderId, last.messages + [m])];
      ForeignRuns(r, viewer) == ForeignRuns(runs, viewer)
  {
    var last := runs[|runs| - 1];
    var r := runs[..|runs| - 1] + [Run(last.senderId, last.messages + [m])];
    assert r[..|r| - 1] == runs[..|runs| - 1];
    assert (last.messages + [m])[0] == last.messages[0];
  }

  /** A new run adds one exactly when its first message is not the viewer's. */
  lemma ForeignRunsAppend(runs: seq<Run>, m: ChatMessage, viewer: Option<string>)
    ensures var r := runs + [Run(m.user.id, [m])];
      ForeignRuns(r, viewer) == ForeignRuns(runs, viewer) + (if !IsMine(m, viewer) then 1 else 0)
  {
    var r := runs + [Run(m.user.id, [m])];
    assert r[..|r| - 1] == runs;
  }

  /** Unfolds HeaderCount at the last message. */
  lemma HeaderCountLast(messages: seq<ChatMessage>, viewer: Option<string>)
    requires messages != []
    ensures var i := |messages| - 1;
      HeaderCount(messages, viewer)
      == HeaderCount(messages[..i], viewer) + (if ShowsHeader(messages[i], PrevItem(messages, i), viewer) then 1 else 0)
  {
  }

  /** The last message continues the last run exactly when its previous message has the same sender. */
  lemma RunsLast(messages: seq<ChatMessage>)
    requires messages != []
    ensures var i := |messages| - 1;
      var before := Runs(messages[..i]);
      var m := messages[i];
      if i > 0 && messages[i - 1].user.id == m.user.id then
        && before != []
        && var last := before[|before| - 1];
           Runs(messages) == before[..|before| - 1] + [Run(last.senderId, last.messages + [m])]
      else
        Runs(messages) == before + [Run(m.user.id, [m])]
  {
    var i := |messages| - 1;
    assert i > 0 ==> messages[..i][i - 1] == messages[i - 1];
  }

  /** The list shows one header per sender run that does not start with one of the viewer's own messages. */
  lemma {:induction false} HeadersCountForeignRuns(messages: seq<ChatMessage>, viewer: Option<string>)
    ensures HeaderCount(messages, viewer) == ForeignRuns(Runs(messages), viewer)
    decreases |messages|
  {
    if messages != [] {
      var i := |messages| - 1;
      var m := messages[i];
      var before := Runs(messages[..i]);
      HeadersCountForeignRuns(messages[..i], viewer);
      HeaderCountLast(messages, viewer);
      RunsLast(messages);
      if i > 0 && messages[i - 1].user.id == m.user.id {
        ForeignRunsExtendLast(before, m, viewer);
      } else {
        ForeignRunsAppend(before, m, viewer);
      }
    }
  }

  /** Runs whose sender is someone other than the viewer. */
  function RunsNotFrom(runs: seq<Run>, viewer: Option<string>): nat {
    if runs == [] then 0
    else
      RunsNotFrom(runs[..|runs| - 1], viewer)
        + (if viewer.None? || runs[|runs| - 1].senderId != viewer.value then 1 else 0)
  }

  /**
   * When every message's flat `user_id` agrees with its nested `user.id`, the number of
   * headers is the number of sender runs whose sender is not the viewer.
   */
  lemma HeadersCountRunsOfOthers(messages: seq<ChatMessage>, viewer: Option<string>)
    requires forall i :: 0 <= i < |messages| ==> messages[i].userId == messages[i].user.id
    ensures HeaderCount(messages, viewer) == RunsNotFrom(Runs(messages), viewer)
  {
    HeadersCountForeignRuns(messages, viewer);
    RunsWellFormed(messages);
    RunsFlatten(messages);
    ConsistentRuns(Runs(messages), viewer);
  }

  /** Every message of every run is one of the flattened messages. */
  lemma {:induction false} RunMessagesAreFlattened(runs: seq<Run>, k: nat, m: ChatMessage)
    requires k < |runs| && m in runs[k].messages
    ensures m in Flatten(runs)
    decreases |runs|
  {
    if k < |runs| - 1 {
      RunMessagesAreFlattened(runs[..|runs| - 1], k, m);
    }
  }

  lemma {:induction false} ConsistentRuns(runs: seq<Run>, viewer: Option<string>)
    requires forall k :: 0 <= k < |runs| ==> WellFormedRun(runs[k])
    requires forall m :: m in Flatten(runs) ==> m.userId == m.user.id
    ensures ForeignRuns(runs, viewer) == RunsNotFrom(runs, viewer)
    decreases |runs|
  {
    if runs != [] {
      var last := runs[|runs| - 1];
      assert last.messages[0] in last.messages;
      RunMessagesAreFlattened(runs, |runs| - 1, last.messages[0]);
      forall m | m in Flatten(runs[..|runs| - 1]) ensures m.userId == m.user.id {
        assert Flatten(runs) == Flatten(runs[..|runs| - 1]) + last.messages;
      }
      ConsistentRuns(runs[..|runs| - 1], viewer);
    }
  }
}

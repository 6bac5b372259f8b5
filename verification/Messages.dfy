/** Conversation messages as dictionaries, and their grouping into atomic
    tool exchanges. */
module Messages {
  import opened Json

  /** Messages are dictionaries; any other value counts as one without entries. */
  type Message = Value

  function Fields(m: Message): seq<Field> {
    if m.Obj? then m.fields else []
  }

  function Get(m: Message, key: string): Value {
    Lookup(Fields(m), key)
  }

  function Set(m: Message, key: string, value: Value): Message {
    Obj(Put(Fields(m), key, value))
  }

  function Role(m: Message): string {
    TextOf(Get(m, "role"))
  }

  predicate Valid(m: Message) {
    && m.Obj?
    && Role(m) in {"system", "user", "assistant", "tool"}
    && (!Empty(Get(m, "content")) || Truthy(Get(m, "tool_calls")))
  }

  function OnlyValid(messages: seq<Message>): (valid: seq<Message>)
    ensures forall m :: m in valid ==> Valid(m)
  {
    if messages == [] then []
    else (if Valid(messages[0]) then [messages[0]] else []) + OnlyValid(messages[1..])
  }

  lemma {:induction false} OnlyValidConcat(a: seq<Message>, b: seq<Message>)
    ensures OnlyValid(a + b) == OnlyValid(a) + OnlyValid(b)
  {
    if a == [] {
      assert a + b == b;
    } else {
      assert (a + b)[1..] == a[1..] + b;
      OnlyValidConcat(a[1..], b);
    }
  }

  /** A message counts if and only if it is a dictionary with one of the four roles, and with
      a content that is something or with tool calls. */
  lemma OnlyValidKeepsExactly(messages: seq<Message>, m: Message)
    ensures OnlyValid(messages + [m])
         == OnlyValid(messages)
            + if && m.Obj? && (Role(m) == "system" || Role(m) == "user" || Role(m) == "assistant" || Role(m) == "tool")
                 && (Get(m, "content") !in [Null, Str(""), Arr([]), Obj([])] || Truthy(Get(m, "tool_calls")))
              then [m] else []
  {
    OnlyValidConcat(messages, [m]);
    assert [m][1..] == [];
  }

  lemma {:induction false} OnlyValidKeepsAll(messages: seq<Message>)
    requires forall m :: m in messages ==> Valid(m)
    ensures OnlyValid(messages) == messages
  {
    if messages != [] {
      OnlyValidKeepsAll(messages[1..]);
    }
  }

  function Flatten(groups: seq<seq<Message>>): seq<Message> {
    if groups == [] then [] else Flatten(groups[..|groups| - 1]) + groups[|groups| - 1]
  }

  lemma FlattenSnoc(groups: seq<seq<Message>>, group: seq<Message>)
    ensures Flatten(groups + [group]) == Flatten(groups) + group
  {
    assert (groups + [group])[..|groups|] == groups;
  }

  // ---------------------------------------------------------------- grouping

  /** The ids of the tool calls a message opens. */
  function OpenedCalls(m: Message): set<string> {
    match Get(m, "tool_calls")
    case Arr(items) =>
      set i | 0 <= i < |items| && items[i].Obj? && Truthy(Lookup(items[i].fields, "id"))
            :: TextOf(Lookup(items[i].fields, "id"))
    case _ => {}
  }

  function AnsweredCall(m: Message): string {
    TextOf(Get(m, "tool_call_id"))
  }

  /** The groups built so far and the calls of the last one still unanswered. */
  datatype Grouping = Grouping(groups: seq<seq<Message>>, open: set<string>)

  /** A tool message joins the last group while that group has unanswered calls;
      any other message starts a group of its own. */
  function Place(g: Grouping, m: Message): Grouping {
    var last := |g.groups| - 1;
    if Role(m) == "tool" && g.groups != [] && g.open != {} then
      Grouping(g.groups[last := g.groups[last] + [m]],
               if AnsweredCall(m) != "" then g.open - {AnsweredCall(m)} else g.open)
    else
      Grouping(g.groups + [[m]], OpenedCalls(m))
  }

  function GroupingOf(messages: seq<Message>): Grouping {
    if messages == [] then Grouping([], {})
    else Place(GroupingOf(messages[..|messages| - 1]), messages[|messages| - 1])
  }

  function GroupsOf(messages: seq<Message>): seq<seq<Message>> {
    GroupingOf(messages).groups
  }

  method AtomicMessageGroups(messages: seq<Message>) returns (groups: seq<seq<Message>>)
    ensures groups == GroupsOf(messages)
  {
    groups := [];
    var openToolCallIds: set<string> := {};
    for i := 0 to |messages|
      invariant GroupingOf(messages[..i]) == Grouping(groups, openToolCallIds)
    {
      var message := messages[i];
      assert messages[..i + 1][..i] == messages[..i];
      if Role(message) == "tool" && groups != [] && openToolCallIds != {} {
        groups := groups[|groups| - 1 := groups[|groups| - 1] + [message]];
        if AnsweredCall(message) != "" {
          openToolCallIds := openToolCallIds - {AnsweredCall(message)};
        }
      } else {
        groups := groups + [[message]];
        openToolCallIds := OpenedCalls(message);
      }
    }
    assert messages[..|messages|] == messages;
  }

  ghost predicate NoneEmpty(groups: seq<seq<Message>>) {
    forall j :: 0 <= j < |groups| ==> groups[j] != []
  }

  lemma PlacePartition(before: Grouping, m: Message)
    requires NoneEmpty(before.groups)
    ensures Flatten(Place(before, m).groups) == Flatten(before.groups) + [m]
    ensures NoneEmpty(Place(before, m).groups)
  {
    hide Role, OpenedCalls, AnsweredCall;
    if Role(m) == "tool" && before.groups != [] && before.open != {} {
      hide Flatten;
      var last := |before.groups| - 1;
      var kept := before.groups[..last];
      assert before.groups == kept + [before.groups[last]];
      assert Place(before, m).groups == kept + [before.groups[last] + [m]];
      FlattenSnoc(kept, before.groups[last]);
      FlattenSnoc(kept, before.groups[last] + [m]);
    } else {
      FlattenSnoc(before.groups, [m]);
    }
  }

  /** Grouping neither loses, repeats nor reorders a message, and no group is empty. */
  lemma {:induction false} GroupsPartition(messages: seq<Message>)
    ensures Flatten(GroupsOf(messages)) == messages
    ensures NoneEmpty(GroupsOf(messages))
    decreases |messages|
  {
    hide Place;
    if messages != [] {
      var front, m := messages[..|messages| - 1], messages[|messages| - 1];
      GroupsPartition(front);
      PlacePartition(GroupingOf(front), m);
      assert messages == front + [m];
    }
  }

  /** The index of the group that message `i` belongs to. */
  function GroupIndex(messages: seq<Message>, i: nat): int
    requires i < |messages|
  {
    |GroupsOf(messages[..i + 1])| - 1
  }

  /** Message position `i` falls inside the stretch of the input that group `g` covers. */
  predicate Covers(groups: seq<seq<Message>>, g: int, i: int) {
    0 <= g < |groups| && |Flatten(groups[..g])| <= i < |Flatten(groups[..g])| + |groups[g]|
  }

  lemma LastGroupCovers(groups: seq<seq<Message>>)
    requires groups != [] && groups[|groups| - 1] != []
    ensures Covers(groups, |groups| - 1, |Flatten(groups)| - 1)
  {
    var g := |groups| - 1;
    assert groups == groups[..g] + [groups[g]];
    FlattenSnoc(groups[..g], groups[g]);
  }

  lemma CoversIsStable(before: Grouping, m: Message, g: int, i: int)
    requires Covers(before.groups, g, i)
    ensures Covers(Place(before, m).groups, g, i)
  {
    assert Place(before, m).groups[..g] == before.groups[..g];
  }

  /** Group `GroupIndex(messages, i)` of the final grouping really holds message `i`. */
  lemma {:induction false} GroupIndexLocates(messages: seq<Message>, i: nat)
    requires i < |messages|
    ensures Covers(GroupsOf(messages), GroupIndex(messages, i), i)
    decreases |messages|
  {
    hide Place;
    var n := |messages| - 1;
    var front := messages[..n];
    GroupsPartition(messages);
    if i < n {
      assert front[..i + 1] == messages[..i + 1];
      GroupIndexLocates(front, i);
      CoversIsStable(GroupingOf(front), messages[n], GroupIndex(messages, i), i);
    } else {
      assert messages[..i + 1] == messages;
      LastGroupCovers(GroupsOf(messages));
    }
  }

  /** A call opened by message `i` stays open while only tool messages answering
      other calls follow it, and those all join its group. */
  lemma {:induction false} CallStaysOpen(messages: seq<Message>, i: nat, k: nat, call: string)
    requires i < k <= |messages|
    requires Role(messages[i]) != "tool" && call in OpenedCalls(messages[i])
    requires forall j :: i < j < k ==> Role(messages[j]) == "tool" && AnsweredCall(messages[j]) != call
    ensures call in GroupingOf(messages[..k]).open
    ensures GroupsOf(messages[..k]) != [] && |GroupsOf(messages[..k])| == |GroupsOf(messages[..i + 1])|
    decreases k
  {
    assert messages[..k][..k - 1] == messages[..k - 1];
    if i < k - 1 {
      CallStaysOpen(messages, i, k - 1, call);
    }
  }

  /** A tool result is never separated from the message that opened its call: the
      first answer to a call, given before any other kind of message, is in its group. */
  lemma AnswerJoinsItsCall(messages: seq<Message>, i: nat, k: nat, call: string)
    requires i < k < |messages|
    requires Role(messages[i]) != "tool" && call in OpenedCalls(messages[i])
    requires forall j :: i < j <= k ==> Role(messages[j]) == "tool"
    requires forall j :: i < j < k ==> AnsweredCall(messages[j]) != call
    requires AnsweredCall(messages[k]) == call
    ensures GroupIndex(messages, i) == GroupIndex(messages, k)
    ensures Covers(GroupsOf(messages), GroupIndex(messages, i), i)
    ensures Covers(GroupsOf(messages), GroupIndex(messages, i), k)
  {
    hide Role, AnsweredCall, OpenedCalls, Covers;
    CallStaysOpen(messages, i, k, call);
    assert messages[..k + 1][..k] == messages[..k];
    GroupIndexLocates(messages, i);
    GroupIndexLocates(messages, k);
  }

  /** The converse, exactly: two neighbours share a group when the later one is a tool
      message that comes while calls are open, and only then. */
  lemma OnlyToolMessagesJoin(messages: seq<Message>, i: nat)
    requires 0 < i < |messages|
    ensures GroupIndex(messages, i - 1) == GroupIndex(messages, i)
       <==> Role(messages[i]) == "tool" && GroupingOf(messages[..i]).open != {}
  {
    assert messages[..i + 1][..i] == messages[..i];
  }

  /** The message has a tool call with this id. */
  ghost predicate Opens(m: Message, call: string) {
    && Get(m, "tool_calls").Arr?
    && exists item :: item in Get(m, "tool_calls").items && item.Obj? && Truthy(Lookup(item.fields, "id"))
                      && TextOf(Lookup(item.fields, "id")) == call
  }

  lemma OpensCall(m: Message, call: string)
    ensures call in OpenedCalls(m) <==> Opens(m, call)
  {
    if Opens(m, call) {
      var item :| item in Get(m, "tool_calls").items && item.Obj? && Truthy(Lookup(item.fields, "id"))
                  && TextOf(Lookup(item.fields, "id")) == call;
      var i :| 0 <= i < |Get(m, "tool_calls").items| && Get(m, "tool_calls").items[i] == item;
    }
  }

  /** The first message of a group has this call and no later one answers it. */
  ghost predicate Unanswered(group: seq<Message>, call: string) {
    group != [] && Opens(group[0], call) && forall j :: 1 <= j < |group| ==> AnsweredCall(group[j]) != call
  }

  /** Which calls are open: those of the message that began the last group, until another
      message of the group answers them. */
  lemma {:induction false} OpenExactly(messages: seq<Message>, call: string)
    requires call != ""
    ensures
      var groups := GroupsOf(messages);
      call in GroupingOf(messages).open <==> groups != [] && Unanswered(groups[|groups| - 1], call)
    decreases |messages|
  {
    hide Role, OpenedCalls, Unanswered, AnsweredCall;
    if messages != [] {
      var front, m := messages[..|messages| - 1], messages[|messages| - 1];
      var before := GroupingOf(front);
      OpenExactly(front, call);
      GroupsPartition(front);
      if Role(m) == "tool" && before.groups != [] && before.open != {} {
        AnswerCloses(before.groups[|before.groups| - 1], m, call);
      } else {
        AnswerOpens(m, call);
      }
    }
  }

  lemma AnswerCloses(group: seq<Message>, m: Message, call: string)
    requires group != []
    ensures Unanswered(group + [m], call) <==> Unanswered(group, call) && AnsweredCall(m) != call
  {
    hide Opens, AnsweredCall;
    var longer := group + [m];
    assert longer[0] == group[0] && longer[|group|] == m;
    assert forall j :: 0 <= j < |group| ==> longer[j] == group[j];
  }

  lemma AnswerOpens(m: Message, call: string)
    ensures Unanswered([m], call) <==> call in OpenedCalls(m)
  {
    OpensCall(m, call);
    hide Opens, OpenedCalls;
  }
}

/** The values that a chat turn passes around, and the prompt edits made on them (`src/chat/chat-agent-loop.ts`,
    `src/chat/chat-steering.ts`, `src/chat/chat-local-llm-adapter.ts`). */
module Chat {
  import opened Wrappers
  import opened Text

  datatype Role = User | Assistant | System
  datatype Message = Message(role: Role, content: string)

  /** A tool argument: the string values matter to the gates, any other JSON value is kept as its canonical text. */
  datatype Value = Str(text: string) | Json(canonical: string)

  datatype ToolCall = ToolCall(id: string, name: string, arguments: map<string, Value>)
  datatype ToolResult = ToolResult(callId: string, content: string)
  datatype Response = Response(text: string, toolCalls: seq<ToolCall>, totalTokens: Option<int>,
                               promptStrategy: Option<string>, reasoning: Option<string>)
  datatype ToolStep = ToolStep(call: ToolCall, result: ToolResult)
  datatype Steering = Steering(id: string, content: string, createdAt: int)

  // ----- folding a tool exchange into the prompt

  const RESULT_PREFIX := "Tool result ("

  function ResultNote(r: ToolResult): Message {
    Message(System, RESULT_PREFIX + r.callId + "):\n" + r.content)
  }

  function ResultNotes(results: seq<ToolResult>): seq<Message> {
    seq(|results|, i requires 0 <= i < |results| => ResultNote(results[i]))
  }

  function AppendToolExchange(messages: seq<Message>, text: string, results: seq<ToolResult>): (r: seq<Message>)
    ensures messages <= r
  {
    messages + (if Trim(text) != "" then [Message(Assistant, text)] else []) + ResultNotes(results)
  }

  /** Folding an exchange adds the assistant's text, when it is not blank, and then one system note for each result, in
      order, with its call id and its content. */
  lemma ExchangeIsFolded(messages: seq<Message>, text: string, results: seq<ToolResult>)
    ensures var r, n := AppendToolExchange(messages, text, results), |messages| + if Trim(text) != "" then 1 else 0;
      && |r| == n + |results| && messages <= r
      && (Trim(text) != "" ==> r[|messages|] == Message(Assistant, text))
      && forall i :: 0 <= i < |results| ==>
           r[n + i] == Message(System, "Tool result (" + results[i].callId + "):\n" + results[i].content)
  {
  }

  // ----- steering

  function SteeringNote(s: Steering): Message {
    Message(User, "Update from the user:\n" + s.content)
  }

  function AppendSteering(messages: seq<Message>, batch: seq<Steering>): (r: seq<Message>)
    ensures messages <= r
  {
    messages + seq(|batch|, i requires 0 <= i < |batch| => SteeringNote(batch[i]))
  }

  /** Each update becomes a message of the user that ends in its text, in order. */
  lemma SteeringIsFolded(messages: seq<Message>, batch: seq<Steering>)
    ensures var r := AppendSteering(messages, batch);
      && |r| == |messages| + |batch| && messages <= r
      && forall i :: 0 <= i < |batch| ==>
           var m, text := r[|messages| + i], batch[i].content;
           m.role == User && |text| <= |m.content| && m.content[|m.content| - |text|..] == text
  {
  }

  // ----- the last user text

  function LastUserText(messages: seq<Message>): string {
    if messages == [] then ""
    else if messages[|messages| - 1].role == User then messages[|messages| - 1].content
    else LastUserText(messages[..|messages| - 1])
  }

  function ReplacedLastUserText(messages: seq<Message>, text: string): seq<Message> {
    if messages == [] then []
    else
      var n := |messages| - 1;
      if messages[n].role == User then messages[..n] + [Message(User, text)]
      else ReplacedLastUserText(messages[..n], text) + [messages[n]]
  }

  method ReplaceLastUserText(messages: seq<Message>, text: string) returns (copy: seq<Message>)
    ensures copy == ReplacedLastUserText(messages, text)
  {
    copy := messages;
    var index := |copy|;
    assert messages[..|messages|] == messages;
    while index > 0 && copy[index - 1].role != User
      invariant 0 <= index <= |messages| && copy == messages
      invariant ReplacedLastUserText(messages, text)
             == ReplacedLastUserText(messages[..index], text) + messages[index..]
    {
      index := index - 1;
      assert messages[..index + 1][..index] == messages[..index];
      assert messages[index..] == [messages[index]] + messages[index + 1..];
    }
    if index > 0 {
      copy := copy[index - 1 := Message(User, text)];
      assert messages[..index][..index - 1] == messages[..index - 1];
      assert copy == messages[..index - 1] + [Message(User, text)] + messages[index..];
    }
  }

  predicate HasUser(messages: seq<Message>) {
    messages != [] && (messages[|messages| - 1].role == User || HasUser(messages[..|messages| - 1]))
  }

  /** The new text is read back exactly when there was a user message to replace. */
  lemma {:induction false} ReplaceThenRead(messages: seq<Message>, text: string)
    ensures LastUserText(ReplacedLastUserText(messages, text)) == if HasUser(messages) then text else ""
  {
    if messages != [] {
      var n := |messages| - 1;
      var r := ReplacedLastUserText(messages, text);
      if messages[n].role != User {
        ReplaceThenRead(messages[..n], text);
        assert r[|r| - 1] == messages[n] && r[..|r| - 1] == ReplacedLastUserText(messages[..n], text);
      }
    }
  }

  /** A second replacement overrides the first, and putting the text back restores the messages. */
  lemma {:induction false} ReplaceOverrides(messages: seq<Message>, text: string, other: string)
    ensures ReplacedLastUserText(ReplacedLastUserText(messages, text), other) == ReplacedLastUserText(messages, other)
    ensures ReplacedLastUserText(messages, LastUserText(messages)) == messages
  {
    if messages != [] {
      var n := |messages| - 1;
      var r := ReplacedLastUserText(messages, text);
      assert messages == messages[..n] + [messages[n]];
      if messages[n].role == User {
        assert r[|r| - 1] == Message(User, text) && r[..|r| - 1] == messages[..n];
      } else {
        ReplaceOverrides(messages[..n], text, other);
        assert r[|r| - 1] == messages[n] && r[..|r| - 1] == ReplacedLastUserText(messages[..n], text);
      }
    }
  }

  /** `messages[k]` is the last message of the user. */
  predicate IsLastUser(messages: seq<Message>, k: nat) {
    k < |messages| && messages[k].role == User && forall j :: k < j < |messages| ==> messages[j].role != User
  }

  /** The text read is that of the user's last message, and replacing it changes that message and no other. */
  lemma {:induction false} LastUserIsReplaced(messages: seq<Message>, text: string, k: nat)
    requires IsLastUser(messages, k)
    ensures LastUserText(messages) == messages[k].content
    ensures ReplacedLastUserText(messages, text) == messages[k := Message(User, text)]
  {
    var n := |messages| - 1;
    if k < n {
      assert IsLastUser(messages[..n], k);
      LastUserIsReplaced(messages[..n], text, k);
      assert messages[..n][k := Message(User, text)] + [messages[n]] == messages[k := Message(User, text)];
    }
  }

  /** Without a message of the user there is no text to read and nothing to replace. */
  lemma {:induction false} NoUserNothingReplaced(messages: seq<Message>, text: string)
    requires forall j :: 0 <= j < |messages| ==> messages[j].role != User
    ensures LastUserText(messages) == "" && ReplacedLastUserText(messages, text) == messages
  {
    if messages != [] {
      NoUserNothingReplaced(messages[..|messages| - 1], text);
      assert messages == messages[..|messages| - 1] + [messages[|messages| - 1]];
    }
  }

  // ----- the context of a forced call

  predicate StartsWith(s: string, prefix: string) { prefix <= s }

  function SystemOnly(messages: seq<Message>): seq<Message> {
    if messages == [] then []
    else (if messages[0].role == System then [messages[0]] else []) + SystemOnly(messages[1..])
  }

  function FirstUser(messages: seq<Message>): (n: nat)
    ensures n <= |messages| && (n < |messages| ==> messages[n].role == User)
    ensures forall i :: 0 <= i < n ==> messages[i].role != User
  {
    if messages == [] || messages[0].role == User then 0 else 1 + FirstUser(messages[1..])
  }

  /** A folded tool result that is not one of the loop's own "not done" notes. */
  predicate IsFact(m: Message) {
    m.role == System && StartsWith(m.content, RESULT_PREFIX) && !StartsWith(m.content, RESULT_PREFIX + "incomplete-")
  }

  function Facts(messages: seq<Message>): seq<Message> {
    if messages == [] then []
    else (if IsFact(messages[0]) then [messages[0]] else []) + Facts(messages[1..])
  }

  function Join(names: seq<string>, separator: string): string {
    if names == [] then ""
    else if |names| == 1 then names[0]
    else names[0] + separator + Join(names[1..], separator)
  }

  function NextStepAsk(used: seq<string>, next: string): Message {
    Message(User, "Done so far: " + Join(used, ", ") + ". Now call " + next + " and nothing else.")
  }

  /** The forced call's context before its closing question. */
  function ForceAdvanceHead(wire: seq<Message>): seq<Message> {
    var first := FirstUser(wire);
    SystemOnly(wire[..first])
    + (if first < |wire| then [Message(System, "The whole task: " + wire[first].content)] else [])
    + Facts(wire)
  }

  function ForceAdvanceContext(wire: seq<Message>, used: seq<string>, next: string): seq<Message> {
    ForceAdvanceHead(wire) + [NextStepAsk(used, next)]
  }

  lemma {:induction false} FactsAppend(a: seq<Message>, b: seq<Message>)
    ensures Facts(a + b) == Facts(a) + Facts(b)
  {
    if a == [] {
      assert a + b == b;
    } else {
      assert (a + b)[1..] == a[1..] + b && (a + b)[0] == a[0];
      FactsAppend(a[1..], b);
      assert Facts(a + b) == (if IsFact(a[0]) then [a[0]] else []) + Facts(a[1..] + b);
    }
  }

  predicate IsNudgeId(callId: string) { StartsWith(callId, "incomplete-") }

  lemma PrefixEndsBefore(mark: string, id: string, rest: string)
    requires ')' !in mark && rest != "" && rest[0] == ')'
    ensures mark <= id + rest <==> mark <= id
  {
    if mark <= id + rest {
      assert forall i :: 0 <= i < |mark| ==> mark[i] == (id + rest)[i] && mark[i] != ')';
      assert (id + rest)[|id|] == ')';
    }
  }

  lemma NoteIsFact(r: ToolResult)
    ensures IsFact(ResultNote(r)) <==> !IsNudgeId(r.callId)
  {
    var mark := "incomplete-";
    var rest := "):\n" + r.content;
    var tail := r.callId + rest;
    assert ResultNote(r).content == RESULT_PREFIX + tail;
    assert RESULT_PREFIX + mark <= RESULT_PREFIX + tail <==> mark <= tail by {
      if RESULT_PREFIX + mark <= RESULT_PREFIX + tail {
        assert (RESULT_PREFIX + tail)[|RESULT_PREFIX|..|RESULT_PREFIX + mark|] == mark;
      }
    }
    PrefixEndsBefore(mark, r.callId, rest);
  }

  function FactNotes(results: seq<ToolResult>): seq<Message> {
    if results == [] then []
    else (if IsNudgeId(results[0].callId) then [] else [ResultNote(results[0])]) + FactNotes(results[1..])
  }

  lemma {:induction false} FactsOfNotes(results: seq<ToolResult>)
    ensures Facts(ResultNotes(results)) == FactNotes(results)
  {
    if results != [] {
      NoteIsFact(results[0]);
      FactsOfNotes(results[1..]);
      assert ResultNotes(results)[1..] == ResultNotes(results[1..]);
    }
  }

  /** The forced call sees every tool result folded in so far and none of the loop's nudges: folding an exchange adds
      to the facts exactly its results whose call id is not a nudge's. */
  lemma FactsOfExchange(messages: seq<Message>, text: string, results: seq<ToolResult>)
    ensures Facts(AppendToolExchange(messages, text, results)) == Facts(messages) + FactNotes(results)
  {
    var middle := if Trim(text) != "" then [Message(Assistant, text)] else [];
    FactsAppend(messages + middle, ResultNotes(results));
    FactsAppend(messages, middle);
    assert Facts(middle) == [];
    FactsOfNotes(results);
  }

  lemma {:induction false} SystemOnlyFacts(messages: seq<Message>)
    ensures forall m :: m in SystemOnly(messages) ==> m.role == System
    ensures forall m :: m in Facts(messages) ==> m.role == System
  {
    if messages != [] { SystemOnlyFacts(messages[1..]); }
  }

  lemma HeadIsSystem(wire: seq<Message>)
    ensures forall m :: m in ForceAdvanceHead(wire) ==> m.role == System
    ensures forall m :: m in Facts(wire) ==> m in ForceAdvanceHead(wire)
  {
    SystemOnlyFacts(wire[..FirstUser(wire)]);
    SystemOnlyFacts(wire);
  }

  lemma LastOf(head: seq<Message>, last: Message)
    ensures var c := head + [last];
      c[|c| - 1] == last && (forall i :: 0 <= i < |c| - 1 ==> c[i] in head) && forall m :: m in head ==> m in c
  {
  }

  /** The rebuilt context ends in its one user message, has no assistant turn, and drops every earlier user turn. */
  lemma ForceContextAsksOnce(wire: seq<Message>, used: seq<string>, next: string)
    ensures var c := ForceAdvanceContext(wire, used, next);
      && c != [] && c[|c| - 1] == NextStepAsk(used, next)
      && (forall i :: 0 <= i < |c| - 1 ==> c[i].role == System)
      && (forall m :: m in Facts(wire) ==> m in c)
  {
    HeadIsSystem(wire);
    LastOf(ForceAdvanceHead(wire), NextStepAsk(used, next));
  }

  lemma {:induction false} SystemOnlyMembers(messages: seq<Message>)
    ensures forall m :: m in SystemOnly(messages) <==> m in messages && m.role == System
  {
    if messages != [] {
      SystemOnlyMembers(messages[1..]);
      assert messages == [messages[0]] + messages[1..];
    }
  }

  lemma {:induction false} FactsMembers(messages: seq<Message>)
    ensures forall m :: m in Facts(messages) <==> m in messages && IsFact(m)
  {
    if messages != [] {
      FactsMembers(messages[1..]);
      assert messages == [messages[0]] + messages[1..];
    }
  }

  /** The note that states the whole task. */
  predicate StatesTask(m: Message, task: string) {
    m.role == System && |task| <= |m.content| && m.content[|m.content| - |task|..] == task
  }

  /** Before its question the rebuilt context holds exactly the instructions that stood before the user's first message, a
      note with that message, and the facts. */
  lemma ForceContextHolds(wire: seq<Message>, used: seq<string>, next: string, first: nat)
    requires first < |wire| && wire[first].role == User && forall i :: 0 <= i < first ==> wire[i].role != User
    ensures var c := ForceAdvanceContext(wire, used, next);
      && (exists k :: 0 <= k < |c| - 1 && StatesTask(c[k], wire[first].content))
      && forall m :: m in c[..|c| - 1] ==>
           (m in wire[..first] && m.role == System) || StatesTask(m, wire[first].content) || (m in wire && IsFact(m))
    ensures forall m :: (m in wire[..first] && m.role == System) || (m in wire && IsFact(m)) ==> m in ForceAdvanceContext(wire, used, next)
  {
    SystemOnlyMembers(wire[..first]);
    FactsMembers(wire);
    assert FirstUser(wire) == first;
    var head, note := SystemOnly(wire[..first]), Message(System, "The whole task: " + wire[first].content);
    var c := ForceAdvanceContext(wire, used, next);
    assert c == head + [note] + Facts(wire) + [NextStepAsk(used, next)];
    assert c[..|c| - 1] == head + [note] + Facts(wire);
    assert StatesTask(note, wire[first].content) && c[|head|] == note;
  }
}

/** Token weights of messages. The tokenizer is a parameter: all that matters of it is that it
    gives every text a natural number. */
module Tokens {
  import opened Messages

  const PER_MESSAGE_OVERHEAD: nat := 4

  function TextOf(m: Message): string {
    match m
    case System(text) => text
    case Human(text) => text
    case AI(text, _) => text
    case Tool(_, body) => body
  }

  /** The payload of the tool calls, joined with blanks. */
  function CallText(calls: seq<ToolCall>): string {
    if calls == [] then ""
    else if |calls| == 1 then calls[0].request
    else calls[0].request + " " + CallText(calls[1..])
  }

  function CountMessage(encode: string -> nat, m: Message): nat {
    encode(TextOf(m)) + PER_MESSAGE_OVERHEAD + if IsCallingAi(m) then encode(CallText(m.calls)) else 0
  }

  function Count(encode: string -> nat, ms: seq<Message>): nat {
    if ms == [] then 0 else CountMessage(encode, ms[0]) + Count(encode, ms[1..])
  }

  lemma {:induction false} CountConcat(encode: string -> nat, a: seq<Message>, b: seq<Message>)
    ensures Count(encode, a + b) == Count(encode, a) + Count(encode, b)
  {
    if a == [] {
      assert a + b == b;
    } else {
      CountConcat(encode, a[1..], b);
      assert (a + b)[1..] == a[1..] + b;
    }
  }

  lemma CountSingle(encode: string -> nat, m: Message)
    ensures Count(encode, [m]) == CountMessage(encode, m)
  {
    assert [m][1..] == [];
  }

  /** A longer suffix never costs less. */
  lemma CountSuffix(encode: string -> nat, ms: seq<Message>, s: nat, t: nat)
    requires s <= t <= |ms|
    ensures Count(encode, ms[s..]) == Count(encode, ms[s..t]) + Count(encode, ms[t..])
  {
    CountConcat(encode, ms[s..t], ms[t..]);
    assert ms[s..] == ms[s..t] + ms[t..];
  }

  /** Every message costs its text and four tokens more, whoever says it; an AI message that calls tools
      also what the tools are asked. */
  lemma MessageCost(encode: string -> nat, text: string, id: string, calls: seq<ToolCall>)
    ensures CountMessage(encode, System(text)) == CountMessage(encode, Human(text)) == encode(text) + 4
    ensures CountMessage(encode, Tool(id, text)) == CountMessage(encode, AI(text, [])) == encode(text) + 4
    ensures calls != [] ==> CountMessage(encode, AI(text, calls)) == encode(text) + 4 + encode(CallText(calls))
  {
  }

  /** The requests of the calls in order, a blank between each two. */
  lemma {:induction false} CallTextJoins(a: seq<ToolCall>, b: seq<ToolCall>, id: string, request: string)
    ensures CallText([ToolCall(id, request)]) == request
    ensures a != [] && b != [] ==> CallText(a + b) == CallText(a) + " " + CallText(b)
    decreases |a|
  {
    if |a| == 1 {
      assert a + b == [a[0]] + b && ([a[0]] + b)[1..] == b;
    } else if a != [] && b != [] {
      CallTextJoins(a[1..], b, id, request);
      assert (a + b)[0] == a[0] && (a + b)[1..] == a[1..] + b;
      var first := a[0].request + " ";
      assert first + (CallText(a[1..]) + " " + CallText(b)) == first + CallText(a[1..]) + " " + CallText(b);
    }
  }
}

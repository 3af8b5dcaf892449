/** Messages, checkpoints and turns: the values that the stores exchange. */
module Conversation {
  import opened Strings
  import opened Wrappers

  datatype Message =
    | Human(text: string, id: string)
    | Assistant(text: string, id: string, toolCalls: bool)
    | Note(kind: string, text: string)   // a summary, a tool result or a system message

  type Context = seq<Message>

  /** A decoded agent checkpoint. Legacy tokens (versions 2, 3 and unversioned) may omit the chat. */
  datatype Token =
    | V4(chat: string, snapshot: string)
    | Legacy(owner: Option<string>, body: string)
    | UnsupportedVersion
    | Malformed

  /** An immutable row of agent_snapshots. */
  datatype Saved = Saved(chat: string, messages: Context)

  datatype Turn = Turn(id: string, chat: string, text: string, answer: string, memory: Token, sandbox: string)

  datatype Stored = Stored(turn: Turn, sequence: nat, createdAt: nat)

  /** What the graph may end with: an assistant message that answers and calls no tool. */
  predicate Answers(result: Context) {
    |result| > 0 && result[|result| - 1].Assistant? && !result[|result| - 1].toolCalls
    && !Blank(result[|result| - 1].text)
  }

  /** The context ends with this answer: an assistant message of this text, which calls no tool and
      has something to read in it. */
  ghost predicate EndsWith(context: Context, answer: string) {
    && |context| > 0
    && (exists id: string :: context[|context| - 1] == Assistant(answer, id, false))
    && exists i :: 0 <= i < |answer| && !IsSpace(answer[i])
  }

  function FinalText(result: Context): string {
    if Answers(result) then result[|result| - 1].text else ""
  }

  /** A result answers exactly if it ends with an answer, and then its final text is that answer. */
  lemma AnswersIff(result: Context)
    ensures Answers(result) <==> exists answer :: EndsWith(result, answer)
    ensures Answers(result) ==> EndsWith(result, FinalText(result))
    ensures forall answer :: EndsWith(result, answer) ==> Answers(result) && answer == FinalText(result)
  {
    if Answers(result) {
      var last := result[|result| - 1];
      assert last == Assistant(last.text, last.id, false);
      assert EndsWith(result, FinalText(result));
    }
  }
}

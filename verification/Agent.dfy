/** Agent context and its immutable snapshots (agent_memory.py), and the agent that loads, runs and
    saves it (agent_execution.py). The provider and the graph are the parameter `model`. */
module Agent {
  import opened Wrappers
  import opened Conversation
  import opened Strings
  import opened History
  import opened Replay
  import opened S = SandboxFiles

  class AgentMemory {
    var contexts: map<string, Context>
    var saved: map<string, Saved>

    constructor ()
      ensures contexts == map[] && saved == map[]
    {
      contexts, saved := map[], map[];
    }

    function Load(c: string): Option<Context>
      reads this`contexts
    {
      if c in contexts then Some(contexts[c]) else None
    }

    method Save(c: string, messages: Context)
      modifies this`contexts
      ensures contexts == old(contexts)[c := messages]
    {
      contexts := contexts[c := messages];
    }

    method Checkpoint(c: string, messages: Context, id: string) returns (token: Token)
      requires id !in saved
      modifies this`saved
      ensures token == V4(c, id) && saved == old(saved)[id := Saved(c, messages)]
    {
      saved := saved[id := Saved(c, messages)];
      return V4(c, id);
    }

    method Restore(c: string, token: Token) returns (r: Result<()>)
      requires token.V4?
      modifies this`contexts
      ensures r.Ok? <==> token.chat == c && token.snapshot in saved && saved[token.snapshot].chat == c
      ensures contexts == if r.Ok? then old(contexts)[c := saved[token.snapshot].messages] else old(contexts)
    {
      if token.chat != c || token.snapshot !in saved || saved[token.snapshot].chat != c {
        return Err(Invalid);
      }
      contexts := contexts[c := saved[token.snapshot].messages];
      return Ok(());
    }

    method Delete(c: string)
      modifies this
      ensures contexts == old(contexts) - {c}
      ensures saved == map id | id in old(saved) && old(saved)[id].chat != c :: old(saved)[id]
    {
      contexts := contexts - {c};
      saved := map id | id in saved && saved[id].chat != c :: saved[id];
    }
  }

  /** What a run from this context and these files would leave behind, if it answers at all. */
  function RunAgent(model: Model, context: Context, text: string, files: Tree, choice: nat): Result<Context> {
    var result := model(context + [Human(text, "")], files, choice);
    if Answers(result) then Ok(result) else Err(Refused)
  }

  /** The agent answers this request from here. */
  ghost predicate WouldAnswer(model: Model, context: Context, text: string, files: Tree, choice: nat) {
    exists answer :: EndsWith(model(context + [Human(text, "")], files, choice), answer)
  }

  lemma RunAgentIff(model: Model, context: Context, text: string, files: Tree, choice: nat)
    ensures RunAgent(model, context, text, files, choice).Ok? <==> WouldAnswer(model, context, text, files, choice)
  {
    AnswersIff(model(context + [Human(text, "")], files, choice));
  }

  class AgentExecution {
    const memory: AgentMemory
    const history: SQLiteHistory
    const model: Model

    constructor (memory: AgentMemory, history: SQLiteHistory, model: Model)
      ensures this.memory == memory && this.history == history && this.model == model
    {
      this.memory, this.history, this.model := memory, history, model;
    }

    function ContextOf(c: string): Context
      reads memory`contexts, history
    {
      EffectiveContext(memory.Load(c), ChatRows(history.table, c))
    }

    /** Load the context; the first time, import the visible history and keep it. */
    method Messages(c: string) returns (messages: Context)
      modifies memory`contexts
      ensures messages == old(ContextOf(c))
      ensures memory.contexts == old(memory.contexts)[c := messages]
    {
      var loaded := memory.Load(c);
      if loaded.Some? {
        return loaded.value;
      }
      var imported := history.ContextMessages(c, None);
      messages := imported.value;
      memory.Save(c, messages);
    }

    method Checkpoint(c: string, id: string, fault: bool) returns (r: Result<Token>)
      requires id !in memory.saved
      modifies memory
      ensures memory.contexts == old(memory.contexts)[c := old(ContextOf(c))]
      ensures r.Ok? <==> !fault
      ensures r.Ok? ==> r.value == V4(c, id) && memory.saved == old(memory.saved)[id := Saved(c, old(ContextOf(c)))]
      ensures r.Err? ==> memory.saved == old(memory.saved)
    {
      var messages := Messages(c);
      if fault {
        return Err(Interrupted);
      }
      var token := memory.Checkpoint(c, messages, id);
      return Ok(token);
    }

    /** Put back the context a token names. A legacy token is looked up in the visible history. */
    method Restore(c: string, token: Token, fault: bool) returns (r: Result<()>)
      modifies memory`contexts
      ensures r.Ok? <==> !fault && Resolve(memory.saved, ChatRows(history.table, c), c, token).Ok?
      ensures memory.contexts == if r.Ok?
                                 then old(memory.contexts)[
                                   c := Resolve(memory.saved, ChatRows(history.table, c), c, token).value]
                                 else old(memory.contexts)
    {
      if fault {
        return Err(Interrupted);
      }
      match token {
        case V4(_, _) =>
          r := memory.Restore(c, token);
        case Legacy(owner, _) =>
          if owner.Some? && owner.value != c {
            return Err(Invalid);
          }
          var messages := history.ContextMessages(c, Some(token));
          if messages.Err? {
            return Err(messages.error);
          }
          memory.Save(c, messages.value);
          return Ok(());
        case UnsupportedVersion => return Err(Invalid);
        case Malformed => return Err(Invalid);
      }
    }

    /** One run: the context is saved only when the graph ends with a nonempty answer. */
    method Run(c: string, text: string, files: Tree, choice: nat, fault: bool) returns (r: Result<string>)
      modifies memory`contexts
      ensures var outcome := RunAgent(model, old(ContextOf(c)), text, files, choice);
              && (r.Ok? <==> !fault && outcome.Ok?)
              && (r.Ok? ==> r.value == FinalText(outcome.value))
              && (r.Ok? ==> memory.contexts == old(memory.contexts)[c := outcome.value])
      ensures r.Err? ==> memory.contexts == old(memory.contexts)[c := old(ContextOf(c))]
      ensures r.Ok? <==> !fault && WouldAnswer(model, old(ContextOf(c)), text, files, choice)
      ensures r.Ok? ==> EndsWith(memory.contexts[c], r.value)
    {
      var context := Messages(c);
      if fault {
        return Err(Interrupted);
      }
      AnswersIff(model(context + [Human(text, "")], files, choice));
      var result := model(context + [Human(text, "")], files, choice);
      if |result| == 0 {
        return Err(Refused);
      }
      var final := result[|result| - 1];
      if !final.Assistant? || final.toolCalls {
        return Err(Refused);
      }
      if Blank(final.text) {
        return Err(Refused);
      }
      memory.Save(c, result);
      return Ok(final.text);
    }
  }
}

/**
 * `DiarioRAGChat`: a chat session over the journal. Each question is sent
 * to the language model with the system prompt, the most recent turns of
 * the session and the journal passages retrieved for it; the session keeps
 * every answered turn. The nearest-neighbour search and the HTTP call are
 * parameters: `search` answers a query with the `(scores, indices)` row for
 * a given `k`, `reply` is the model's answer or None where the request or
 * the reading of its JSON raised.
 */
module RagChat {
  import opened Wrappers
  import opened Json
  import opened QueryEngine

  datatype Role = SystemRole | UserRole | AssistantRole

  datatype Message = Message(role: Role, content: string)

  /** Passages retrieved per question. */
  const SearchK: nat := 5

  /** History messages sent with a question: the last three exchanges. */
  const HistoryWindow: nat := 6

  datatype ChatError =
    | RetrievalFailed(cause: QueryError)  // the search results or the context could not be built
    | RequestFailed                       // `raise_for_status`, or a reply without `choices[0].message.content`

  /** The user message: the retrieved context, then the question. */
  function UserTurn(context: string, question: string): string {
    "\nContexto del diario personal:\n" + context + "\n\nPregunta del usuario:\n" + question + "\n"
  }

  /** `xs[-n:]`. */
  function LastN(xs: seq<Message>, n: nat): (r: seq<Message>)
    ensures |r| == if |xs| <= n then |xs| else n
    ensures xs == xs[..|xs| - |r|] + r
  {
    if |xs| <= n then xs else xs[|xs| - n..]
  }

  /** The message list of one request. */
  function Prompt(systemPrompt: string, history: seq<Message>, context: string, question: string): seq<Message> {
    [Message(SystemRole, systemPrompt)] + LastN(history, HistoryWindow) + [Message(UserRole, UserTurn(context, question))]
  }

  /**
   * The request starts with the system prompt, carries the most recent
   * history messages (at most six, in order, all of them while there are no
   * more), and ends with the question and its context: at most eight messages.
   */
  lemma PromptShape(systemPrompt: string, history: seq<Message>, context: string, question: string)
    ensures var p := Prompt(systemPrompt, history, context, question);
      && |p| == 2 + (if |history| <= HistoryWindow then |history| else HistoryWindow)
      && |p| <= 8
      && p[0] == Message(SystemRole, systemPrompt)
      && p[|p| - 1] == Message(UserRole, UserTurn(context, question))
      && history == history[..|history| - (|p| - 2)] + p[1..|p| - 1]
  {
    var p := Prompt(systemPrompt, history, context, question);
    assert p[1..|p| - 1] == LastN(history, HistoryWindow);
  }

  /**
   * After an answered turn, the next request carries that turn, question
   * then answer, just before the new question; the turns before it keep
   * being sent until three newer exchanges push them out of the window.
   */
  lemma NextPromptCarriesTurn(systemPrompt: string, history: seq<Message>, question: string, answer: string,
                              context: string, next: string)
    ensures var h := history + [Message(UserRole, question), Message(AssistantRole, answer)];
      var p := Prompt(systemPrompt, h, context, next);
      && |p| >= 4
      && p[|p| - 3] == Message(UserRole, question)
      && p[|p| - 2] == Message(AssistantRole, answer)
      && |p| == 2 + (if |history| + 2 <= HistoryWindow then |history| + 2 else HistoryWindow)
  {
    var h := history + [Message(UserRole, question), Message(AssistantRole, answer)];
    var w := LastN(h, HistoryWindow);
    assert |w| >= 2;
    assert w[|w| - 1] == h[|h| - 1] && w[|w| - 2] == h[|h| - 2] by {
      assert h == h[..|h| - |w|] + w;
    }
    var p := Prompt(systemPrompt, h, context, next);
    assert p == [Message(SystemRole, systemPrompt)] + w + [Message(UserRole, UserTurn(context, next))];
    assert p[|p| - 3] == w[|w| - 2] && p[|p| - 2] == w[|w| - 1];
  }

  /**
   * The context for a question: the top `SearchK` passages, each labelled as
   * `construir_contexto` labels it, with the record's top-level `date`.
   */
  function ContextFor(metadata: seq<Json>, search: (string, nat) -> (seq<real>, seq<int>), question: string): Result<string, QueryError> {
    var (scores, indices) := search(question, SearchK);
    var results :- RankedFrom(metadata, scores, indices, 0);
    Context(results, TopLevelDate)
  }

  class DiarioRAGChat {
    const engine: DiarioQueryEngine
    const systemPrompt: string
    /** The session's turns, oldest first; it only grows. */
    var history: seq<Message>

    constructor(engine: DiarioQueryEngine, systemPrompt: string)
      ensures this.engine == engine && this.systemPrompt == systemPrompt && history == []
    {
      this.engine := engine;
      this.systemPrompt := systemPrompt;
      history := [];
    }

    /**
     * `construir_prompt(pregunta)`: retrieve `SearchK` passages, build their
     * context, and frame it with the system prompt and the recent history.
     */
    method BuildPrompt(question: string, search: (string, nat) -> (seq<real>, seq<int>)) returns (r: Result<seq<Message>, QueryError>)
      ensures ContextFor(engine.metadata, search, question).Err? ==> r == Err(ContextFor(engine.metadata, search, question).error)
      ensures ContextFor(engine.metadata, search, question).Ok? ==>
        r == Ok(Prompt(systemPrompt, history, ContextFor(engine.metadata, search, question).value, question))
    {
      var (scores, indices) := search(question, SearchK);
      var results := engine.Search(scores, indices);
      if results.Err? {
        return Err(results.error);
      }
      var context := engine.BuildContext(results.value, TopLevelDate);
      if context.Err? {
        return Err(context.error);
      }
      var messages := [Message(SystemRole, systemPrompt)];
      messages := messages + LastN(history, HistoryWindow);
      messages := messages + [Message(UserRole, UserTurn(context.value, question))];
      r := Ok(messages);
    }

    /**
     * `preguntar(pregunta)`: on an answer, the question and the answer are
     * appended to the history, in that order; on any failure the history is
     * as it was.
     */
    method Ask(question: string, search: (string, nat) -> (seq<real>, seq<int>), reply: seq<Message> -> Option<string>)
      returns (r: Result<string, ChatError>)
      modifies this
      ensures var context := ContextFor(engine.metadata, search, question);
        && (context.Err? ==> r == Err(RetrievalFailed(context.error)))
        && (context.Ok? ==> var sent := Prompt(systemPrompt, old(history), context.value, question);
              && (reply(sent).None? ==> r == Err(RequestFailed))
              && (reply(sent).Some? ==> r == Ok(reply(sent).value)))
      ensures r.Err? ==> history == old(history)
      ensures r.Ok? ==> history == old(history) + [Message(UserRole, question), Message(AssistantRole, r.value)]
    {
      var messages := BuildPrompt(question, search);
      if messages.Err? {
        return Err(RetrievalFailed(messages.error));
      }
      var answer := reply(messages.value);
      if answer.None? {
        return Err(RequestFailed);
      }
      history := history + [Message(UserRole, question)];
      history := history + [Message(AssistantRole, answer.value)];
      r := Ok(answer.value);
    }
  }
}

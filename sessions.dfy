/**
 * The process-wide session store and the chat handler around it.
 *
 * The store maps a session id to that session's transcript. A request
 * registers its session if needed, appends the caller's turn, and then, by
 * the generator's outcome, either appends the reply or rolls the caller's
 * turn back and answers with a fixed error reply.
 */
module Sessions {
  import opened Transcripts
  import opened ErrorReplies

  datatype Option<T> = None | Some(value: T)

  /** The session id a request gets when it names none. */
  const DEFAULT_SESSION_ID: string := "default_user"

  /** The body of a chat request once its defaults are filled in. */
  datatype ChatRequest = ChatRequest(userInput: string, sessionId: string)

  /** A chat request as sent, with the session id optional. */
  function NewChatRequest(userInput: string, sessionId: Option<string>): (r: ChatRequest)
    ensures r.userInput == userInput
    ensures sessionId.Some? ==> r.sessionId == sessionId.value
    ensures sessionId.None? ==> r.sessionId == DEFAULT_SESSION_ID
  {
    match sessionId
    case Some(id) => ChatRequest(userInput, id)
    case None => ChatRequest(userInput, DEFAULT_SESSION_ID)
  }

  /**
   * What the generator did with the transcript: it either produced the reply
   * text and the turn to record, or failed with the text of its error. A
   * success always carries a text and a turn here (see README, "Left out").
   */
  datatype Outcome = Success(text: string, reply: Turn) | Failure(message: string)

  type Store = map<string, seq<Turn>>

  /**
   * The transcript a lookup finds: the stored one, or empty for an unseen id.
   * It is the very transcript the lookup leaves registered under that id.
   */
  function History(store: Store, sessionId: string): (r: seq<Turn>)
    ensures sessionId in store ==> r == store[sessionId]
    ensures Register(store, sessionId)[sessionId] == r
  {
    if sessionId in store then store[sessionId] else []
  }

  /** The store after a lookup: an unseen id is registered with an empty transcript. */
  function Register(store: Store, sessionId: string): (r: Store)
    ensures r.Keys == store.Keys + {sessionId}
    ensures sessionId !in store ==> r[sessionId] == []
    ensures forall id | id in store :: r[id] == store[id]
  {
    if sessionId in store then store else store[sessionId := []]
  }

  /** The store and the response after one request. */
  datatype Exchange = Exchange(store: Store, response: string)

  /**
   * One request, step by step: register the session, append the caller's
   * turn, then append the reply on success or roll back on failure. The
   * session is registered afterwards whatever the outcome, and its transcript
   * has gained two turns on success and none on failure.
   */
  function Chat(store: Store, request: ChatRequest, outcome: Outcome): (e: Exchange)
    ensures request.sessionId in e.store
    ensures |e.store[request.sessionId]|
         == |History(store, request.sessionId)| + (if outcome.Success? then 2 else 0)
  {
    RollbackUndoesUserAppend(History(store, request.sessionId), request.userInput);
    var registered := Register(store, request.sessionId);
    var pending := registered[request.sessionId] + [UserTurn(request.userInput)];
    match outcome
    case Success(text, reply) =>
      Exchange(registered[request.sessionId := pending + [reply]], text)
    case Failure(message) =>
      Exchange(registered[request.sessionId := RollbackUserTurn(pending)], ErrorReply(message))
  }

  /** On success the session's transcript gains the caller's turn and then the reply. */
  lemma {:induction false} ChatSuccessAppendsExchange(store: Store, request: ChatRequest, text: string, reply: Turn)
    ensures Chat(store, request, Success(text, reply)).store ==
      store[request.sessionId := History(store, request.sessionId) + [UserTurn(request.userInput), reply]]
    ensures Chat(store, request, Success(text, reply)).response == text
  {
    var registered := Register(store, request.sessionId);
    var grown := History(store, request.sessionId) + [UserTurn(request.userInput), reply];
    assert registered[request.sessionId] + [UserTurn(request.userInput)] + [reply] == grown;
    assert registered[request.sessionId := grown] == store[request.sessionId := grown];
  }

  /**
   * On failure the session's transcript is what it was before the request; an
   * unseen session stays registered with an empty transcript.
   */
  lemma {:induction false} ChatFailureRestores(store: Store, request: ChatRequest, message: string)
    ensures Chat(store, request, Failure(message)).store ==
      store[request.sessionId := History(store, request.sessionId)]
    ensures request.sessionId in store ==> Chat(store, request, Failure(message)).store == store
    ensures Chat(store, request, Failure(message)).response == ErrorReply(message)
  {
    var registered := Register(store, request.sessionId);
    RollbackUndoesUserAppend(registered[request.sessionId], request.userInput);
    assert registered[request.sessionId := History(store, request.sessionId)]
      == store[request.sessionId := History(store, request.sessionId)];
  }

  /** A failed request adds no turn to any transcript. */
  lemma {:induction false} ChatFailureNetZero(store: Store, request: ChatRequest, message: string)
    ensures |Chat(store, request, Failure(message)).store[request.sessionId]| == |History(store, request.sessionId)|
  {
    ChatFailureRestores(store, request, message);
  }

  /** A request touches no session but its own. */
  lemma {:induction false} ChatIsolatesSessions(store: Store, request: ChatRequest, outcome: Outcome)
    ensures Chat(store, request, outcome).store.Keys == store.Keys + {request.sessionId}
    ensures forall id | id in store && id != request.sessionId ::
      Chat(store, request, outcome).store[id] == store[id]
  {
    match outcome {
      case Success(text, reply) => ChatSuccessAppendsExchange(store, request, text, reply);
      case Failure(message) => ChatFailureRestores(store, request, message);
    }
  }

  /** Every request answers with a string: the reply text, or one of the three fixed error replies. */
  lemma {:induction false} ChatAlwaysResponds(store: Store, request: ChatRequest, outcome: Outcome)
    ensures outcome.Success? ==> Chat(store, request, outcome).response == outcome.text
    ensures outcome.Failure? ==>
      Chat(store, request, outcome).response in {CREDENTIAL_REPLY, RATE_LIMIT_REPLY, GENERIC_REPLY}
  {
  }

  /** Every transcript in the store has each user turn answered. */
  ghost predicate AllAnswered(store: Store)
  {
    forall id | id in store :: EveryUserTurnAnswered(store[id])
  }

  /** The reply, if any, is not tagged as the user's. */
  predicate ReplyNotUser(outcome: Outcome)
  {
    outcome.Success? ==> outcome.reply.role != USER
  }

  /** A request whose reply is not tagged as the user's keeps every user turn answered. */
  lemma {:induction false} ChatKeepsAllAnswered(store: Store, request: ChatRequest, outcome: Outcome)
    requires AllAnswered(store)
    requires ReplyNotUser(outcome)
    ensures AllAnswered(Chat(store, request, outcome).store)
  {
    var id := request.sessionId;
    EmptyTranscriptAnswered();
    assert EveryUserTurnAnswered(History(store, id));
    match outcome
    case Success(text, reply) =>
      ChatSuccessAppendsExchange(store, request, text, reply);
      ExchangeKeepsAnswered(History(store, id), request.userInput, reply);
    case Failure(message) =>
      ChatFailureRestores(store, request, message);
  }

  /** The store after a series of requests handled one after another. */
  function Replay(store: Store, requests: seq<(ChatRequest, Outcome)>): Store
    decreases |requests|
  {
    if requests == [] then store
    else Replay(Chat(store, requests[0].0, requests[0].1).store, requests[1..])
  }

  /**
   * Transcripts only grow: after any series of requests, every session that
   * existed still exists, and its old transcript is a prefix of its new one.
   */
  lemma {:induction false} ReplayOnlyExtends(store: Store, requests: seq<(ChatRequest, Outcome)>)
    ensures store.Keys <= Replay(store, requests).Keys
    ensures forall id | id in store :: store[id] <= Replay(store, requests)[id]
    decreases |requests|
  {
    if requests != [] {
      var (request, outcome) := requests[0];
      var next := Chat(store, request, outcome).store;
      ChatIsolatesSessions(store, request, outcome);
      match outcome {
        case Success(text, reply) => ChatSuccessAppendsExchange(store, request, text, reply);
        case Failure(message) => ChatFailureRestores(store, request, message);
      }
      assert forall id | id in store :: store[id] <= next[id];
      ReplayOnlyExtends(next, requests[1..]);
    }
  }

  /**
   * From any store whose user turns are all answered, any series of requests
   * whose replies are not tagged as the user's leaves no user turn unanswered
   * in any session. The empty store of a freshly started server is such a store.
   */
  lemma {:induction false} ReplayKeepsAllAnswered(store: Store, requests: seq<(ChatRequest, Outcome)>)
    requires AllAnswered(store)
    requires forall k | 0 <= k < |requests| :: ReplyNotUser(requests[k].1)
    ensures AllAnswered(Replay(store, requests))
    decreases |requests|
  {
    if requests != [] {
      ChatKeepsAllAnswered(store, requests[0].0, requests[0].1);
      assert forall k | 0 <= k < |requests[1..]| :: requests[1..][k] == requests[k + 1];
      ReplayKeepsAllAnswered(Chat(store, requests[0].0, requests[0].1).store, requests[1..]);
    }
  }

  /** A request without a session id shares the transcript of "default_user". */
  lemma {:induction false} OmittedSessionIdSharesDefault(store: Store, userInput: string, outcome: Outcome)
    ensures Chat(store, NewChatRequest(userInput, None), outcome)
         == Chat(store, NewChatRequest(userInput, Some(DEFAULT_SESSION_ID)), outcome)
    ensures Chat(store, NewChatRequest(userInput, None), outcome).store.Keys
         == store.Keys + {DEFAULT_SESSION_ID}
  {
  }

  /**
   * A first request to a new session that succeeds leaves the question and
   * the answer, in that order; a following request that fails on a quota
   * error leaves them as they were and answers with the rate-limit reply.
   */
  lemma FirstExchangeThenQuotaFailure(question: string, answer: string, followUp: string)
    ensures var first := Chat(map[], ChatRequest(question, "s1"), Success(answer, Turn("model", answer)));
            && first.response == answer
            && first.store == map["s1" := [Turn(USER, question), Turn("model", answer)]]
            && var second := Chat(first.store, ChatRequest(followUp, "s1"), Failure("429 RESOURCE_EXHAUSTED"));
               && second.response == RATE_LIMIT_REPLY
               && second.store == first.store
  {
    var empty: Store := map[];
    var first := Chat(empty, ChatRequest(question, "s1"), Success(answer, Turn("model", answer)));
    ChatSuccessAppendsExchange(empty, ChatRequest(question, "s1"), answer, Turn("model", answer));
    assert History(empty, "s1") + [UserTurn(question), Turn("model", answer)]
        == [Turn(USER, question), Turn("model", answer)];
    assert first.store == map["s1" := [Turn(USER, question), Turn("model", answer)]];
    ChatFailureRestores(first.store, ChatRequest(followUp, "s1"), "429 RESOURCE_EXHAUSTED");
    QuotaFailureReply();
  }

  /** The process-wide session store of the server. */
  class ChatServer {
    var sessionHistory: Store

    /** The server starts with no sessions. */
    constructor ()
      ensures sessionHistory == map[]
    {
      sessionHistory := map[];
    }

    /** Looks up a session's transcript, registering an unseen id with an empty one. */
    method GetSessionHistory(sessionId: string) returns (history: seq<Turn>)
      modifies this
      ensures sessionHistory == Register(old(sessionHistory), sessionId)
      ensures history == History(old(sessionHistory), sessionId)
      ensures sessionId in old(sessionHistory) ==> sessionHistory == old(sessionHistory)
    {
      if sessionId !in sessionHistory {
        sessionHistory := sessionHistory[sessionId := []];
      }
      history := sessionHistory[sessionId];
    }

    /**
     * Handles one chat request, given what the generator does with the
     * transcript. Every path returns a response; no failure escapes.
     */
    method ChatWithLily(request: ChatRequest, outcome: Outcome) returns (response: string)
      modifies this
      ensures sessionHistory == Chat(old(sessionHistory), request, outcome).store
      ensures response == Chat(old(sessionHistory), request, outcome).response
      ensures outcome.Success? ==>
        sessionHistory[request.sessionId]
          == History(old(sessionHistory), request.sessionId) + [UserTurn(request.userInput), outcome.reply]
      ensures outcome.Failure? ==>
        sessionHistory[request.sessionId] == History(old(sessionHistory), request.sessionId)
      ensures forall id | id in old(sessionHistory) && id != request.sessionId ::
        id in sessionHistory && sessionHistory[id] == old(sessionHistory)[id]
    {
      var sessionId := request.sessionId;
      var history := GetSessionHistory(sessionId);
      history := history + [UserTurn(request.userInput)];
      sessionHistory := sessionHistory[sessionId := history];

      match outcome {
        case Success(text, reply) =>
          history := history + [reply];
          sessionHistory := sessionHistory[sessionId := history];
          response := text;
        case Failure(message) =>
          if |history| > 0 && history[|history| - 1].role == USER {
            history := history[..|history| - 1];
            sessionHistory := sessionHistory[sessionId := history];
          }
          response := ErrorReply(message);
      }
      ChatIsolatesSessions(old(sessionHistory), request, outcome);
      match outcome {
        case Success(text, reply) =>
          ChatSuccessAppendsExchange(old(sessionHistory), request, text, reply);
        case Failure(message) =>
          ChatFailureRestores(old(sessionHistory), request, message);
      }
    }
  }
}

# Lily chat backend: session store and chat handler

This project models the core of a small HTTP chat backend. The backend keeps
one conversation transcript per session id in a process-wide dictionary.
It answers `POST /chat` by relaying the transcript to a text generator.

A request goes through these steps:

1. It looks up the session, registering an unseen id with an empty transcript.
2. It appends the caller's input as a `user` turn.
3. It calls the generator.
4. On success, it appends the generator's reply turn and returns the reply text.
5. On failure, it removes the trailing turn if that turn is the user's.
   It then answers with one of three fixed messages, chosen by what the error text contains.

Files:

- `transcripts.dfy` (module `Transcripts`): turns, the guarded rollback, and
  the invariant "every user turn is immediately answered".
- `error_replies.dfy` (module `ErrorReplies`): Python's substring test as a
  recursive function, proved equal to a definition by position. Also the
  ordered classification of error text into the three replies.
- `sessions.dfy` (module `Sessions`): the request with its default session
  id, the generator's outcome, and the pure specification of one request
  (`Register`, `Chat`) and of a series of requests (`Replay`), with lemmas.
  It also holds the class `ChatServer`, whose field `sessionHistory` is the
  dictionary and whose methods update it step by step as the handler does.

The generator call is not code here: it is the `Outcome` argument of the
handler, either `Success(text, reply)` or `Failure(message)`. The message
stands for `str(e)` of the exception raised anywhere in the `try` block
before the reply is appended.

## Model

| member | source | states |
|---|---|---|
| `Sessions.ChatServer.constructor` | main.py:29 | The server starts with an empty session store |
| `Sessions.History` | main.py:65-69 | The transcript a lookup returns is the stored one for a known id, and in every case it is exactly the transcript the lookup leaves registered under that id |
| `Sessions.ChatServer.GetSessionHistory` | main.py:65-69 | An unseen id is registered with an empty transcript and that is returned; a known id returns its transcript and leaves the store unchanged |
| `Sessions.Register` | main.py:65-69 | A lookup adds exactly the looked-up id to the store's keys, gives an unseen id the empty transcript and keeps every existing entry |
| `Sessions.NewChatRequest` | main.py:72-74 | A request that names no session id gets `"default_user"`; one that names an id keeps it; the input text is kept |
| `Sessions.OmittedSessionIdSharesDefault` | main.py:74-81 | A request without a session id has exactly the effect and response of the same request naming `"default_user"` |
| `Sessions.Chat` | main.py:77-116 | One request, step by step (register, append the user turn, then append the reply or roll back); afterwards the session is registered, and its transcript has gained exactly two turns on success and none on failure |
| `Sessions.ChatServer.ChatWithLily` | main.py:77-116 | The handler's new store and response are those of `Chat`; on success the session's transcript is the old one plus the user turn and the reply; on failure it is the old one (empty for a new id); other sessions are untouched |
| `Sessions.ChatSuccessAppendsExchange` | main.py:81-103 | On generator success the session's transcript becomes the prior transcript followed by the user turn with the input text and then the reply turn, and the response is the generator's text |
| `Sessions.ChatFailureRestores` | main.py:81-107 | On generator failure the session's transcript equals its value before the request; a known session leaves the whole store unchanged; a new session stays registered with an empty transcript; the response is the classified error reply |
| `Sessions.ChatFailureNetZero` | main.py:105-107 | A failed request leaves the session's transcript length as it was |
| `Sessions.ChatIsolatesSessions` | main.py:81-107 | A request adds at most its own session id to the store and leaves every other session's transcript identical |
| `Sessions.ChatAlwaysResponds` | main.py:101-116 | Every request yields a response string: the generator's text on success, and one of the three fixed replies on failure; no error escapes |
| `Sessions.ChatKeepsAllAnswered` | main.py:81-107 | If every user turn in the store is answered and the reply is not tagged `user`, the same holds after the request |
| `Sessions.ReplayKeepsAllAnswered` | main.py:77-107 | Over any series of requests whose replies are not tagged `user`, no transcript ever holds an unanswered user turn or two adjacent user turns |
| `Sessions.ReplayOnlyExtends` | main.py:81-107 | Over any series of requests no session disappears and every transcript's earlier value is a prefix of its later value |
| `Sessions.FirstExchangeThenQuotaFailure` | main.py:81-113 | A first successful request on a new session `s1` stores the question and answer in that order; a following request failing with `RESOURCE_EXHAUSTED` leaves the store as it was and answers with the rate-limit reply |
| `Transcripts.RollbackUserTurn` | main.py:106-107 | Rollback keeps a prefix of the transcript, removes at most one turn, removes one exactly when the transcript is non-empty and ends in a `user` turn, and never removes a non-user turn |
| `Transcripts.RollbackUndoesUserAppend` | main.py:83-107 | Rolling back right after appending a user turn gives back the transcript as it was before the append |
| `Transcripts.AnsweredHasNoAdjacentUserTurns` | main.py:102-107 | A transcript in which every user turn is answered has no two consecutive user turns and does not end in a user turn |
| `Transcripts.ExchangeKeepsAnswered` | main.py:83-102 | Appending a user turn and a reply not tagged `user` to an answered transcript keeps it answered |
| `ErrorReplies.ContainsIffOccurs` | main.py:110-112 | The recursive substring test used for Python's `in` holds exactly when the fragment occurs at some index of the text |
| `ErrorReplies.ErrorReply` | main.py:110-116 | The reply is always one of the three fixed strings: the credential reply exactly when the error text contains `API Key not found`; the rate-limit reply exactly when it contains `RESOURCE_EXHAUSTED` but not the key fragment; the generic reply exactly when it contains neither |
| `ErrorReplies.KeyFailureTakesPrecedence` | main.py:110-113 | An error text containing both fragments gets the credential reply |
| `ErrorReplies.QuotaFailureReply` | main.py:112-113 | The error text `429 RESOURCE_EXHAUSTED` gets the rate-limit reply |

## Left out

- The generator client and its call (main.py:23-26, main.py:88-95) are not modelled. They are a foreign SDK and a network call. Their result is the `Outcome` argument of the handler.
- The credential loading at main.py:23 is left out. It reads the process environment.
- The FastAPI application, the CORS middleware and the pydantic validation (main.py:52-60, main.py:72-76) are framework wiring. Only the default session id is kept.
- The tool declaration and the system instruction (main.py:37-46) are constant configuration handed to the SDK. They do not affect the store.
- The logging of the error at main.py:108 is output only.
- The handler is declared `async` but awaits nothing, and the generator client it calls is synchronous (main.py:88). Each request therefore runs to completion before another handler starts within one process, so the model's atomic, sequential requests are exact there. Several server processes, each with its own store, are not modelled.
- List aliasing: in the source, `history` and the dictionary entry are the same list object, and the same object is handed to the generator as its `contents` (main.py:90). The model writes the new transcript back into the map after each append or pop. It assumes the generator neither keeps nor changes that list.
- `Sessions.ChatAlwaysResponds`: the SDK types the reply text (main.py:101) and the candidate's content (main.py:102) as optional. When the first candidate has no text part, the source answers `{"response": null}`. When the candidate has no content, it appends `None` to the transcript. The `Outcome` type carries a text and a turn on every success, so neither case is modelled, and "every request yields a response string" holds only for generators that return both.
- A turn keeps only a role and one text payload, not the SDK's full content structure. The reply turn's role is whatever the generator returns. The "every user turn answered" lemmas therefore assume the reply is not tagged `user`.
- The store and transcripts grow without bound, as in the source; there is no eviction to model.

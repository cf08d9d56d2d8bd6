/**
 * Turns and transcripts: the entries of one session's conversation, the
 * guarded removal of a speculative user turn, and the invariant that the
 * append-then-rollback discipline keeps (every user turn has been answered).
 */
module Transcripts {

  /** One conversation entry: the role tag and its single text part. */
  datatype Turn = Turn(role: string, text: string)

  /** The role tag the handler gives to the caller's input. */
  const USER: string := "user"

  /** The turn built from the caller's input text. */
  function UserTurn(text: string): Turn
  {
    Turn(USER, text)
  }

  /** True when the transcript ends in a turn tagged as the user's. */
  predicate EndsWithUserTurn(history: seq<Turn>)
  {
    |history| > 0 && history[|history| - 1].role == USER
  }

  /**
   * The rollback of a failed request: drop the last turn if there is one and
   * it is the user's; otherwise leave the transcript as it is.
   */
  function RollbackUserTurn(history: seq<Turn>): (r: seq<Turn>)
    ensures r <= history
    ensures |history| - 1 <= |r|
    ensures |r| < |history| <==> EndsWithUserTurn(history)
    ensures forall i | |r| <= i < |history| :: history[i].role == USER
  {
    if EndsWithUserTurn(history) then history[..|history| - 1] else history
  }

  /** Rolling back right after appending a user turn restores the transcript. */
  lemma {:induction false} RollbackUndoesUserAppend(history: seq<Turn>, text: string)
    ensures RollbackUserTurn(history + [UserTurn(text)]) == history
  {
    var pending := history + [UserTurn(text)];
    assert EndsWithUserTurn(pending);
    assert pending[..|pending| - 1] == history;
  }

  /**
   * Every user turn is immediately followed by a turn that is not the user's:
   * no user turn is left unanswered, and no two user turns are adjacent.
   */
  ghost predicate EveryUserTurnAnswered(history: seq<Turn>)
  {
    forall i | 0 <= i < |history| && history[i].role == USER ::
      i + 1 < |history| && history[i + 1].role != USER
  }

  /** The empty transcript of a newly registered session has no unanswered turn. */
  lemma EmptyTranscriptAnswered()
    ensures EveryUserTurnAnswered([])
  {
  }

  /** An answered transcript has no two consecutive user turns and does not end in one. */
  lemma {:induction false} AnsweredHasNoAdjacentUserTurns(history: seq<Turn>)
    requires EveryUserTurnAnswered(history)
    ensures !EndsWithUserTurn(history)
    ensures forall i | 0 <= i < |history| - 1 :: !(history[i].role == USER && history[i + 1].role == USER)
  {
  }

  /**
   * Appending a user turn and then a reply that is not tagged as the user's
   * keeps every user turn answered.
   */
  lemma {:induction false} ExchangeKeepsAnswered(history: seq<Turn>, text: string, reply: Turn)
    requires EveryUserTurnAnswered(history)
    requires reply.role != USER
    ensures EveryUserTurnAnswered(history + [UserTurn(text), reply])
  {
    var extended := history + [UserTurn(text), reply];
    forall i | 0 <= i < |extended| && extended[i].role == USER
      ensures i + 1 < |extended| && extended[i + 1].role != USER
    {
      if i < |history| {
        assert history[i].role == USER;
      }
    }
  }
}

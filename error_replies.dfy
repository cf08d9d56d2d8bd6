/**
 * The mapping from the text of a generator failure to the reply the caller
 * sees. The text is inspected for two fixed fragments, in a fixed order.
 */
module ErrorReplies {

  /** Substring test, as Python's `fragment in text` on strings. */
  function Contains(text: string, fragment: string): bool
    decreases |text|
  {
    if fragment <= text then true
    else if text == [] then false
    else Contains(text[1..], fragment)
  }

  /** `fragment` sits in `text` starting at index `i`. */
  ghost predicate OccursAt(text: string, fragment: string, i: int)
  {
    0 <= i && i + |fragment| <= |text| && text[i..i + |fragment|] == fragment
  }

  /** `fragment` sits somewhere in `text`. */
  ghost predicate Occurs(text: string, fragment: string)
  {
    exists i :: OccursAt(text, fragment, i)
  }

  /** An occurrence at index 0 is a prefix. */
  lemma OccursAtStartIsPrefix(text: string, fragment: string)
    ensures OccursAt(text, fragment, 0) ==> fragment <= text
  {
  }

  /** The recursive substring test agrees with the definition by position. */
  lemma {:induction false} ContainsIffOccurs(text: string, fragment: string)
    ensures Contains(text, fragment) <==> Occurs(text, fragment)
    decreases |text|
  {
    OccursAtStartIsPrefix(text, fragment);
    if fragment <= text {
      assert OccursAt(text, fragment, 0);
    } else if text != [] {
      var rest := text[1..];
      ContainsIffOccurs(rest, fragment);
      if Occurs(text, fragment) {
        var i :| OccursAt(text, fragment, i);
        assert rest[i - 1..i - 1 + |fragment|] == text[i..i + |fragment|];
        assert OccursAt(rest, fragment, i - 1);
      }
      if Occurs(rest, fragment) {
        var j :| OccursAt(rest, fragment, j);
        assert text[j + 1..j + 1 + |fragment|] == rest[j..j + |fragment|];
        assert OccursAt(text, fragment, j + 1);
      }
    }
  }

  /** The fragment of a failure caused by a missing or rejected API key. */
  const API_KEY_NOT_FOUND: string := "API Key not found"

  /** The fragment of a failure caused by an exhausted quota. */
  const RESOURCE_EXHAUSTED: string := "RESOURCE_EXHAUSTED"

  const CREDENTIAL_REPLY: string :=
    "Critical Error: The API Key is invalid. Please generate a new key and update main.py."

  const RATE_LIMIT_REPLY: string :=
    "Error: You have exceeded the free rate limit (too many requests per minute). Please wait 60 seconds."

  const GENERIC_REPLY: string :=
    "I'm sorry, Lily encountered a major technical issue. Please check the server console."

  /**
   * The reply to a failed request, chosen from the failure's text: the key
   * failure is recognised first, then quota exhaustion, else the generic reply.
   */
  function ErrorReply(message: string): (r: string)
    ensures r == CREDENTIAL_REPLY || r == RATE_LIMIT_REPLY || r == GENERIC_REPLY
    ensures r == CREDENTIAL_REPLY <==> Occurs(message, API_KEY_NOT_FOUND)
    ensures r == RATE_LIMIT_REPLY <==>
      !Occurs(message, API_KEY_NOT_FOUND) && Occurs(message, RESOURCE_EXHAUSTED)
    ensures r == GENERIC_REPLY <==>
      !Occurs(message, API_KEY_NOT_FOUND) && !Occurs(message, RESOURCE_EXHAUSTED)
  {
    ContainsIffOccurs(message, API_KEY_NOT_FOUND);
    ContainsIffOccurs(message, RESOURCE_EXHAUSTED);
    if Contains(message, API_KEY_NOT_FOUND) then CREDENTIAL_REPLY
    else if Contains(message, RESOURCE_EXHAUSTED) then RATE_LIMIT_REPLY
    else GENERIC_REPLY
  }

  /** A failure naming both causes is reported as the key failure. */
  lemma {:induction false} KeyFailureTakesPrecedence(message: string)
    requires Occurs(message, RESOURCE_EXHAUSTED)
    requires Occurs(message, API_KEY_NOT_FOUND)
    ensures ErrorReply(message) == CREDENTIAL_REPLY
  {
  }

  /** A quota failure from the generator, as its text reads, gets the rate-limit reply. */
  lemma QuotaFailureReply()
    ensures ErrorReply("429 RESOURCE_EXHAUSTED") == RATE_LIMIT_REPLY
  {
    var message := "429 RESOURCE_EXHAUSTED";
    assert OccursAt(message, RESOURCE_EXHAUSTED, 4);
    forall i | 0 <= i && i + |API_KEY_NOT_FOUND| <= |message|
      ensures !OccursAt(message, API_KEY_NOT_FOUND, i)
    {
      assert message[i] != API_KEY_NOT_FOUND[0];
    }
  }
}

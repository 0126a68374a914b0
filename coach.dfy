/**
  Prompt construction and fallback replies of the coaching chat (services/coachService.ts).
  The remote model call is not modelled; its outcome is a `CoachReply` given by the caller.
 */
module Coach {
  import opened Wrappers
  import opened Text

  datatype Role = UserRole | BotRole

  /** One turn of the conversation so far. */
  datatype Turn = Turn(role: Role, text: string)

  const TURN_SEPARATOR := "\n\n"
  const PROMPT_END := "\n\nCoach:"
  const EMPTY_REPLY_FALLBACK := "I'm here to help! Could you tell me more about your situation?"
  const ERROR_FALLBACK := "I'm having trouble connecting right now. Please try again in a moment."

  function Speaker(role: Role): string {
    if role == UserRole then "User" else "Coach"
  }

  /** `${role === 'user' ? 'User' : 'Coach'}: ${text}`, never empty. */
  function RenderTurn(t: Turn): (r: string)
    ensures |r| > 0
  {
    Speaker(t.role) + ": " + t.text
  }

  function RenderAll(history: seq<Turn>): (r: seq<string>)
    ensures |r| == |history|
  {
    seq(|history|, i requires 0 <= i < |history| => RenderTurn(history[i]))
  }

  /** The rendered turns in their original order, joined by blank lines; empty exactly for an empty history. */
  function Context(history: seq<Turn>): (r: string)
    ensures r == [] <==> history == []
  {
    var parts := RenderAll(history);
    assert parts != [] ==> |parts[0]| > 0;
    Join(parts, TURN_SEPARATOR)
  }

  /** A new turn lands after the earlier ones, separated by a blank line. */
  lemma ContextAppend(history: seq<Turn>, t: Turn)
    requires history != []
    ensures Context(history + [t]) == Context(history) + TURN_SEPARATOR + RenderTurn(t)
  {
    assert RenderAll(history + [t]) == RenderAll(history) + [RenderTurn(t)];
    JoinSnoc(RenderAll(history), RenderTurn(t), TURN_SEPARATOR);
  }

  /**
    The prompt sent to the model: the context, when there is one, then the new user
    message, then the cue for the coach's answer.
   */
  function Prompt(message: string, history: seq<Turn>): (r: string)
    ensures history == [] ==> r == "User: " + message + PROMPT_END
    ensures history != [] ==> r == Context(history) + "\n\nUser: " + message + PROMPT_END
    ensures EndsWith(r, PROMPT_END)
  {
    var context := Context(history);
    var r := if context != [] then context + "\n\nUser: " + message + PROMPT_END
             else "User: " + message + PROMPT_END;
    assert r[|r| - |PROMPT_END|..] == PROMPT_END;
    r
  }

  /** What the model call gave: an error, or a reply whose text may be missing. */
  datatype CoachReply = CoachFailed | CoachAnswered(text: Option<string>)

  /** `sendCoachMessage`'s result: never throws and never returns an empty string. */
  function Answer(reply: CoachReply): (r: string)
    ensures r != []
    ensures reply.CoachFailed? ==> r == ERROR_FALLBACK
    ensures reply.CoachAnswered? && (reply.text.None? || reply.text.value == []) ==> r == EMPTY_REPLY_FALLBACK
    ensures reply.CoachAnswered? && reply.text.Some? && reply.text.value != [] ==> r == reply.text.value
  {
    match reply
    case CoachFailed => ERROR_FALLBACK
    case CoachAnswered(text) =>
      if text.Some? && text.value != [] then text.value else EMPTY_REPLY_FALLBACK
  }
}

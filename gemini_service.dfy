/**
 * The chat service: one lazily created, memoised conversation session with the
 * external generative-AI client, and the mapping of every outcome of a message
 * exchange to a user-facing string.
 *
 * The client itself is foreign. Each attempt to create a session is given its
 * outcome (`Creation`) and each message exchange its outcome (`Outcome`) as an
 * argument, so every behaviour of the client is covered; a ghost log records the
 * calls made to the client, in order.
 */
module GeminiService {
  import opened Types

  /** An opaque handle to a session the client created. */
  datatype Session = Session(handle: nat)

  /** `ai.chats.create(...)` either returns a session or throws. */
  datatype Creation = Created(session: Session) | Failed

  /** `chatSession.sendMessage(...)` resolves with a text, resolves without one, or rejects. */
  datatype Outcome = Reply(text: string) | EmptyReply | Failure

  /** A call made to the client. */
  datatype ClientCall = CreateChat | SendToChat(session: Session, message: string)

  const UnavailableText := "Erro: Serviço de IA não disponível (Verifique API Key)."
  const NoAnswerText := "Não consegui gerar uma resposta."
  const ApologyText := "Desculpe, ocorreu um erro ao processar sua pergunta. Tente novamente."

  /** `response.text || NoAnswerText`, or the apology when the exchange failed. */
  function ReplyText(o: Outcome): (r: string)
    ensures r != []
    ensures o.Reply? && o.text != [] ==> r == o.text
    ensures o.EmptyReply? || o == Reply([]) ==> r == NoAnswerText
    ensures o.Failure? ==> r == ApologyText
  {
    match o
    case Reply(t) => if t != [] then t else NoAnswerText
    case EmptyReply => NoAnswerText
    case Failure => ApologyText
  }

  /**
   * The session after `initializeChat`: without an API key nothing happens; with
   * one, a created session is stored and a failed creation leaves the old value.
   */
  function Initialized(hasKey: bool, session: Option<Session>, creation: Creation): (r: Option<Session>)
    ensures !hasKey || creation.Failed? ==> r == session
    ensures hasKey && creation.Created? ==> r == Some(creation.session)
  {
    if hasKey && creation.Created? then Some(creation.session) else session
  }

  /** The client calls `initializeChat` makes: one creation attempt, and only when a key exists. */
  function InitCalls(hasKey: bool): (r: seq<ClientCall>)
    ensures hasKey <==> r == [CreateChat]
    ensures !hasKey <==> r == []
  {
    if hasKey then [CreateChat] else []
  }

  /** What one call of `sendMessageToGemini` leaves behind. */
  datatype Step = Step(session: Option<Session>, reply: string, calls: seq<ClientCall>)

  /**
   * One call of `sendMessageToGemini`: create a session if there is none; answer
   * with the unavailable-service text if there still is none; otherwise send the
   * message on the session and turn the outcome into text.
   */
  function SendStep(hasKey: bool, session: Option<Session>, message: string,
                    creation: Creation, outcome: Outcome): (r: Step)
    ensures r.reply != []
    ensures session.Some? ==>
      r == Step(session, ReplyText(outcome), [SendToChat(session.value, message)])
    ensures session.None? && (!hasKey || creation.Failed?) ==>
      r == Step(None, UnavailableText, InitCalls(hasKey))
    ensures session.None? && hasKey && creation.Created? ==>
      r == Step(Some(creation.session), ReplyText(outcome), [CreateChat, SendToChat(creation.session, message)])
  {
    var (s, init) := if session.None? then (Initialized(hasKey, session, creation), InitCalls(hasKey))
                     else (session, []);
    match s
    case None => Step(None, UnavailableText, init)
    case Some(x) =>
      Step(s, ReplyText(outcome), init + [SendToChat(x, message)])
  }

  // ---------------------------------------------------------------------------
  // Runs of several calls

  /** The arguments of one call and the client's behaviour during it. */
  datatype Request = Request(message: string, creation: Creation, outcome: Outcome)

  datatype RunResult = RunResult(session: Option<Session>, replies: seq<string>, calls: seq<ClientCall>)

  /** A sequence of calls of `sendMessageToGemini`, each seeing the session the previous one left. */
  function Run(hasKey: bool, session: Option<Session>, reqs: seq<Request>): (r: RunResult)
    ensures |r.replies| == |reqs|
    ensures forall i :: 0 <= i < |reqs| ==> r.replies[i] != []
    ensures |r.calls| <= 2 * |reqs|
    decreases |reqs|
  {
    if reqs == [] then RunResult(session, [], [])
    else
      var st := SendStep(hasKey, session, reqs[0].message, reqs[0].creation, reqs[0].outcome);
      var rest := Run(hasKey, st.session, reqs[1..]);
      RunResult(rest.session, [st.reply] + rest.replies, st.calls + rest.calls)
  }

  /**
   * Memoisation: once a session exists it is kept for good, never re-created, every
   * message goes to it, and every reply is the text of the client's outcome.
   */
  lemma {:induction false} RunReusesSession(hasKey: bool, s: Session, reqs: seq<Request>)
    ensures var r := Run(hasKey, Some(s), reqs);
      && r.session == Some(s)
      && |r.calls| == |reqs|
      && (forall i :: 0 <= i < |reqs| ==> r.calls[i] == SendToChat(s, reqs[i].message))
      && (forall i :: 0 <= i < |reqs| ==> r.replies[i] == ReplyText(reqs[i].outcome))
    decreases |reqs|
  {
    if reqs != [] {
      RunReusesSession(hasKey, s, reqs[1..]);
    }
  }

  /**
   * Without a session and while every creation fails (or there is no key), every
   * call answers with the unavailable-service text, no session appears, no message
   * reaches the client, and creation is retried on every call when a key exists.
   */
  lemma {:induction false} RunWhileCreationFails(hasKey: bool, reqs: seq<Request>)
    requires forall i :: 0 <= i < |reqs| ==> !hasKey || reqs[i].creation.Failed?
    ensures var r := Run(hasKey, None, reqs);
      && r.session == None
      && (forall i :: 0 <= i < |reqs| ==> r.replies[i] == UnavailableText)
      && |r.calls| == (if hasKey then |reqs| else 0)
      && (forall c :: c in r.calls ==> c == CreateChat)
    decreases |reqs|
  {
    if reqs != [] {
      RunWhileCreationFails(hasKey, reqs[1..]);
    }
  }

  /**
   * From no session, every message that reaches the client in a run goes to one and
   * the same session: the first one created, which is the session left at the end.
   */
  lemma {:induction false} RunUsesOneSession(hasKey: bool, session: Option<Session>, reqs: seq<Request>)
    ensures var r := Run(hasKey, session, reqs);
      && (session.Some? ==> r.session == session)
      && (forall c :: c in r.calls && c.SendToChat? ==> r.session == Some(c.session))
    decreases |reqs|
  {
    if reqs != [] {
      var q := reqs[0];
      var st := SendStep(hasKey, session, q.message, q.creation, q.outcome);
      RunUsesOneSession(hasKey, st.session, reqs[1..]);
      if st.session.Some? {
        RunReusesSession(hasKey, st.session.value, reqs[1..]);
      }
    }
  }

  // ---------------------------------------------------------------------------
  // The module's state

  /** The module-level `chatSession` variable together with the key's presence. */
  class ChatService {
    /** Whether an API key is configured; fixed for the page's lifetime. */
    const hasApiKey: bool
    var chatSession: Option<Session>
    /** The calls made to the client so far. */
    ghost var calls: seq<ClientCall>

    constructor (hasApiKey: bool)
      ensures this.hasApiKey == hasApiKey && chatSession == None && calls == []
    {
      this.hasApiKey := hasApiKey;
      chatSession := None;
      calls := [];
    }

    /** `initializeChat`. */
    method InitializeChat(creation: Creation)
      modifies this
      ensures chatSession == Initialized(hasApiKey, old(chatSession), creation)
      ensures calls == old(calls) + InitCalls(hasApiKey)
    {
      if !hasApiKey {
        return;
      }
      calls := calls + [CreateChat];
      match creation
      case Created(s) => chatSession := Some(s);
      case Failed =>
    }

    /** `sendMessageToGemini`: always returns a string; every failure becomes a fixed message. */
    method SendMessage(message: string, creation: Creation, outcome: Outcome) returns (reply: string)
      modifies this
      ensures var st := SendStep(hasApiKey, old(chatSession), message, creation, outcome);
        chatSession == st.session && reply == st.reply && calls == old(calls) + st.calls
    {
      if chatSession.None? {
        InitializeChat(creation);
        if chatSession.None? {
          return UnavailableText;
        }
      }
      calls := calls + [SendToChat(chatSession.value, message)];
      match outcome
      case Reply(t) =>
        reply := if t != [] then t else NoAnswerText;
      case EmptyReply =>
        reply := NoAnswerText;
      case Failure =>
        reply := ApologyText;
    }
  }
}

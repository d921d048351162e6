/**
 * The chat panel: the transcript, the input box and the busy flag, the send
 * handler that appends the user's message and then the service's reply, the
 * Enter-key rule, and the light markup applied to a message's text on display.
 */
module AIChat {
  import opened Types
  import opened Text
  import GeminiService

  const WelcomeText :=
    "Olá! Analisei seus exames de Setembro e Dezembro. Notei a melhoria nos triglicerídeos e glicemia, mas o aumento do CPK chama atenção. Como posso ajudar a entender melhor esses resultados?"

  /** The one message the transcript starts with. */
  const WelcomeMessage := ChatMessage("welcome", Model, WelcomeText)

  /** The send guard: `!(!inputText.trim() || isLoading)`. */
  function CanSend(input: string, isLoading: bool): (r: bool)
    ensures r <==> !AllSpace(input) && !isLoading
  {
    TrimEmptyIffAllSpace(input);
    Trim(input) != [] && !isLoading
  }

  /**
   * The shape every transcript keeps: the welcome message first, then user and
   * model messages strictly alternating; a send is pending exactly when the last
   * message is the user's.
   */
  ghost predicate Alternates(ms: seq<ChatMessage>, isLoading: bool)
  {
    && |ms| >= 1
    && ms[0] == WelcomeMessage
    && (forall i :: 1 <= i < |ms| ==> ms[i].role == (if i % 2 == 1 then User else Model))
    && (isLoading <==> |ms| % 2 == 0)
  }

  /** A user message appended to an idle transcript leaves a transcript waiting for the reply. */
  lemma UserTurnKeepsShape(ms: seq<ChatMessage>, u: ChatMessage)
    requires Alternates(ms, false) && u.role == User
    ensures Alternates(ms + [u], true)
  {
    var ms1 := ms + [u];
    forall i | 1 <= i < |ms1| ensures ms1[i].role == (if i % 2 == 1 then User else Model) {
      if i < |ms| { assert ms1[i] == ms[i]; }
    }
  }

  /** A model message appended to a waiting transcript leaves it idle again. */
  lemma ModelTurnKeepsShape(ms: seq<ChatMessage>, m: ChatMessage)
    requires Alternates(ms, true) && m.role == Model
    ensures Alternates(ms + [m], false)
  {
    var ms1 := ms + [m];
    forall i | 1 <= i < |ms1| ensures ms1[i].role == (if i % 2 == 1 then User else Model) {
      if i < |ms| { assert ms1[i] == ms[i]; }
    }
  }

  /** An idle transcript holds the welcome message and then as many questions as answers. */
  lemma IdleTranscriptIsPairs(ms: seq<ChatMessage>)
    requires Alternates(ms, false)
    ensures |ms| == 1 + 2 * ((|ms| - 1) / 2)
    ensures forall k :: 0 <= k < (|ms| - 1) / 2 ==> ms[2 * k + 1].role == User && ms[2 * k + 2].role == Model
  {
    forall k | 0 <= k < (|ms| - 1) / 2
      ensures ms[2 * k + 1].role == User && ms[2 * k + 2].role == Model
    {
      assert (2 * k + 1) % 2 == 1 && (2 * k + 2) % 2 == 0;
    }
  }

  // ---------------------------------------------------------------------------
  // Message markup

  /** The characters a regular-expression `.` does not match. */
  predicate IsLineTerminator(c: char)
  {
    c == '\n' || c == '\r' || c == '\U{2028}' || c == '\U{2029}'
  }

  ghost predicate LineFree(s: string)
  {
    forall k :: 0 <= k < |s| ==> !IsLineTerminator(s[k])
  }

  /** `t` continues with `(.*?)\*\*` when the lazy group takes exactly `j` characters. */
  ghost predicate CloseAt(t: string, j: int)
  {
    0 <= j && j + 2 <= |t| && t[j..j + 2] == "**" && LineFree(t[..j])
  }

  lemma CloseAtShift(t: string, j: int)
    requires 1 <= j && |t| >= 1
    ensures CloseAt(t, j) <==> !IsLineTerminator(t[0]) && CloseAt(t[1..], j - 1)
  {
    if j + 2 <= |t| {
      assert t[j..j + 2] == t[1..][j - 1..j + 1];
      assert t[..j] == [t[0]] + t[1..][..j - 1];
      assert forall k :: 1 <= k < j ==> t[..j][k] == t[1..][..j - 1][k - 1];
    }
  }

  /** The shortest closing `**` after an opening one, found before any line terminator. */
  function FindClose(t: string): (r: Option<nat>)
    ensures r.Some? ==> CloseAt(t, r.value) && forall j :: 0 <= j < r.value ==> !CloseAt(t, j)
    ensures r.None? ==> forall j :: !CloseAt(t, j)
    decreases |t|
  {
    if |t| < 2 then None
    else if t[..2] == "**" then Some(0)
    else if IsLineTerminator(t[0]) then
      (forall j | 1 <= j ensures !CloseAt(t, j) { CloseAtShift(t, j); }
       None)
    else
      (forall j | 1 <= j ensures CloseAt(t, j) <==> CloseAt(t[1..], j - 1) { CloseAtShift(t, j); }
       match FindClose(t[1..])
       case None => None
       case Some(j) => Some(j + 1))
  }

  /**
   * The global replacement of each `**`, lazy `(.*?)` group, `**` match by
   * `<strong>$1</strong>`: leftmost matches first, each as short as possible.
   * Text without a `**` has no match and is left as it is.
   */
  function Bold(s: string): (r: string)
    ensures !Contains(s, "**") ==> r == s
    decreases |s|
  {
    if |s| >= 2 && s[..2] == "**" && FindClose(s[2..]).Some? then
      var j := FindClose(s[2..]).value;
      "<strong>" + s[2..2 + j] + "</strong>" + Bold(s[2 + j + 2..])
    else if s == [] then []
    else
      assert |s| >= 2 && !Contains(s, "**") ==> !Contains(s[1..], "**");
      [s[0]] + Bold(s[1..])
  }

  /** The global replacement of every newline by `<br/>`: none is left. */
  function Newlines(s: string): (r: string)
    ensures '\n' !in r
  {
    if s == [] then []
    else (if s[0] == '\n' then "<br/>" else [s[0]]) + Newlines(s[1..])
  }

  /** Without a newline the line-break pass changes nothing. */
  lemma {:induction false} NewlinesIdentity(s: string)
    requires '\n' !in s
    ensures Newlines(s) == s
  {
    if s != [] {
      NewlinesIdentity(s[1..]);
    }
  }

  /** The line-break pass works piece by piece: it distributes over concatenation. */
  lemma {:induction false} NewlinesDistributes(a: string, b: string)
    ensures Newlines(a + b) == Newlines(a) + Newlines(b)
  {
    if a == [] {
      assert a + b == b;
    } else {
      var h := if a[0] == '\n' then "<br/>" else [a[0]];
      assert (a + b)[0] == a[0] && (a + b)[1..] == a[1..] + b;
      assert Newlines(a + b) == h + Newlines(a[1..] + b);
      NewlinesDistributes(a[1..], b);
      assert Newlines(a) == h + Newlines(a[1..]);
    }
  }

  /** On one character the line-break pass turns a newline into `<br/>` and keeps anything else. */
  lemma NewlinesOfChar(c: char)
    ensures Newlines([c]) == if c == '\n' then "<br/>" else [c]
  {
    assert [c][1..] == [];
  }

  /** The HTML a message's text is displayed as: text with neither `**` nor a newline is shown as written. */
  function Markup(s: string): (r: string)
    ensures !Contains(s, "**") && '\n' !in s ==> r == s
    ensures '\n' !in r
  {
    if '\n' in s then Newlines(Bold(s))
    else
      NewlinesIdentity(s);
      Newlines(Bold(s))
  }

  /**
   * A `**`-delimited span on one line with no star inside becomes a `strong`
   * element holding exactly that span, and the scan goes on after it.
   */
  lemma BoldWrapsSpan(x: string, rest: string)
    requires LineFree(x) && '*' !in x
    ensures Bold("**" + x + "**" + rest) == "<strong>" + x + "</strong>" + Bold(rest)
  {
    var s := "**" + x + "**" + rest;
    var t := s[2..];
    assert t == x + "**" + rest;
    assert t[..|x|] == x;
    assert t[|x|..|x| + 2] == "**";
    assert CloseAt(t, |x|);
    forall j | 0 <= j < |x| ensures !CloseAt(t, j) {
      assert t[j..j + 2][0] == x[j];
    }
    assert FindClose(t) == Some(|x|);
    assert s[2..2 + |x|] == x;
    assert s[2 + |x| + 2..] == rest;
  }

  // ---------------------------------------------------------------------------
  // The panel's state

  class ChatPanel {
    var messages: seq<ChatMessage>
    var inputText: string
    var isLoading: bool
    /** The module-level chat service every panel sends through. */
    const service: GeminiService.ChatService

    ghost predicate Valid()
      reads this
    {
      Alternates(messages, isLoading)
    }

    constructor (service: GeminiService.ChatService)
      ensures Valid()
      ensures messages == [WelcomeMessage] && inputText == [] && !isLoading && this.service == service
    {
      messages := [WelcomeMessage];
      inputText := [];
      isLoading := false;
      this.service := service;
    }

    /** The input box's change event; the box is disabled while a reply is pending. */
    method Edit(text: string)
      requires Valid()
      modifies this
      ensures Valid()
      ensures inputText == (if old(isLoading) then old(inputText) else text)
      ensures messages == old(messages) && isLoading == old(isLoading)
    {
      if !isLoading {
        inputText := text;
      }
    }

    /**
     * The first half of `handleSend`, up to the call of the service: refused for
     * blank input or while loading; otherwise the user's message, exactly as typed,
     * is appended, the input is cleared and the panel starts loading.
     */
    method BeginSend(userId: string) returns (accepted: bool, outgoing: string)
      requires Valid()
      modifies this
      ensures Valid()
      ensures accepted == CanSend(old(inputText), old(isLoading))
      ensures accepted ==>
        && messages == old(messages) + [ChatMessage(userId, User, old(inputText))]
        && inputText == [] && isLoading && outgoing == old(inputText)
      ensures !accepted ==>
        messages == old(messages) && inputText == old(inputText) && isLoading == old(isLoading)
    {
      if !CanSend(inputText, isLoading) {
        return false, [];
      }
      var user := ChatMessage(userId, User, inputText);
      UserTurnKeepsShape(messages, user);
      outgoing := inputText;
      messages := messages + [user];
      inputText := [];
      isLoading := true;
      accepted := true;
    }

    /** The second half of `handleSend`: the reply is appended as the model's and loading ends. */
    method ReceiveReply(botId: string, reply: string)
      requires Valid() && isLoading
      modifies this
      ensures Valid()
      ensures messages == old(messages) + [ChatMessage(botId, Model, reply)]
      ensures !isLoading && inputText == old(inputText)
    {
      ModelTurnKeepsShape(messages, ChatMessage(botId, Model, reply));
      messages := messages + [ChatMessage(botId, Model, reply)];
      isLoading := false;
    }

    /**
     * `handleSend` from start to finish. A completed send adds exactly two
     * messages: the user's text as typed and the text the service returned for it.
     */
    method HandleSend(userId: string, botId: string,
                      creation: GeminiService.Creation, outcome: GeminiService.Outcome)
      returns (accepted: bool)
      requires Valid()
      modifies this, service
      ensures Valid()
      ensures accepted == CanSend(old(inputText), old(isLoading))
      ensures accepted ==>
        var st := GeminiService.SendStep(service.hasApiKey, old(service.chatSession), old(inputText),
                                         creation, outcome);
        && messages == old(messages) + [ChatMessage(userId, User, old(inputText)), ChatMessage(botId, Model, st.reply)]
        && inputText == [] && !isLoading
        && service.chatSession == st.session && service.calls == old(service.calls) + st.calls
      ensures !accepted ==>
        && messages == old(messages) && inputText == old(inputText) && isLoading == old(isLoading)
        && service.chatSession == old(service.chatSession) && service.calls == old(service.calls)
    {
      ghost var before := messages;
      var outgoing;
      accepted, outgoing := BeginSend(userId);
      if accepted {
        var user := ChatMessage(userId, User, outgoing);
        assert messages == before + [user];
        var reply := service.SendMessage(outgoing, creation, outcome);
        ReceiveReply(botId, reply);
        assert messages == before + [user] + [ChatMessage(botId, Model, reply)];
        assert before + [user] + [ChatMessage(botId, Model, reply)] == before + [user, ChatMessage(botId, Model, reply)];
      }
    }

    /** `handleKeyDown`: Enter without Shift sends; every other key leaves everything as it was. */
    method HandleKeyDown(key: string, shift: bool, userId: string, botId: string,
                         creation: GeminiService.Creation, outcome: GeminiService.Outcome)
      returns (sent: bool)
      requires Valid()
      modifies this, service
      ensures Valid()
      ensures sent <==> key == "Enter" && !shift && CanSend(old(inputText), old(isLoading))
      ensures sent ==>
        var st := GeminiService.SendStep(service.hasApiKey, old(service.chatSession), old(inputText),
                                         creation, outcome);
        && messages == old(messages) + [ChatMessage(userId, User, old(inputText)), ChatMessage(botId, Model, st.reply)]
        && inputText == [] && !isLoading
        && service.chatSession == st.session && service.calls == old(service.calls) + st.calls
      ensures !sent ==>
        && messages == old(messages) && inputText == old(inputText) && isLoading == old(isLoading)
        && service.chatSession == old(service.chatSession) && service.calls == old(service.calls)
    {
      if key == "Enter" && !shift {
        sent := HandleSend(userId, botId, creation, outcome);
      } else {
        sent := false;
      }
    }
  }
}

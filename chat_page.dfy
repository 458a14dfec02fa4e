/** The chat page's component state and its handlers: the sidebar's session
    list, the current session, the visible messages, the input box and the
    title editor. Each handler is a method over the component's fields; the
    list updaters are the pure functions `WithoutSession` and `Renamed`. */
module ChatPage {
  import opened Wrappers
  import opened Text
  import opened Schema

  datatype Role = UserRole | AssistantRole

  /** A chat bubble. Its `Date.now()`-based id and its timestamp are not modelled. */
  datatype Message = Message(role: Role, content: string)

  /** The parsed `user` entry of localStorage; the page reads only its id. */
  datatype StoredUser = StoredUser(id: string)

  /** A string state that is truthy: not null and not empty. */
  predicate Present(v: Option<string>) { v.Some? && v.value != "" }

  /** The title handleNewChat gives when `count` sessions are listed: the
      prefix "New Chat " and then the decimal digits of `count + 1`. */
  function NewChatTitle(count: nat): (r: string)
    ensures |r| > |"New Chat "| && r[..|"New Chat "|] == "New Chat "
    ensures forall i :: |"New Chat "| <= i < |r| ==> IsDigit(r[i])
    ensures DecimalValue(r[|"New Chat "|..]) == count + 1
    ensures r[|"New Chat "|] != '0'
  {
    var digits := NatToString(count + 1);
    DecimalRoundTrip(count + 1);
    assert ("New Chat " + digits)[|"New Chat "|..] == digits;
    "New Chat " + digits
  }

  /** Titles made at different list lengths differ. */
  lemma {:induction false} NewChatTitlesDistinct(m: nat, n: nat)
    ensures NewChatTitle(m) == NewChatTitle(n) <==> m == n
  {
  }

  /** Titles are not unique all the same: with "New Chat 2" made beside one
      other session, deleting that session and starting a new chat gives
      "New Chat 2" again, since the title counts the listed sessions. */
  lemma NewChatTitleCanRepeat(made: ChatSession, other: ChatSession)
    requires made.title == NewChatTitle(1) && made.id != other.id
    ensures WithoutSession([made, other], other.id) == [made]
    ensures NewChatTitle(|WithoutSession([made, other], other.id)|) == made.title
  {
  }

  /** `prev.filter(s => s.id !== id)` */
  function WithoutSession(sessions: seq<ChatSession>, id: string): (r: seq<ChatSession>)
    ensures |r| <= |sessions|
    ensures forall s :: s in r <==> s in sessions && s.id != id
  {
    if sessions == [] then []
    else (if sessions[0].id == id then [] else [sessions[0]]) + WithoutSession(sessions[1..], id)
  }

  /** Deleting keeps the order of what remains: the filter distributes over concatenation. */
  lemma {:induction false} WithoutSessionAppend(a: seq<ChatSession>, b: seq<ChatSession>, id: string)
    ensures WithoutSession(a + b, id) == WithoutSession(a, id) + WithoutSession(b, id)
  {
    if a == [] {
      assert a + b == b;
    } else {
      assert (a + b)[0] == a[0];
      assert (a + b)[1..] == a[1..] + b;
      WithoutSessionAppend(a[1..], b, id);
    }
  }

  /** Deleting an id that is not listed leaves the list as it is. */
  lemma {:induction false} WithoutAbsentSession(sessions: seq<ChatSession>, id: string)
    requires forall i :: 0 <= i < |sessions| ==> sessions[i].id != id
    ensures WithoutSession(sessions, id) == sessions
  {
    if sessions != [] {
      WithoutAbsentSession(sessions[1..], id);
    }
  }

  /** `prev.map(s => s.id === editingId ? { ...s, title, updated_at: now } : s)` */
  function Renamed(sessions: seq<ChatSession>, editingId: Option<string>, title: string, now: Timestamp): (r: seq<ChatSession>)
    ensures |r| == |sessions|
    ensures forall i :: 0 <= i < |r| ==>
              if editingId == Some(sessions[i].id)
              then r[i] == sessions[i].(title := title, updated_at := now)
              else r[i] == sessions[i]
  {
    if sessions == [] then []
    else
      var s := sessions[0];
      [if editingId == Some(s.id) then s.(title := title, updated_at := now) else s]
        + Renamed(sessions[1..], editingId, title, now)
  }

  /** With nothing being edited, saving a title changes no session. */
  lemma RenamedNothingEdited(sessions: seq<ChatSession>, title: string, now: Timestamp)
    ensures Renamed(sessions, None, title, now) == sessions
  {
  }

  /** The `Chat` component's state. */
  class Chat {
    var sessionId: Option<string>
    var currentUser: Option<StoredUser>
    var sessions: seq<ChatSession>
    var currentSessionId: Option<string>
    var messages: seq<Message>
    var inputMessage: string
    var editingSessionId: Option<string>
    var editingTitle: string

    /** The current session, when there is one, is listed in the sidebar. */
    ghost predicate CurrentListed()
      reads this
    {
      currentSessionId.Some? ==> exists i :: 0 <= i < |sessions| && sessions[i].id == currentSessionId.value
    }

    /** The page shows only a spinner until a user is known. */
    predicate ShowsSpinner()
      reads this
    {
      currentUser.None?
    }

    /** The initial `useState` values. */
    constructor ()
      ensures sessionId.None? && currentUser.None? && sessions == [] && currentSessionId.None?
      ensures messages == [] && inputMessage == "" && editingSessionId.None? && editingTitle == ""
      ensures CurrentListed()
    {
      sessionId := None;
      currentUser := None;
      sessions := [];
      currentSessionId := None;
      messages := [];
      inputMessage := "";
      editingSessionId := None;
      editingTitle := "";
    }

    /** The authentication effect: with both localStorage entries non-empty the
        page adopts them (`parsedUser` is what JSON.parse gives for the stored
        user, None for `null`); otherwise it redirects to /login. */
    method CheckAuthentication(storedSessionId: Option<string>, storedUser: Option<string>, parsedUser: Option<StoredUser>)
        returns (redirectToLogin: bool)
      modifies this`sessionId, this`currentUser
      ensures redirectToLogin <==> !Present(storedSessionId) || !Present(storedUser)
      ensures redirectToLogin ==> sessionId == old(sessionId) && currentUser == old(currentUser)
      ensures !redirectToLogin ==> sessionId == storedSessionId && currentUser == parsedUser
      ensures !redirectToLogin ==> (ShowsSpinner() <==> parsedUser.None?)
    {
      if !Present(storedSessionId) || !Present(storedUser) {
        return true;
      }
      sessionId := storedSessionId;
      currentUser := parsedUser;
      return false;
    }

    /** handleNewChat: prepends one session titled after the list length, makes
        it current and clears the messages. `newId` and `now` stand for
        `session-${Date.now()}` and `new Date()`. */
    method NewChat(newId: string, now: Timestamp)
      modifies this`sessions, this`currentSessionId, this`messages
      ensures sessions == [ChatSession(newId, if currentUser.Some? then currentUser.value.id else "",
                                       NewChatTitle(|old(sessions)|), now, now)] + old(sessions)
      ensures currentSessionId == Some(newId) && messages == []
      ensures CurrentListed()
    {
      var userId := if currentUser.Some? then currentUser.value.id else "";
      sessions := [ChatSession(newId, userId, NewChatTitle(|sessions|), now, now)] + sessions;
      currentSessionId := Some(newId);
      messages := [];
      assert sessions[0].id == newId;
    }

    /** handleSendMessage: a blank input does nothing; otherwise a chat without
        a current session first gets a new one, and the request carries the
        input and the current session id as it was when the handler started. */
    method SendMessage(newId: string, now: Timestamp) returns (request: Option<ChatRequest>)
      modifies this`sessions, this`currentSessionId, this`messages
      ensures IsBlank(inputMessage) ==>
                request.None? && sessions == old(sessions) && currentSessionId == old(currentSessionId) && messages == old(messages)
      ensures !IsBlank(inputMessage) ==>
                request == Some(ChatRequest(inputMessage, if Present(old(currentSessionId)) then old(currentSessionId) else None))
      ensures !IsBlank(inputMessage) && !Present(old(currentSessionId)) ==>
                sessions == [ChatSession(newId, if currentUser.Some? then currentUser.value.id else "",
                                         NewChatTitle(|old(sessions)|), now, now)] + old(sessions)
                && currentSessionId == Some(newId) && messages == []
      ensures !IsBlank(inputMessage) && Present(old(currentSessionId)) ==>
                sessions == old(sessions) && currentSessionId == old(currentSessionId) && messages == old(messages)
      ensures old(CurrentListed()) ==> CurrentListed()
    {
      if Trim(inputMessage) == "" {
        return None;
      }
      var sessionAtStart := currentSessionId;
      if !Present(currentSessionId) {
        NewChat(newId, now);
      }
      request := Some(ChatRequest(inputMessage, if Present(sessionAtStart) then sessionAtStart else None));
    }

    /** handleKeyPress: Enter without Shift sends. */
    method KeyPress(key: string, shiftKey: bool, newId: string, now: Timestamp) returns (request: Option<ChatRequest>)
      modifies this`sessions, this`currentSessionId, this`messages
      ensures key != "Enter" || shiftKey ==>
                request.None? && sessions == old(sessions) && currentSessionId == old(currentSessionId) && messages == old(messages)
      ensures key == "Enter" && !shiftKey && IsBlank(inputMessage) ==>
                request.None? && sessions == old(sessions) && currentSessionId == old(currentSessionId) && messages == old(messages)
      ensures key == "Enter" && !shiftKey && !IsBlank(inputMessage) ==>
                request == Some(ChatRequest(inputMessage, if Present(old(currentSessionId)) then old(currentSessionId) else None))
      ensures key == "Enter" && !shiftKey && !IsBlank(inputMessage) && !Present(old(currentSessionId)) ==>
                sessions == [ChatSession(newId, if currentUser.Some? then currentUser.value.id else "",
                                         NewChatTitle(|old(sessions)|), now, now)] + old(sessions)
                && currentSessionId == Some(newId) && messages == []
      ensures key == "Enter" && !shiftKey && !IsBlank(inputMessage) && Present(old(currentSessionId)) ==>
                sessions == old(sessions) && currentSessionId == old(currentSessionId) && messages == old(messages)
      ensures old(CurrentListed()) ==> CurrentListed()
    {
      request := None;
      if key == "Enter" && !shiftKey {
        request := SendMessage(newId, now);
      }
    }

    /** The chat mutation's onSuccess: appends the prompt and then the reply,
        and clears the input. */
    method ChatSucceeded(request: ChatRequest, reply: string)
      modifies this`messages, this`inputMessage
      ensures messages == old(messages) + [Message(UserRole, request.prompt), Message(AssistantRole, reply)]
      ensures inputMessage == ""
    {
      messages := messages + [Message(UserRole, request.prompt), Message(AssistantRole, reply)];
      inputMessage := "";
    }

    /** The input box's onChange. */
    method SetInput(text: string)
      modifies this`inputMessage
      ensures inputMessage == text
    {
      inputMessage := text;
    }

    /** handleSessionClick: selects the session and clears the messages; the list is untouched. */
    method SessionClick(session: ChatSession)
      modifies this`currentSessionId, this`messages
      ensures currentSessionId == Some(session.id) && messages == []
      ensures session in sessions ==> CurrentListed()
    {
      currentSessionId := Some(session.id);
      messages := [];
      if session in sessions {
        var i :| 0 <= i < |sessions| && sessions[i] == session;
      }
    }

    /** handleDeleteSession: removes every session with that id, keeping the
        rest in order; the current session and the messages are reset only
        when the deleted id was current. */
    method DeleteSession(id: string)
      modifies this`sessions, this`currentSessionId, this`messages
      ensures sessions == WithoutSession(old(sessions), id)
      ensures old(currentSessionId) == Some(id) ==> currentSessionId.None? && messages == []
      ensures old(currentSessionId) != Some(id) ==> currentSessionId == old(currentSessionId) && messages == old(messages)
      ensures old(CurrentListed()) ==> CurrentListed()
    {
      ghost var before := sessions;
      sessions := WithoutSession(sessions, id);
      if currentSessionId == Some(id) {
        currentSessionId := None;
        messages := [];
      } else if currentSessionId.Some? && exists i :: 0 <= i < |before| && before[i].id == currentSessionId.value {
        var i :| 0 <= i < |before| && before[i].id == currentSessionId.value;
        assert before[i] in sessions;
        var j :| 0 <= j < |sessions| && sessions[j] == before[i];
      }
    }

    /** handleEditSession: opens the title editor on that session. */
    method EditSession(session: ChatSession)
      modifies this`editingSessionId, this`editingTitle
      ensures editingSessionId == Some(session.id) && editingTitle == session.title
    {
      editingSessionId := Some(session.id);
      editingTitle := session.title;
    }

    /** The title editor's onChange. */
    method SetEditingTitle(title: string)
      modifies this`editingTitle
      ensures editingTitle == title
    {
      editingTitle := title;
    }

    /** handleSaveTitle: renames only the sessions whose id is being edited,
        stamping them with `now`, then closes the editor. */
    method SaveTitle(now: Timestamp)
      modifies this`sessions, this`editingSessionId, this`editingTitle
      ensures sessions == Renamed(old(sessions), old(editingSessionId), old(editingTitle), now)
      ensures |sessions| == |old(sessions)|
      ensures forall i :: 0 <= i < |sessions| && old(editingSessionId) != Some(old(sessions)[i].id) ==> sessions[i] == old(sessions)[i]
      ensures editingSessionId.None? && editingTitle == ""
      ensures old(CurrentListed()) ==> CurrentListed()
    {
      ghost var before := sessions;
      sessions := Renamed(sessions, editingSessionId, editingTitle, now);
      editingSessionId := None;
      editingTitle := "";
      if currentSessionId.Some? && exists i :: 0 <= i < |before| && before[i].id == currentSessionId.value {
        var i :| 0 <= i < |before| && before[i].id == currentSessionId.value;
        assert sessions[i].id == before[i].id;
      }
    }

    /** handleCancelEdit: closes the editor and leaves the list alone. */
    method CancelEdit()
      modifies this`editingSessionId, this`editingTitle
      ensures editingSessionId.None? && editingTitle == ""
    {
      editingSessionId := None;
      editingTitle := "";
    }
  }
}

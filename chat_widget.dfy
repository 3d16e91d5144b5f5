/** The state engine of the chat widget: the session directory, the selected
    session, the message log of that session, the input buffer and the request
    flags, changed by the widget's handlers. Each handler runs as one atomic step;
    what the server answers, what the clock reads and what the user answers to a
    confirmation dialog are parameters. */
module ChatWidget {
  import opened Remote
  import Text

  datatype Role = User | Assistant

  datatype ChatMessage = ChatMessage(id: int, role: Role, content: string, createdAt: int, createdBy: string)

  datatype ChatSession = ChatSession(sessionId: string, firstMessage: Option<string>)

  /** The permission a user needs before the widget opens. */
  const ChatPermission := "POST /chat-message"

  const SessionsFallback := "Không thể tải danh sách cuộc trò chuyện"
  const HistoryFallback := "Không thể tải lịch sử chat"
  const CreateFallback := "Không thể tạo cuộc trò chuyện mới"
  const SendFallback := "Không thể gửi tin nhắn. Vui lòng thử lại"
  const DeleteFallback := "Không thể xóa cuộc trò chuyện"
  const DeleteAllFallback := "Không thể xóa lịch sử"
  const LoginRequired := "Vui lòng đăng nhập để sử dụng tính năng Chat AI"
  const Created := "Đã tạo cuộc trò chuyện mới"
  const Deleted := "Đã xóa cuộc trò chuyện"
  const DeletedAll := "Đã xóa tất cả lịch sử trò chuyện"

  /** JavaScript truthiness of a `string | null`: null and "" are both false. */
  predicate Truthy(id: Option<string>) {
    id.Some? && id.value != ""
  }

  /** The provisional message a send appends before the server answers. */
  function UserMessage(text: string, sentAt: int): ChatMessage {
    ChatMessage(sentAt, User, text, sentAt, "user")
  }

  /** The message built from the server's reply; its id is the clock read after
      the reply arrived, plus one. */
  function AssistantMessage(reply: string, repliedAt: int): ChatMessage {
    ChatMessage(repliedAt + 1, Assistant, reply, repliedAt, "assistant")
  }

  /** The two messages of a successful send carry ids read from one clock, `now`
      and `now + 1`: they differ unless the clock went back by exactly one
      millisecond between the readings, and the assistant's id is the larger one
      whenever the clock did not go back. */
  lemma SendIdsDistinct(text: string, reply: string, sentAt: int, repliedAt: int)
    ensures UserMessage(text, sentAt).id != AssistantMessage(reply, repliedAt).id <==> repliedAt != sentAt - 1
    ensures sentAt <= repliedAt ==> UserMessage(text, sentAt).id < AssistantMessage(reply, repliedAt).id
  {
  }

  /** `log.filter((msg) => msg.id !== id)`: every message with that id goes, the
      rest stay in order. */
  function RemoveId(log: seq<ChatMessage>, id: int): (r: seq<ChatMessage>)
    ensures |r| <= |log|
    ensures forall m :: m in r ==> m in log && m.id != id
    ensures forall m :: m in log && m.id != id ==> m in r
  {
    if log == [] then []
    else
      var rest := RemoveId(log[..|log| - 1], id);
      var last := log[|log| - 1];
      assert log == log[..|log| - 1] + [last];
      if last.id == id then rest else rest + [last]
  }

  /** The filter works message by message: filtering a concatenation filters
      each part and keeps them in order. */
  lemma {:induction false} RemoveIdConcat(a: seq<ChatMessage>, b: seq<ChatMessage>, id: int)
    ensures RemoveId(a + b, id) == RemoveId(a, id) + RemoveId(b, id)
  {
    if b == [] {
      assert a + b == a;
    } else {
      var init := b[..|b| - 1];
      var last := b[|b| - 1];
      assert (a + b)[..|a + b| - 1] == a + init;
      assert (a + b)[|a + b| - 1] == last;
      RemoveIdConcat(a, init, id);
    }
  }

  /** Removing an id nobody carries changes nothing. */
  lemma {:induction false} RemoveAbsentId(log: seq<ChatMessage>, id: int)
    requires forall m :: m in log ==> m.id != id
    ensures RemoveId(log, id) == log
  {
    if log != [] {
      var init := log[..|log| - 1];
      assert forall m :: m in init ==> m in log;
      RemoveAbsentId(init, id);
      assert log == init + [log[|log| - 1]];
    }
  }

  /** Rolling back a failed send restores the log exactly, provided no earlier
      message carries the provisional message's id. */
  lemma RollbackRestores(log: seq<ChatMessage>, provisional: ChatMessage)
    requires forall m :: m in log ==> m.id != provisional.id
    ensures RemoveId(log + [provisional], provisional.id) == log
  {
    var whole := log + [provisional];
    assert whole[..|whole| - 1] == log;
    RemoveAbsentId(log, provisional.id);
  }

  /** The rollback filters by id, so an earlier message that happens to carry the
      provisional message's id is lost with it: the log ends up shorter than
      before the send. */
  lemma {:induction false} RollbackDropsCollision(log: seq<ChatMessage>, provisional: ChatMessage, k: nat)
    requires k < |log| && log[k].id == provisional.id
    ensures |RemoveId(log + [provisional], provisional.id)| < |log|
  {
    var whole := log + [provisional];
    assert whole[..|whole| - 1] == log;
    RemoveShrinks(log, provisional.id, k);
  }

  lemma {:induction false} RemoveShrinks(log: seq<ChatMessage>, id: int, k: nat)
    requires k < |log| && log[k].id == id
    ensures |RemoveId(log, id)| < |log|
  {
    var init := log[..|log| - 1];
    if k < |log| - 1 {
      RemoveShrinks(init, id, k);
    }
  }

  /** The ids of the directory, in order: one `clearChatHistory` call each. */
  function SessionIds(sessions: seq<ChatSession>): (ids: seq<string>)
    ensures |ids| == |sessions|
    ensures forall i :: 0 <= i < |sessions| ==> ids[i] == sessions[i].sessionId
  {
    if sessions == [] then [] else [sessions[0].sessionId] + SessionIds(sessions[1..])
  }

  /** The message of the first failed clear, in directory order, or None when
      every clear succeeded. */
  function FirstClearFailure(sessions: seq<ChatSession>, clear: string -> Remote<()>): (r: Option<string>)
    ensures r == None <==> forall i :: 0 <= i < |sessions| ==> clear(sessions[i].sessionId).Success?
    ensures r.Some? ==> exists i :: 0 <= i < |sessions| && clear(sessions[i].sessionId) == Failure(r.value)
  {
    if sessions == [] then None
    else if clear(sessions[0].sessionId).Failure? then Some(clear(sessions[0].sessionId).message)
    else
      var r := FirstClearFailure(sessions[1..], clear);
      assert forall i :: 1 <= i < |sessions| ==> sessions[i] == sessions[1..][i - 1];
      r
  }

  /** The toasts a directory refresh adds. */
  function RefreshToasts(r: Remote<seq<ChatSession>>): seq<Toast> {
    if r.Success? then [] else [FailureToast(r, SessionsFallback)]
  }

  /** The selection after a directory refresh that saw `seen` as the selection. */
  function SelectionAfterRefresh(r: Remote<seq<ChatSession>>, seen: Option<string>, current: Option<string>): Option<string> {
    if r.Success? && !Truthy(seen) && |r.payload| > 0 then Some(r.payload[0].sessionId) else current
  }

  /** How long ago a message was written, as `formatDate` buckets it from the
      millisecond difference. */
  datatype Age = JustNow | MinutesAgo(minutes: int) | HoursAgo(hours: int) | DaysAgo(days: int) | OnDate(createdAt: int)

  /** `formatDate`: floor division of the difference picks the first bucket that
      fits; a timestamp in the future reads as "just now". */
  function FormatDate(createdAt: int, now: int): (r: Age)
    ensures r == JustNow <==> now - createdAt < 60000
    ensures r.MinutesAgo? ==> 1 <= r.minutes < 60 && r.minutes * 60000 <= now - createdAt < (r.minutes + 1) * 60000
    ensures r.HoursAgo? ==> 1 <= r.hours < 24 && r.hours * 3600000 <= now - createdAt < (r.hours + 1) * 3600000
    ensures r.DaysAgo? ==> 1 <= r.days < 7 && r.days * 86400000 <= now - createdAt < (r.days + 1) * 86400000
    ensures r.OnDate? <==> now - createdAt >= 7 * 86400000
  {
    var diff := now - createdAt;
    var minutes := diff / 60000;
    var hours := diff / 3600000;
    var days := diff / 86400000;
    if minutes < 1 then JustNow
    else if minutes < 60 then MinutesAgo(minutes)
    else if hours < 24 then HoursAgo(hours)
    else if days < 7 then DaysAgo(days)
    else OnDate(createdAt)
  }

  /** The text shown for an age; the locale date of older messages is not modelled. */
  function AgeLabel(a: Age): (r: Option<string>)
    ensures r.None? <==> a.OnDate?
  {
    match a
    case JustNow => Some("Vừa xong")
    case MinutesAgo(m) => Some(Text.IntToString(m) + " phút trước")
    case HoursAgo(h) => Some(Text.IntToString(h) + " giờ trước")
    case DaysAgo(d) => Some(Text.IntToString(d) + " ngày trước")
    case OnDate(_) => None
  }

  /** `s` is a count written in decimal followed by `unit`. */
  predicate CountLabel(s: string, unit: string, n: int) {
    |unit| <= |s| && s[|s| - |unit|..] == unit
    && Text.AllDigits(s[..|s| - |unit|]) && Text.ParseDigits(s[..|s| - |unit|]) == n
  }

  lemma CountLabelOf(n: nat, unit: string)
    ensures CountLabel(Text.IntToString(n) + unit, unit, n)
  {
    Text.IntToStringReadsBack(n);
    var digits := Text.IntToString(n);
    assert (digits + unit)[..|digits|] == digits;
    assert (digits + unit)[|digits|..] == unit;
  }

  /** What `formatDate` shows for a message written at `createdAt`, read at
      `now`: "Vừa xong" below a minute (or in the future), then the whole
      minutes, hours or days elapsed in decimal with their unit, and the locale
      date from a week on. */
  lemma DateLabel(createdAt: int, now: int)
    ensures var d := now - createdAt;
      var r := AgeLabel(FormatDate(createdAt, now));
      (d < 60000 ==> r == Some("Vừa xong"))
      && (60000 <= d < 3600000 ==> r.Some? && CountLabel(r.value, " phút trước", d / 60000))
      && (3600000 <= d < 86400000 ==> r.Some? && CountLabel(r.value, " giờ trước", d / 3600000))
      && (86400000 <= d < 7 * 86400000 ==> r.Some? && CountLabel(r.value, " ngày trước", d / 86400000))
      && (r.None? <==> d >= 7 * 86400000)
  {
    var d := now - createdAt;
    if 60000 <= d < 3600000 {
      CountLabelOf(d / 60000, " phút trước");
    } else if 3600000 <= d < 86400000 {
      CountLabelOf(d / 3600000, " giờ trước");
    } else if 86400000 <= d < 7 * 86400000 {
      CountLabelOf(d / 86400000, " ngày trước");
    }
  }

  /** The label of a session chip: its first message cut to 18 characters plus
      "...", or "Mới" when the session has no (or an empty) first message. */
  function SessionLabel(firstMessage: Option<string>): (r: string)
    ensures firstMessage == None || firstMessage.value == "" ==> r == "Mới"
    ensures firstMessage.Some? && firstMessage.value != "" ==> r == Text.Truncate(firstMessage.value, 18)
    ensures |r| <= 21
  {
    if firstMessage.Some? && |firstMessage.value| > 18 then firstMessage.value[..18] + "..."
    else if firstMessage.Some? && firstMessage.value != "" then firstMessage.value
    else "Mới"
  }

  class Widget {
    var isOpen: bool
    var isMinimized: bool
    var sessions: seq<ChatSession>
    var currentSessionId: Option<string>
    var messages: seq<ChatMessage>
    var inputMessage: string
    var isLoading: bool
    var isLoadingSessions: bool
    var isCreatingSession: bool
    var showSettings: bool
    var toasts: seq<Toast>

    constructor ()
      ensures !isOpen && !isMinimized && !showSettings
      ensures !isLoading && !isLoadingSessions && !isCreatingSession
      ensures sessions == [] && currentSessionId == None && messages == []
      ensures inputMessage == "" && toasts == []
    {
      isOpen, isMinimized, showSettings := false, false, false;
      sessions, currentSessionId, messages := [], None, [];
      inputMessage := "";
      isLoading, isLoadingSessions, isCreatingSession := false, false, false;
      toasts := [];
    }

    /** `handleOpenChat`: only a signed-in user holding the chat permission opens
        the widget; anyone else gets an error toast. */
    method OpenChat(permissions: Option<seq<string>>)
      modifies this`isOpen, this`isMinimized, this`toasts
      ensures permissions.Some? && ChatPermission in permissions.value ==>
        isOpen && !isMinimized && toasts == old(toasts)
      ensures !(permissions.Some? && ChatPermission in permissions.value) ==>
        isOpen == old(isOpen) && isMinimized == old(isMinimized)
        && toasts == old(toasts) + [ToastError(LoginRequired)]
    {
      if permissions.None? || ChatPermission !in permissions.value {
        toasts := toasts + [ToastError(LoginRequired)];
        return;
      }
      isOpen := true;
      isMinimized := false;
    }

    /** The close button: hides the widget and its settings panel. */
    method Close()
      modifies this`isOpen, this`isMinimized, this`showSettings
      ensures !isOpen && !isMinimized && !showSettings
    {
      isOpen, isMinimized, showSettings := false, false, false;
    }

    /** Typing into the input box. */
    method TypeInput(text: string)
      modifies this`inputMessage
      ensures inputMessage == text
    {
      inputMessage := text;
    }

    /** Clicking a session chip: the selection changes and nothing else; the log
        still shows the previous session until SyncMessages reloads it. */
    method SelectSession(sessionId: string)
      modifies this`currentSessionId
      ensures currentSessionId == Some(sessionId)
    {
      currentSessionId := Some(sessionId);
    }

    /** `loadSessions` as run inside a handler whose closure saw `seen` as the
        selection: a successful answer replaces the directory wholesale and picks
        its first session only when `seen` was no selection; a failure keeps
        directory and selection and adds an error toast. */
    method LoadSessionsSeeing(r: Remote<seq<ChatSession>>, seen: Option<string>)
      modifies this`sessions, this`currentSessionId, this`isLoadingSessions, this`toasts
      ensures !isLoadingSessions
      ensures sessions == if r.Success? then r.payload else old(sessions)
      ensures currentSessionId == SelectionAfterRefresh(r, seen, old(currentSessionId))
      ensures toasts == old(toasts) + RefreshToasts(r)
    {
      isLoadingSessions := true;
      match r {
        case Success(data) =>
          sessions := data;
          if !Truthy(seen) && |data| > 0 {
            currentSessionId := Some(data[0].sessionId);
          }
        case Failure(_) =>
          toasts := toasts + [FailureToast(r, SessionsFallback)];
      }
      isLoadingSessions := false;
    }

    /** `loadSessions` run on its own (when the widget opens). */
    method LoadSessions(r: Remote<seq<ChatSession>>)
      modifies this`sessions, this`currentSessionId, this`isLoadingSessions, this`toasts
      ensures !isLoadingSessions
      ensures sessions == if r.Success? then r.payload else old(sessions)
      ensures currentSessionId == SelectionAfterRefresh(r, old(currentSessionId), old(currentSessionId))
      ensures r.Failure? || Truthy(old(currentSessionId)) || |r.payload| == 0 ==> currentSessionId == old(currentSessionId)
      ensures toasts == old(toasts) + RefreshToasts(r)
    {
      LoadSessionsSeeing(r, currentSessionId);
    }

    /** `loadMessages`: a successful answer replaces the log; a failed one keeps
        the log it had (whatever session it belonged to) and adds an error toast. */
    method LoadMessages(sessionId: string, r: Remote<seq<ChatMessage>>)
      modifies this`messages, this`isLoading, this`toasts
      ensures !isLoading
      ensures messages == if r.Success? then r.payload else old(messages)
      ensures toasts == if r.Success? then old(toasts) else old(toasts) + [FailureToast(r, HistoryFallback)]
    {
      isLoading := true;
      match r {
        case Success(data) =>
          messages := data;
        case Failure(_) =>
          toasts := toasts + [FailureToast(r, HistoryFallback)];
      }
      isLoading := false;
    }

    /** The effect that follows a change of selection or of `isOpen`: load the
        selected session's log when there is a selection and the widget is open,
        otherwise empty the log. */
    method SyncMessages(r: Remote<seq<ChatMessage>>)
      modifies this`messages, this`isLoading, this`toasts
      ensures Truthy(currentSessionId) && isOpen ==>
        !isLoading && messages == (if r.Success? then r.payload else old(messages))
        && toasts == (if r.Success? then old(toasts) else old(toasts) + [FailureToast(r, HistoryFallback)])
      ensures !(Truthy(currentSessionId) && isOpen) ==>
        messages == [] && isLoading == old(isLoading) && toasts == old(toasts)
    {
      if Truthy(currentSessionId) && isOpen {
        LoadMessages(currentSessionId.value, r);
      } else {
        messages := [];
      }
    }

    /** `handleCreateSession`: on success the directory is refreshed and the new
        session selected, whatever the refresh answered; on failure only an error
        toast is added. */
    method CreateSession(created: Remote<string>, reload: Remote<seq<ChatSession>>)
      modifies this`sessions, this`currentSessionId, this`isLoadingSessions, this`isCreatingSession, this`toasts
      ensures !isCreatingSession
      ensures created.Failure? ==>
        sessions == old(sessions) && currentSessionId == old(currentSessionId)
        && isLoadingSessions == old(isLoadingSessions)
        && toasts == old(toasts) + [FailureToast(created, CreateFallback)]
      ensures created.Success? ==>
        currentSessionId == Some(created.payload) && !isLoadingSessions
        && sessions == (if reload.Success? then reload.payload else old(sessions))
        && toasts == old(toasts) + RefreshToasts(reload) + [ToastSuccess(Created)]
    {
      isCreatingSession := true;
      match created {
        case Success(sessionId) =>
          LoadSessionsSeeing(reload, currentSessionId);
          currentSessionId := Some(sessionId);
          toasts := toasts + [ToastSuccess(Created)];
        case Failure(_) =>
          toasts := toasts + [FailureToast(created, CreateFallback)];
      }
      isCreatingSession := false;
    }

    /** `handleSendMessage`. Nothing happens unless the trimmed input is non-empty,
        a session is selected and no request is loading. An accepted send clears
        the input and appends the provisional user message; a reply appends the
        assistant's message after it and refreshes the directory; a failure filters
        the provisional message's id back out of the log. */
    method SendMessage(sentAt: int, repliedAt: int, reply: Remote<string>, reload: Remote<seq<ChatSession>>)
      returns (accepted: bool)
      modifies this`messages, this`inputMessage, this`isLoading, this`sessions,
        this`currentSessionId, this`isLoadingSessions, this`toasts
      ensures accepted <==> Text.Trim(old(inputMessage)) != "" && Truthy(old(currentSessionId)) && !old(isLoading)
      ensures !accepted ==>
        messages == old(messages) && inputMessage == old(inputMessage) && isLoading == old(isLoading)
        && sessions == old(sessions) && currentSessionId == old(currentSessionId)
        && isLoadingSessions == old(isLoadingSessions) && toasts == old(toasts)
      ensures accepted ==> inputMessage == "" && !isLoading && currentSessionId == old(currentSessionId)
      ensures accepted && reply.Success? ==>
        messages == old(messages) + [UserMessage(Text.Trim(old(inputMessage)), sentAt),
                                     AssistantMessage(reply.payload, repliedAt)]
        && sessions == (if reload.Success? then reload.payload else old(sessions))
        && !isLoadingSessions && toasts == old(toasts) + RefreshToasts(reload)
      ensures accepted && reply.Success? && sentAt <= repliedAt ==>
        |messages| >= 2 && messages[|messages| - 2].id < messages[|messages| - 1].id
      ensures accepted && reply.Failure? ==>
        messages == RemoveId(old(messages) + [UserMessage(Text.Trim(old(inputMessage)), sentAt)], sentAt)
        && sessions == old(sessions) && isLoadingSessions == old(isLoadingSessions)
        && toasts == old(toasts) + [FailureToast(reply, SendFallback)]
    {
      var text := Text.Trim(inputMessage);
      if text == "" || !Truthy(currentSessionId) || isLoading {
        return false;
      }
      accepted := true;
      Submit(text, sentAt, repliedAt, reply, reload);
    }

    /** The accepted part of `handleSendMessage`, for the trimmed text: the input
        is cleared, the provisional user message appended and the outcome of the
        request applied; the loading flag is down again at the end. */
    method Submit(text: string, sentAt: int, repliedAt: int, reply: Remote<string>, reload: Remote<seq<ChatSession>>)
      requires Truthy(currentSessionId)
      modifies this`messages, this`inputMessage, this`isLoading, this`sessions,
        this`currentSessionId, this`isLoadingSessions, this`toasts
      ensures inputMessage == "" && !isLoading && currentSessionId == old(currentSessionId)
      ensures reply.Success? ==>
        messages == old(messages) + [UserMessage(text, sentAt), AssistantMessage(reply.payload, repliedAt)]
        && sessions == (if reload.Success? then reload.payload else old(sessions))
        && !isLoadingSessions && toasts == old(toasts) + RefreshToasts(reload)
      ensures reply.Success? && sentAt <= repliedAt ==>
        |messages| >= 2 && messages[|messages| - 2].id < messages[|messages| - 1].id
      ensures reply.Failure? ==>
        messages == RemoveId(old(messages) + [UserMessage(text, sentAt)], sentAt)
        && sessions == old(sessions) && isLoadingSessions == old(isLoadingSessions)
        && toasts == old(toasts) + [FailureToast(reply, SendFallback)]
    {
      ghost var log := messages;
      inputMessage := "";
      var userMsg := UserMessage(text, sentAt);
      messages := messages + [userMsg];
      isLoading := true;
      if reply.Success? {
        var answer := AssistantMessage(reply.payload, repliedAt);
        messages := messages + [answer];
        assert messages == log + [userMsg, answer];
        LoadSessionsSeeing(reload, currentSessionId);
      } else {
        toasts := toasts + [FailureToast(reply, SendFallback)];
        messages := RemoveId(messages, userMsg.id);
      }
      isLoading := false;
    }

    /** `handleDeleteSession`. A declined confirmation or a failed clear changes
        nothing but the toasts. A successful clear of the selected session drops
        the selection and empties the log; the directory is then refreshed by a
        closure that still sees the selection the handler started with. */
    method DeleteSession(sessionId: string, confirmed: bool, cleared: Remote<()>, reload: Remote<seq<ChatSession>>)
      modifies this`sessions, this`currentSessionId, this`messages, this`isLoadingSessions, this`toasts
      ensures !confirmed || cleared.Failure? ==>
        sessions == old(sessions) && currentSessionId == old(currentSessionId)
        && messages == old(messages) && isLoadingSessions == old(isLoadingSessions)
      ensures !confirmed ==> toasts == old(toasts)
      ensures confirmed && cleared.Failure? ==> toasts == old(toasts) + [FailureToast(cleared, DeleteFallback)]
      ensures confirmed && cleared.Success? ==>
        !isLoadingSessions
        && sessions == (if reload.Success? then reload.payload else old(sessions))
        && messages == (if old(currentSessionId) == Some(sessionId) then [] else old(messages))
        && currentSessionId == SelectionAfterRefresh(reload, old(currentSessionId),
             if old(currentSessionId) == Some(sessionId) then None else old(currentSessionId))
        && toasts == old(toasts) + RefreshToasts(reload) + [ToastSuccess(Deleted)]
      ensures confirmed && cleared.Success? && Truthy(old(currentSessionId)) ==>
        if old(currentSessionId) == Some(sessionId) then currentSessionId == None && messages == []
        else currentSessionId == old(currentSessionId) && messages == old(messages)
    {
      if !confirmed {
        return;
      }
      var seen := currentSessionId;
      match cleared {
        case Success(_) =>
          if currentSessionId == Some(sessionId) {
            currentSessionId := None;
            messages := [];
          }
          LoadSessionsSeeing(reload, seen);
          toasts := toasts + [ToastSuccess(Deleted)];
        case Failure(_) =>
          toasts := toasts + [FailureToast(cleared, DeleteFallback)];
      }
    }

    /** `handleDeleteAllSessions`. After confirmation it issues one clear per listed
        session, in directory order. Only when every clear succeeds does it drop the
        selection, empty the log, refresh the directory and close the settings;
        any failure skips all of that and adds one error toast. */
    method DeleteAllSessions(confirmed: bool, clear: string -> Remote<()>, reload: Remote<seq<ChatSession>>)
      returns (issued: seq<string>)
      modifies this`sessions, this`currentSessionId, this`messages, this`isLoadingSessions,
        this`showSettings, this`toasts
      ensures !confirmed ==> issued == [] && toasts == old(toasts)
      ensures confirmed ==> issued == SessionIds(old(sessions))
      ensures !confirmed || FirstClearFailure(old(sessions), clear).Some? ==>
        sessions == old(sessions) && currentSessionId == old(currentSessionId) && messages == old(messages)
        && isLoadingSessions == old(isLoadingSessions) && showSettings == old(showSettings)
      ensures confirmed && FirstClearFailure(old(sessions), clear).Some? ==>
        toasts == old(toasts) + [ToastError(OrElse(FirstClearFailure(old(sessions), clear).value, DeleteAllFallback))]
      ensures confirmed && FirstClearFailure(old(sessions), clear).None? ==>
        messages == [] && !showSettings && !isLoadingSessions
        && sessions == (if reload.Success? then reload.payload else old(sessions))
        && currentSessionId == SelectionAfterRefresh(reload, old(currentSessionId), None)
        && toasts == old(toasts) + RefreshToasts(reload) + [ToastSuccess(DeletedAll)]
    {
      if !confirmed {
        return [];
      }
      issued := SessionIds(sessions);
      var seen := currentSessionId;
      var failure := FirstClearFailure(sessions, clear);
      if failure.Some? {
        toasts := toasts + [ToastError(OrElse(failure.value, DeleteAllFallback))];
        return;
      }
      currentSessionId := None;
      messages := [];
      LoadSessionsSeeing(reload, seen);
      toasts := toasts + [ToastSuccess(DeletedAll)];
      showSettings := false;
    }
  }
}

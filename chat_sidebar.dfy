/**
 * The session sidebar: how a session's title is shown, the rename editor,
 * the delete confirmation and the one refresh it asks for when it mounts.
 *
 * The session store calls (`deleteChatSession`, `updateChatSessionTitle`)
 * are an oracle that says whether the call resolved. The parent's callbacks
 * are not run here: the handlers return, in order, which of them they call.
 */
module ChatSidebar {
  import opened Wrappers
  import opened JsText
  import opened ChatTypes
  import opened Browser

  const NewChatTitle: string := "New Chat"
  const LoadingTitle: string := "Loading title..."
  const UntitledTitle: string := "Untitled Chat"

  /** The two store operations, with the arguments they are called with. */
  datatype StoreCall =
    | DeleteChatSession(userId: string, sessionId: string)
    | UpdateChatSessionTitle(userId: string, sessionId: string, title: string)

  /** The store as an oracle: true when the call resolves, false when it rejects. */
  type Store = StoreCall -> bool

  /** The parent's callbacks: `onNewChat`, and the optional `onDelete` the
      sidebar uses to ask for its session list to be refreshed. */
  datatype Callback = OnNewChat | OnDelete

  /** The title shown for a session: its own title when that is not empty,
      otherwise a placeholder that tells a session still waiting for its first
      messages from one that has some. It is never empty. */
  function DisplayedTitle(session: ChatSession): (t: string)
    ensures IsTruthy(session.title) ==> t == session.title.value
    ensures !IsTruthy(session.title) ==> (t == LoadingTitle <==> session.messageCount == 0)
    ensures !IsTruthy(session.title) ==> (t == UntitledTitle <==> session.messageCount > 0)
    ensures t != ""
  {
    if IsTruthy(session.title) then session.title.value
    else if session.messageCount == 0 then LoadingTitle
    else UntitledTitle
  }

  /** The title the rename editor opens with: the session's own title when
      that is not empty, otherwise "New Chat". It is never empty. */
  function EditorTitle(session: ChatSession): (t: string)
    ensures IsTruthy(session.title) ==> t == session.title.value
    ensures !IsTruthy(session.title) ==> t == NewChatTitle
    ensures t != ""
  {
    if IsTruthy(session.title) then session.title.value else NewChatTitle
  }

  /** The editor opens on the title the row shows, except for a session
      without a title, whose placeholder the editor does not take over. */
  lemma EditorStartsFromDisplayedTitle(session: ChatSession)
    ensures IsTruthy(session.title) <==> EditorTitle(session) == DisplayedTitle(session)
  {
  }

  /** Opening the editor on a session without a title and saving it
      untouched names the session "New Chat", even as written. */
  lemma UntouchedRenameOfUntitled(session: ChatSession)
    requires !IsTruthy(session.title)
    ensures TitleSentAsWritten(EditorTitle(session)) == NewChatTitle
  {
    assert !IsStrWhiteSpaceChar(NewChatTitle[0]) && !IsStrWhiteSpaceChar(NewChatTitle[|NewChatTitle| - 1]);
    TrimOfTrimmed(NewChatTitle);
  }

  /** The title `saveTitle` sends, as written: the edit trimmed, which is
      empty when the edit is white space only. */
  function TitleSentAsWritten(editingTitle: string): (t: string)
    ensures t == "" <==> IsBlank(editingTitle)
    ensures IsTrimmed(t)
  {
    Trim(editingTitle)
  }

  /** The title `saveTitle` is evidently meant to send: the edit trimmed, or
      "New Chat" for a white-space-only edit, as the editor is set to. It is
      never blank, and it differs from the trimmed edit only on blank edits. */
  function IntendedTitle(editingTitle: string): (t: string)
    ensures !IsBlank(t)
    ensures IsTrimmed(t)
    ensures !IsBlank(editingTitle) ==> t == TitleSentAsWritten(editingTitle)
    ensures IsBlank(editingTitle) ==> t == NewChatTitle
  {
    if Trim(editingTitle) == "" then
      assert !IsStrWhiteSpaceChar(NewChatTitle[0]);
      NewChatTitle
    else Trim(editingTitle)
  }

  /** The discrepancy: on a white-space-only edit such as "   " the code
      sends an empty title, while the editor itself falls back to "New Chat". */
  lemma BlankEditSendsEmptyTitle(editingTitle: string)
    requires IsBlank(editingTitle)
    ensures TitleSentAsWritten(editingTitle) == ""
    ensures IntendedTitle(editingTitle) == NewChatTitle
    ensures TitleSentAsWritten(editingTitle) != IntendedTitle(editingTitle)
  {
  }

  /** What the rename editor holds once `saveTitle` has started: a blank
      edit is replaced by "New Chat", any other edit is kept as typed, so the
      editor is never left blank. */
  function EditorAfterSave(editingTitle: string): (t: string)
    ensures !IsBlank(t)
    ensures IsBlank(editingTitle) ==> t == NewChatTitle
    ensures !IsBlank(editingTitle) ==> t == editingTitle
  {
    if IsBlank(editingTitle) then
      assert !IsStrWhiteSpaceChar(NewChatTitle[0]);
      NewChatTitle
    else editingTitle
  }

  class ChatSidebar {
    /** The session whose delete confirmation is open, if any. */
    var showDeleteConfirm: Option<string>
    /** The session whose delete call is in flight, if any. */
    var deletingSessionId: Option<string>
    /** The session being renamed, if any, and the text in its editor. */
    var editingSessionId: Option<string>
    var editingTitle: string
    /** `refreshedRef`: the mount refresh has been asked for. */
    var refreshed: bool
    /** How many times the mount effect has called `onDelete`. */
    ghost var effectRefreshes: nat

    ghost predicate Valid()
      reads this
    {
      effectRefreshes == if refreshed then 1 else 0
    }

    constructor ()
      ensures Valid()
      ensures showDeleteConfirm.None? && deletingSessionId.None?
      ensures editingSessionId.None? && editingTitle == "" && !refreshed
    {
      showDeleteConfirm, deletingSessionId := None, None;
      editingSessionId, editingTitle := None, "";
      refreshed := false;
      effectRefreshes := 0;
    }

    /**
     * The effect that runs whenever `onDelete` or `isLoading` changes: it
     * calls `onDelete` when there is one, the list is not loading and it has
     * not done so before, so at most once for the sidebar's lifetime.
     */
    method RefreshEffect(hasOnDelete: bool, isLoading: bool) returns (callsOnDelete: bool)
      requires Valid()
      modifies this
      ensures Valid()
      ensures callsOnDelete <==> hasOnDelete && !isLoading && !old(refreshed)
      ensures callsOnDelete ==> !isLoading
      ensures refreshed <==> old(refreshed) || callsOnDelete
      ensures effectRefreshes == old(effectRefreshes) + (if callsOnDelete then 1 else 0) <= 1
      ensures showDeleteConfirm == old(showDeleteConfirm) && deletingSessionId == old(deletingSessionId)
      ensures editingSessionId == old(editingSessionId) && editingTitle == old(editingTitle)
    {
      callsOnDelete := hasOnDelete && !isLoading && !refreshed;
      if callsOnDelete {
        refreshed := true;
        effectRefreshes := effectRefreshes + 1;
      }
    }

    /** The row's delete button opens the confirmation for that session. */
    method AskDelete(sessionId: string)
      requires Valid()
      modifies this
      ensures Valid()
      ensures showDeleteConfirm == Some(sessionId)
      ensures deletingSessionId == old(deletingSessionId) && refreshed == old(refreshed)
      ensures editingSessionId == old(editingSessionId) && editingTitle == old(editingTitle)
      ensures effectRefreshes == old(effectRefreshes)
    {
      showDeleteConfirm := Some(sessionId);
    }

    /** The confirmation's Cancel button. */
    method DismissDelete()
      requires Valid()
      modifies this
      ensures Valid()
      ensures showDeleteConfirm.None?
      ensures deletingSessionId == old(deletingSessionId) && refreshed == old(refreshed)
      ensures editingSessionId == old(editingSessionId) && editingTitle == old(editingTitle)
      ensures effectRefreshes == old(effectRefreshes)
    {
      showDeleteConfirm := None;
    }

    /** `handleDeleteSession` up to the store call: the session is marked as
        being deleted and the call is issued. */
    method BeginDelete(userId: string, sessionId: string) returns (call: StoreCall)
      requires Valid()
      modifies this
      ensures Valid()
      ensures call == DeleteChatSession(userId, sessionId)
      ensures deletingSessionId == Some(sessionId)
      ensures showDeleteConfirm == old(showDeleteConfirm) && refreshed == old(refreshed)
      ensures editingSessionId == old(editingSessionId) && editingTitle == old(editingTitle)
      ensures effectRefreshes == old(effectRefreshes)
    {
      deletingSessionId := Some(sessionId);
      call := DeleteChatSession(userId, sessionId);
    }

    /**
     * The rest of `handleDeleteSession`: after a successful delete, a new
     * chat is started first when the deleted session is the current one,
     * then the list refresh is asked for when the parent gave `onDelete`; a
     * failed delete calls neither. Both markers are cleared in every outcome.
     */
    method FinishDelete(sessionId: string, currentSessionId: string, hasOnDelete: bool, succeeded: bool)
        returns (callbacks: seq<Callback>)
      requires Valid()
      modifies this
      ensures Valid()
      ensures OnNewChat in callbacks <==> succeeded && sessionId == currentSessionId
      ensures OnDelete in callbacks <==> succeeded && hasOnDelete
      ensures callbacks == (if succeeded && sessionId == currentSessionId then [OnNewChat] else [])
                         + (if succeeded && hasOnDelete then [OnDelete] else [])
      ensures showDeleteConfirm.None? && deletingSessionId.None?
      ensures editingSessionId == old(editingSessionId) && editingTitle == old(editingTitle)
      ensures refreshed == old(refreshed) && effectRefreshes == old(effectRefreshes)
    {
      callbacks := [];
      if succeeded {
        if sessionId == currentSessionId {
          callbacks := callbacks + [OnNewChat];
        }
        if hasOnDelete {
          callbacks := callbacks + [OnDelete];
        }
      }
      showDeleteConfirm := None;
      deletingSessionId := None;
    }

    /** `handleDeleteSession` around one store call. */
    method HandleDeleteSession(userId: string, sessionId: string, currentSessionId: string,
                               hasOnDelete: bool, store: Store)
        returns (call: StoreCall, callbacks: seq<Callback>)
      requires Valid()
      modifies this
      ensures Valid()
      ensures call == DeleteChatSession(userId, sessionId)
      ensures OnNewChat in callbacks <==> store(call) && sessionId == currentSessionId
      ensures OnDelete in callbacks <==> store(call) && hasOnDelete
      ensures |callbacks| <= 2 && (|callbacks| == 2 ==> callbacks == [OnNewChat, OnDelete])
      ensures showDeleteConfirm.None? && deletingSessionId.None?
      ensures editingSessionId == old(editingSessionId) && editingTitle == old(editingTitle)
      ensures refreshed == old(refreshed) && effectRefreshes == old(effectRefreshes)
    {
      call := BeginDelete(userId, sessionId);
      var succeeded := store(call);
      callbacks := FinishDelete(sessionId, currentSessionId, hasOnDelete, succeeded);
    }

    /** `startEditing`: the editor opens on the session with its title, or
        "New Chat" when it has none. */
    method StartEditing(session: ChatSession)
      requires Valid()
      modifies this
      ensures Valid()
      ensures editingSessionId == Some(session.id) && editingTitle == EditorTitle(session)
      ensures showDeleteConfirm == old(showDeleteConfirm) && deletingSessionId == old(deletingSessionId)
      ensures refreshed == old(refreshed) && effectRefreshes == old(effectRefreshes)
    {
      editingSessionId := Some(session.id);
      editingTitle := EditorTitle(session);
    }

    /** Typing in the editor. */
    method EditTitle(text: string)
      requires Valid()
      modifies this
      ensures Valid()
      ensures editingTitle == text
      ensures editingSessionId == old(editingSessionId)
      ensures showDeleteConfirm == old(showDeleteConfirm) && deletingSessionId == old(deletingSessionId)
      ensures refreshed == old(refreshed) && effectRefreshes == old(effectRefreshes)
    {
      editingTitle := text;
    }

    /** `cancelEditing` (the cancel button, or Escape in the editor). */
    method CancelEditing()
      requires Valid()
      modifies this
      ensures Valid()
      ensures editingSessionId.None? && editingTitle == ""
      ensures showDeleteConfirm == old(showDeleteConfirm) && deletingSessionId == old(deletingSessionId)
      ensures refreshed == old(refreshed) && effectRefreshes == old(effectRefreshes)
    {
      editingSessionId := None;
      editingTitle := "";
    }

    /**
     * `saveTitle` up to the store call (the save button, or Enter in the
     * editor), as written: a blank edit is reset to "New Chat", but the
     * update carries the trimmed edit the handler captured, which is empty
     * for a blank edit.
     */
    method BeginSaveTitle(userId: string, sessionId: string) returns (call: StoreCall)
      requires Valid()
      modifies this
      ensures Valid()
      ensures call == UpdateChatSessionTitle(userId, sessionId, TitleSentAsWritten(old(editingTitle)))
      ensures editingTitle == EditorAfterSave(old(editingTitle))
      ensures editingSessionId == old(editingSessionId)
      ensures showDeleteConfirm == old(showDeleteConfirm) && deletingSessionId == old(deletingSessionId)
      ensures refreshed == old(refreshed) && effectRefreshes == old(effectRefreshes)
    {
      var edit := editingTitle;
      if IsBlank(edit) {
        editingTitle := NewChatTitle;
      }
      call := UpdateChatSessionTitle(userId, sessionId, TitleSentAsWritten(edit));
    }

    /** `saveTitle` up to the store call as it is evidently meant to be: the
        same, except that the update carries the intended title, so a blank
        edit is saved as "New Chat", the text the editor is reset to. */
    method BeginSaveIntendedTitle(userId: string, sessionId: string) returns (call: StoreCall)
      requires Valid()
      modifies this
      ensures Valid()
      ensures call == UpdateChatSessionTitle(userId, sessionId, IntendedTitle(old(editingTitle)))
      ensures !IsBlank(call.title)
      ensures editingTitle == EditorAfterSave(old(editingTitle))
      ensures editingSessionId == old(editingSessionId)
      ensures showDeleteConfirm == old(showDeleteConfirm) && deletingSessionId == old(deletingSessionId)
      ensures refreshed == old(refreshed) && effectRefreshes == old(effectRefreshes)
    {
      var edit := editingTitle;
      if IsBlank(edit) {
        editingTitle := NewChatTitle;
      }
      call := UpdateChatSessionTitle(userId, sessionId, IntendedTitle(edit));
    }

    /** The rest of `saveTitle`: the refresh is asked for only after a
        successful update, and the editor closes in every outcome. */
    method FinishSaveTitle(hasOnDelete: bool, succeeded: bool) returns (callbacks: seq<Callback>)
      requires Valid()
      modifies this
      ensures Valid()
      ensures callbacks == if succeeded && hasOnDelete then [OnDelete] else []
      ensures editingSessionId.None? && editingTitle == old(editingTitle)
      ensures showDeleteConfirm == old(showDeleteConfirm) && deletingSessionId == old(deletingSessionId)
      ensures refreshed == old(refreshed) && effectRefreshes == old(effectRefreshes)
    {
      callbacks := if succeeded && hasOnDelete then [OnDelete] else [];
      editingSessionId := None;
    }

    /** `saveTitle` around one store call, as written: the update carries the
        trimmed edit, "" for a blank one; the editor closes whatever the
        outcome, and only a successful update asks for a refresh (never for
        a new chat). */
    method SaveTitle(userId: string, sessionId: string, hasOnDelete: bool, store: Store)
        returns (call: StoreCall, callbacks: seq<Callback>)
      requires Valid()
      modifies this
      ensures Valid()
      ensures call == UpdateChatSessionTitle(userId, sessionId, TitleSentAsWritten(old(editingTitle)))
      ensures call.title == "" <==> IsBlank(old(editingTitle))
      ensures callbacks == if store(call) && hasOnDelete then [OnDelete] else []
      ensures editingSessionId.None? && editingTitle == EditorAfterSave(old(editingTitle))
      ensures showDeleteConfirm == old(showDeleteConfirm) && deletingSessionId == old(deletingSessionId)
      ensures refreshed == old(refreshed) && effectRefreshes == old(effectRefreshes)
    {
      call := BeginSaveTitle(userId, sessionId);
      var succeeded := store(call);
      callbacks := FinishSaveTitle(hasOnDelete, succeeded);
    }

    /** `saveTitle` around one store call as it is evidently meant to be: the
        update never carries a blank title, and it carries the trimmed edit
        whenever that is not blank; the rest is as written. */
    method SaveIntendedTitle(userId: string, sessionId: string, hasOnDelete: bool, store: Store)
        returns (call: StoreCall, callbacks: seq<Callback>)
      requires Valid()
      modifies this
      ensures Valid()
      ensures call == UpdateChatSessionTitle(userId, sessionId, IntendedTitle(old(editingTitle)))
      ensures !IsBlank(call.title)
      ensures !IsBlank(old(editingTitle)) ==> call.title == TitleSentAsWritten(old(editingTitle))
      ensures callbacks == if store(call) && hasOnDelete then [OnDelete] else []
      ensures editingSessionId.None? && editingTitle == EditorAfterSave(old(editingTitle))
      ensures showDeleteConfirm == old(showDeleteConfirm) && deletingSessionId == old(deletingSessionId)
      ensures refreshed == old(refreshed) && effectRefreshes == old(effectRefreshes)
    {
      call := BeginSaveIntendedTitle(userId, sessionId);
      var succeeded := store(call);
      callbacks := FinishSaveTitle(hasOnDelete, succeeded);
    }
  }
}

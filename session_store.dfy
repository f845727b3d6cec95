/**
 * The saved sessions as the message handler sees them (`SessionLoader` and `PersistenceError`
 * in native/src/session_loader.rs): a directory of session files, each named after a session
 * and holding a serialised session. The files themselves are not modelled: the directory is a
 * map from file name to content, and a save that fails is given as an input.
 */
module SessionStore {
  import opened Wrappers
  import opened Serialization

  datatype PersistenceError =
    | Io(detail: string)
    | JsonSerialization(detail: string)
    | SessionNotFound(sessionName: string)
  {
    /** The error's `Display` text. */
    function Message(): (s: string)
      ensures Io? ==> s == "IO error: " + detail
      ensures JsonSerialization? ==> s == "JSON serialization error: " + detail
      ensures SessionNotFound? ==> s == "Session not found: " + sessionName
    {
      match this
      case Io(d) => "IO error: " + d
      case JsonSerialization(d) => "JSON serialization error: " + d
      case SessionNotFound(n) => "Session not found: " + n
    }
  }

  /** The session directory: the session file named after each key, with what it holds. */
  type Store = map<string, SerializedSession>

  /** The text of the error for a file that holds another session than its name says. */
  function MismatchMessage(expected: string, found: string): string {
    "Session name mismatch: expected '" + expected + "', found '" + found
      + "'. If loading from a backup, rename the file to match the session name."
  }

  /**
   * `load_session`: a missing file is `SessionNotFound`; a file holding a session under another
   * name is refused; otherwise the stored session.
   */
  function LoadSession(store: Store, sessionName: string): (r: Result<SerializedSession, PersistenceError>)
    ensures sessionName !in store ==> r == Err(SessionNotFound(sessionName))
    ensures sessionName in store && store[sessionName].sessionName != sessionName ==>
      r == Err(JsonSerialization(MismatchMessage(sessionName, store[sessionName].sessionName)))
    ensures r.Ok? <==> sessionName in store && store[sessionName].sessionName == sessionName
    ensures r.Ok? ==> r.value == store[sessionName] && r.value.sessionName == sessionName
  {
    if sessionName !in store then Err(SessionNotFound(sessionName))
    else if store[sessionName].sessionName != sessionName then
      Err(JsonSerialization(MismatchMessage(sessionName, store[sessionName].sessionName)))
    else Ok(store[sessionName])
  }

  /**
   * `save_session`: the session is written to the file named after it, replacing any earlier
   * content, unless the write fails (`failure`), in which case the directory is unchanged.
   */
  function SaveSession(store: Store, session: SerializedSession, failure: Option<PersistenceError>): (r: Result<Store, PersistenceError>)
    ensures failure.Some? ==> r == Err(failure.value)
    ensures failure.None? ==> r.Ok? && r.value.Keys == store.Keys + {session.sessionName}
    ensures failure.None? ==> r.value[session.sessionName] == session
    ensures failure.None? ==> forall n :: n in store && n != session.sessionName ==> r.value[n] == store[n]
  {
    if failure.Some? then Err(failure.value) else Ok(store[session.sessionName := session])
  }

  /** A session that was saved loads back as it was saved. */
  lemma SaveThenLoad(store: Store, session: SerializedSession)
    ensures LoadSession(SaveSession(store, session, None).value, session.sessionName) == Ok(session)
  {
    assert SaveSession(store, session, None).value[session.sessionName] == session;
  }
}

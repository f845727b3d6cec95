/**
 * The native-messaging host (`NativeMessagingHost` in native/src/message_handler.rs): the
 * length-prefixed frames it reads, the session name check, and the session state machine that
 * starts, stops and feeds the tracker. JSON decoding and encoding, the I/O loop and the
 * interrupt handler are not modelled; each request arrives already decoded.
 */
module MessageHandler {
  import opened Wrappers
  import opened Primitives
  import opened UrlParsing
  import opened UrlNodes
  import opened UrlTree
  import opened Serialization
  import opened TrackerEvents
  import opened Tracking
  import opened SessionStore

  datatype NativeMessagingError =
    | Io(detail: string)
    | Json(detail: string)
    | InvalidLength(length: u32)
    | MessageTooLarge(length: u32)
    | InvalidSessionName(reason: string)
  {
    /** The error's `Display` text. */
    function Message(): (s: string)
      ensures Io? ==> s == "IO error: " + detail
      ensures Json? ==> s == "JSON serialization error: " + detail
      ensures InvalidSessionName? ==> s == "Invalid session name: " + reason
      ensures InvalidLength? ==> |s| > 24 && s[..24] == "Invalid message length: "
      ensures MessageTooLarge? ==> |s| > 25 && s[..19] == "Message too large: " && s[|s| - 6..] == " bytes"
    {
      match this
      case Io(d) => "IO error: " + d
      case Json(d) => "JSON serialization error: " + d
      case InvalidLength(n) => "Invalid message length: " + DecimalString(n)
      case MessageTooLarge(n) => "Message too large: " + DecimalString(n) + " bytes"
      case InvalidSessionName(r) => "Invalid session name: " + r
    }
  }

  /** What `read_exact` reports when the input ends early. */
  const UnexpectedEof: string := "failed to fill whole buffer"

  /** The longest message body accepted, in bytes. */
  const MaxMessageSize: u32 := 1024 * 1024

  const TrackerNotStarted: string := "Tracker not started"

  /** `u32::from_le_bytes`. */
  function LeU32(b: seq<u8>): (n: u32)
    requires |b| == 4
    ensures n % 0x100 == b[0]
  {
    ByteSteps(b[0], b[1] as int + 0x100 * (b[2] as int + 0x100 * b[3] as int));
    b[0] as int + 0x100 * (b[1] as int + 0x100 * (b[2] as int + 0x100 * b[3] as int))
  }

  /** `u32::to_le_bytes`: the lowest byte first. */
  function U32Le(n: u32): (b: seq<u8>)
    ensures |b| == 4
  {
    var n1 := n / 0x100;
    var n2 := n1 / 0x100;
    [n % 0x100, n1 % 0x100, n2 % 0x100, n2 / 0x100]
  }

  /** Splitting off the low byte of a number. */
  lemma ByteSteps(low: int, high: int)
    requires 0 <= low < 0x100 && 0 <= high
    ensures (low + 0x100 * high) % 0x100 == low
    ensures (low + 0x100 * high) / 0x100 == high
  {
  }

  /** Encoding a length and decoding it again gives it back, and so does the opposite order. */
  lemma LeU32RoundTrip(n: u32, b: seq<u8>)
    requires |b| == 4
    ensures LeU32(U32Le(n)) == n
    ensures U32Le(LeU32(b)) == b
  {
    var n1 := n / 0x100;
    var n2 := n1 / 0x100;
    assert n == n % 0x100 + 0x100 * (n1 % 0x100 + 0x100 * (n2 % 0x100 + 0x100 * (n2 / 0x100)));
    var h2 := b[2] as int + 0x100 * b[3] as int;
    var h1 := b[1] as int + 0x100 * h2;
    ByteSteps(b[0], h1);
    ByteSteps(b[1], h2);
    ByteSteps(b[2], b[3] as int);
  }

  /** The names of files the session directory cannot take: path separators, wildcards, quotes, pipes, NUL. */
  const InvalidNameChars: set<char> := {'/', '\\', ':', '*', '?', '"', '<', '>', '|', '\0'}

  /** The longest session name accepted, in bytes of UTF-8. */
  const MaxSessionNameBytes: nat := 100

  /**
   * `verify_session_name`: the checks run in order (empty, longer than 100 bytes, a forbidden
   * character); a name passes exactly when it is not empty, fits in 100 bytes and holds none of
   * the forbidden characters.
   */
  function VerifySessionName(sessionName: string): (r: Result<(), NativeMessagingError>)
    ensures r.Ok? <==>
      && 0 < Utf8Len(sessionName) <= MaxSessionNameBytes
      && forall i :: 0 <= i < |sessionName| ==> sessionName[i] !in InvalidNameChars
    ensures sessionName == [] ==> r == Err(InvalidSessionName("Session name cannot be empty"))
    ensures sessionName != [] && Utf8Len(sessionName) > MaxSessionNameBytes ==>
      r == Err(InvalidSessionName("Session name is too long. Allowed length: 100 characters"))
    ensures (sessionName != [] && Utf8Len(sessionName) <= MaxSessionNameBytes
             && exists i :: 0 <= i < |sessionName| && sessionName[i] in InvalidNameChars) ==>
      r == Err(InvalidSessionName("Session name contains invalid characters"))
    ensures r.Err? ==> r.error.InvalidSessionName?
  {
    if sessionName == [] then
      Err(InvalidSessionName("Session name cannot be empty"))
    else if Utf8Len(sessionName) > MaxSessionNameBytes then
      Err(InvalidSessionName("Session name is too long. Allowed length: 100 characters"))
    else if exists i :: 0 <= i < |sessionName| && sessionName[i] in InvalidNameChars then
      Err(InvalidSessionName("Session name contains invalid characters"))
    else
      Ok(())
  }

  /**
   * The frame as the read side takes it apart: a four-byte little-endian length, checked (too
   * large first, then zero), then that many bytes of body. Returns the body or the error, and the
   * input left over; on a short read the input is used up.
   */
  function ReadFrame(input: seq<u8>): (r: (Result<seq<u8>, NativeMessagingError>, seq<u8>))
    ensures |input| < 4 ==> r == (Err(NativeMessagingError.Io(UnexpectedEof)), [])
    ensures |input| >= 4 && LeU32(input[..4]) > MaxMessageSize ==>
      r.0 == Err(MessageTooLarge(LeU32(input[..4])))
    ensures |input| >= 4 && LeU32(input[..4]) == 0 ==> r.0 == Err(InvalidLength(0))
    ensures (|input| >= 4 && 0 < LeU32(input[..4]) <= MaxMessageSize && |input| - 4 < LeU32(input[..4])) ==>
      r == (Err(NativeMessagingError.Io(UnexpectedEof)), [])
    ensures r.0.Ok? ==> 0 < |r.0.value| <= MaxMessageSize && input == U32Le(|r.0.value|) + r.0.value + r.1
    ensures |r.1| <= |input|
  {
    if |input| < 4 then (Err(NativeMessagingError.Io(UnexpectedEof)), [])
    else
      var length := LeU32(input[..4]);
      if length > MaxMessageSize then (Err(MessageTooLarge(length)), input[4..])
      else if length == 0 then (Err(InvalidLength(length)), input[4..])
      else if |input| - 4 < length then (Err(NativeMessagingError.Io(UnexpectedEof)), [])
      else
        LeU32RoundTrip(length, input[..4]);
        assert input == input[..4] + input[4..4 + length] + input[4 + length..];
        (Ok(input[4..4 + length]), input[4 + length..])
  }

  /**
   * The frame `send_message` writes for a body: its length, cut to 32 bits by the `as u32`
   * cast, in little-endian order, then the body.
   */
  function EncodeFrame(body: seq<u8>): (f: seq<u8>)
    ensures |f| == 4 + |body| && f[4..] == body
  {
    U32Le(|body| % 0x1_0000_0000) + body
  }

  /** A frame whose body the guard accepts reads back as that body, leaving what followed it. */
  lemma FrameRoundTrip(body: seq<u8>, rest: seq<u8>)
    requires 0 < |body| <= MaxMessageSize
    ensures ReadFrame(EncodeFrame(body) + rest) == (Ok(body), rest)
  {
    var input := EncodeFrame(body) + rest;
    assert input[..4] == U32Le(|body|);
    LeU32RoundTrip(|body|, input[..4]);
    assert input[4..4 + |body|] == body;
    assert input[4 + |body|..] == rest;
  }

  /** A frame announcing more than the limit is refused whatever follows it. */
  lemma FrameTooLarge(body: seq<u8>, rest: seq<u8>)
    requires MaxMessageSize < |body| < 0x1_0000_0000
    ensures ReadFrame(EncodeFrame(body) + rest).0 == Err(MessageTooLarge(|body|))
  {
    var input := EncodeFrame(body) + rest;
    assert input[..4] == U32Le(|body|);
    LeU32RoundTrip(|body|, input[..4]);
  }

  /** What a response may carry: for `GetActive`, the running session's name. */
  datatype ResponseData = ActiveSession(sessionName: string)

  /** A response to the extension. */
  datatype OutgoingMessage = OutgoingMessage(success: bool, data: Option<ResponseData>, error: Option<string>)
  {
    /** A success carries no error text; a failure carries one and no data. */
    predicate WellFormed() {
      (success <==> error.None?) && (!success ==> data.None?)
    }
  }

  datatype OutgoingMessageWithId = OutgoingMessageWithId(success: bool, data: Option<ResponseData>, error: Option<string>, id: u32)

  /** `OutgoingMessage::success`. */
  function Success(data: Option<ResponseData>): (m: OutgoingMessage)
    ensures m.WellFormed() && m.success && m.data == data
  {
    OutgoingMessage(true, data, None)
  }

  /** `OutgoingMessage::error`. */
  function Failure(error: string): (m: OutgoingMessage)
    ensures m.WellFormed() && !m.success && m.error == Some(error)
  {
    OutgoingMessage(false, None, Some(error))
  }

  /** `with_id`: the response tagged with the request's id, every field carried over. */
  function WithId(m: OutgoingMessage, id: u32): (r: OutgoingMessageWithId)
    ensures r.id == id
    ensures OutgoingMessage(r.success, r.data, r.error) == m
  {
    OutgoingMessageWithId(m.success, m.data, m.error, id)
  }

  /** The three tab events a request can carry. */
  datatype TabOperation = Focus | Unfocus | Close

  /** What a tab event does to a trie: the URL's keys first, then the event. */
  function TabEventOutcome(op: TabOperation, root: map<string, UrlNode>, url: UrlText, tabId: u32, now: nat)
    : (r: Result<map<string, UrlNode>, TrackerError>)
    ensures ParseUrlParts(url).Err? ==> r == Err(ParseUrlParts(url).error)
    ensures op == Focus && ParseUrlParts(url).Ok? ==> r.Ok?
    ensures r.Err? && ParseUrlParts(url).Ok? ==> r.error == TabNotFound(tabId)
  {
    match ParseUrlParts(url)
    case Err(e) => Err(e)
    case Ok(parts) =>
      match op
      case Focus => Ok(Focused(root, parts, tabId, now))
      case Unfocus => Unfocused(root, parts, tabId, now)
      case Close => Closed(root, parts, tabId, now)
  }

  /**
   * What starting a session yields when none is running: the name is checked before the
   * directory is looked at; a saved session of that name is restored with its instances;
   * otherwise the trie starts empty. An error is the failing step's message.
   */
  function StartSession(sessions: Store, sessionName: string): (r: Result<map<string, UrlNode>, string>)
    ensures VerifySessionName(sessionName).Err? ==> r == Err(VerifySessionName(sessionName).error.Message())
    ensures r.Ok? <==>
      && VerifySessionName(sessionName).Ok?
      && (sessionName in sessions ==> sessions[sessionName].sessionName == sessionName)
    ensures r.Ok? && sessionName !in sessions ==> r.value == map[]
    ensures r.Ok? && sessionName in sessions ==> r.value == RestoreMap(sessions[sessionName].data, false)
    ensures VerifySessionName(sessionName).Ok? && sessionName in sessions && sessions[sessionName].sessionName != sessionName ==>
      r == Err(PersistenceError.JsonSerialization(MismatchMessage(sessionName, sessions[sessionName].sessionName)).Message())
  {
    match VerifySessionName(sessionName)
    case Err(e) => Err(e.Message())
    case Ok(_) =>
      if sessionName !in sessions then Ok(map[])
      else match LoadSession(sessions, sessionName)
        case Err(e) => Err(e.Message())
        case Ok(saved) => Ok(RestoreMap(saved.data, false))
  }

  /**
   * Stopping a session and starting it again gives back its trie as it was drained at the
   * stop, with every node's time and without any tab instance.
   */
  lemma StopThenStart(sessions: Store, sessionName: string, root: map<string, UrlNode>, now: nat)
    requires VerifySessionName(sessionName).Ok?
    ensures
      var saved := SaveSession(sessions, SerializedSession(sessionName, SerializeMap(DrainMap(root, now), false)), None).value;
      StartSession(saved, sessionName) == Ok(ClearMap(DrainMap(root, now)))
  {
    var snapshot := SerializedSession(sessionName, SerializeMap(DrainMap(root, now), false));
    SaveThenLoad(sessions, snapshot);
    RestoreSerialized(DrainMap(root, now), false, false);
  }

  class NativeMessagingHost {
    /** The running session, if any. */
    var tracker: Option<Tracker>
    /** The saved sessions (the session loader's directory). */
    var sessions: Store
    /** What is still to be read from standard input. */
    var stdin: seq<u8>
    var readBuffer: seq<u8>

    /** `NativeMessagingHost::new`: no session running. */
    constructor (sessions: Store, stdin: seq<u8>)
      ensures tracker.None? && this.sessions == sessions && this.stdin == stdin && readBuffer == []
    {
      tracker := None;
      this.sessions := sessions;
      this.stdin := stdin;
      readBuffer := [];
    }

    /**
     * `read_message` up to the JSON decoding: the header, the length guard, and the body read
     * into `readBuffer`, which is returned.
     */
    method ReadMessage() returns (r: Result<seq<u8>, NativeMessagingError>)
      modifies this
      ensures (r, stdin) == ReadFrame(old(stdin))
      ensures r.Ok? ==> readBuffer == r.value
      ensures tracker == old(tracker) && sessions == old(sessions)
    {
      if |stdin| < 4 {
        stdin := [];
        return Err(NativeMessagingError.Io(UnexpectedEof));
      }
      var lengthBytes := stdin[..4];
      stdin := stdin[4..];
      var length := LeU32(lengthBytes);
      if length > MaxMessageSize {
        return Err(MessageTooLarge(length));
      }
      if length == 0 {
        return Err(InvalidLength(length));
      }
      readBuffer := seq(length, _ => 0);
      if |stdin| < length {
        stdin := [];
        return Err(NativeMessagingError.Io(UnexpectedEof));
      }
      readBuffer := stdin[..length];
      stdin := stdin[length..];
      assert old(stdin)[4..][..length] == old(stdin)[4..4 + length];
      r := Ok(readBuffer);
    }

    /**
     * `create_or_load_tracker`: a saved session of that name is loaded and restored with its
     * instances (never as a fresh session); otherwise a new, empty tracker under the name.
     */
    method CreateOrLoadTracker(sessionName: string) returns (r: Result<Tracker, PersistenceError>)
      ensures r.Err? <==> sessionName in sessions && LoadSession(sessions, sessionName).Err?
      ensures r.Err? ==> r.error == LoadSession(sessions, sessionName).error
      ensures r.Ok? ==>
        && fresh(r.value)
        && r.value.sessionName == sessionName
        && r.value.root == (if sessionName in sessions then RestoreMap(sessions[sessionName].data, false) else map[])
    {
      if sessionName in sessions {
        var loaded := LoadSession(sessions, sessionName);
        if loaded.Err? {
          return Err(loaded.error);
        }
        var saved := loaded.value;
        var t := new Tracker.FromSerialized(saved.sessionName, saved.data, false);
        r := Ok(t);
      } else {
        var t := new Tracker(sessionName);
        r := Ok(t);
      }
    }

    /**
     * `try_start_action`: refused while a session runs (nothing changes); otherwise the
     * session begins with the trie `StartSession` gives, or nothing changes and its error is
     * the response.
     */
    method TryStartAction(sessionName: string) returns (r: Result<(), string>)
      modifies this
      ensures old(tracker).Some? ==> r == Err("Tracker already started") && tracker == old(tracker)
      ensures old(tracker).None? ==> (r.Ok? <==> StartSession(sessions, sessionName).Ok?)
      ensures old(tracker).None? && r.Err? ==> r == Err(StartSession(sessions, sessionName).error) && tracker.None?
      ensures r.Ok? ==>
        && tracker.Some? && fresh(tracker.value)
        && tracker.value.sessionName == sessionName
        && tracker.value.root == StartSession(sessions, sessionName).value
      ensures sessions == old(sessions) && stdin == old(stdin)
    {
      if tracker.Some? {
        return Err("Tracker already started");
      }
      var verified := VerifySessionName(sessionName);
      if verified.Err? {
        return Err(verified.error.Message());
      }
      var created := CreateOrLoadTracker(sessionName);
      if created.Err? {
        return Err(created.error.Message());
      }
      tracker := Some(created.value);
      r := Ok(());
    }

    /** `handle_start_action`: the outcome of `TryStartAction` as a response. */
    method HandleStartAction(sessionName: string) returns (m: OutgoingMessage)
      modifies this
      ensures m.WellFormed() && m.data.None?
      ensures m.success <==> old(tracker).None? && tracker.Some?
      ensures old(tracker).Some? ==> m == Failure("Tracker already started") && tracker == old(tracker)
      ensures old(tracker).None? ==> (m.success <==> StartSession(old(sessions), sessionName).Ok?)
      ensures old(tracker).None? && !m.success ==> m.error == Some(StartSession(old(sessions), sessionName).error)
      ensures m.success ==>
        && fresh(tracker.value) && tracker.value.sessionName == sessionName
        && tracker.value.root == StartSession(old(sessions), sessionName).value
      ensures !m.success ==> tracker == old(tracker)
      ensures sessions == old(sessions) && stdin == old(stdin)
    {
      var r := TryStartAction(sessionName);
      if r.Ok? {
        m := Success(None);
      } else {
        m := Failure(r.error);
      }
    }

    /**
     * `handle_stop_action`: without a session, "Tracker not started". Otherwise the session is
     * drained and saved without its instances; only when the save succeeds does the session end.
     */
    method HandleStopAction(now: nat, saveFailure: Option<PersistenceError>) returns (m: OutgoingMessage)
      modifies this, if tracker.Some? then {tracker.value} else {}
      ensures m.WellFormed() && m.data.None?
      ensures old(tracker).None? ==> m == Failure(TrackerNotStarted) && tracker.None? && sessions == old(sessions)
      ensures old(tracker).Some? ==>
        var t := old(tracker).value;
        var snapshot := SerializedSession(t.sessionName, SerializeMap(DrainMap(old(t.root), now), false));
        && t.root == DrainMap(old(t.root), now)
        && (saveFailure.None? ==> m == Success(None) && tracker.None? && sessions == old(sessions)[t.sessionName := snapshot])
        && (saveFailure.Some? ==> m == Failure(saveFailure.value.Message()) && tracker == old(tracker) && sessions == old(sessions))
      ensures stdin == old(stdin)
    {
      if tracker.None? {
        return Failure(TrackerNotStarted);
      }
      var t := tracker.value;
      var snapshot := t.SerializeSession(false, now);
      var saved := SaveSession(sessions, snapshot, saveFailure);
      if saved.Err? {
        return Failure(saved.error.Message());
      }
      sessions := saved.value;
      tracker := None;
      m := Success(None);
    }

    /**
     * `handle_tab_operation`: without a session, "Tracker not started" and nothing changes;
     * otherwise the event goes to the tracker, and the response succeeds exactly when the event
     * did, carrying the tracker's error text when it did not.
     */
    method HandleTabOperation(op: TabOperation, url: UrlText, tabId: u32, now: nat) returns (m: OutgoingMessage)
      modifies if tracker.Some? then {tracker.value} else {}
      ensures m.WellFormed() && m.data.None?
      ensures old(tracker).None? ==> m == Failure(TrackerNotStarted)
      ensures old(tracker).Some? ==>
        var outcome := TabEventOutcome(op, old(tracker.value.root), url, tabId, now);
        && (outcome.Ok? ==> m == Success(None) && tracker.value.root == outcome.value)
        && (outcome.Err? ==> m == Failure(outcome.error.Message()) && tracker.value.root == old(tracker.value.root))
    {
      if tracker.None? {
        return Failure(TrackerNotStarted);
      }
      var t := tracker.value;
      var result;
      match op {
        case Focus => result := t.TrackTabFocused(url, tabId, now);
        case Unfocus => result := t.TrackTabUnfocused(url, tabId, now);
        case Close => result := t.TrackTabClosed(url, tabId, now);
      }
      if result.Ok? {
        m := Success(None);
      } else {
        m := Failure(result.error.Message());
      }
    }

    /** `handle_get_active_action`: always a success, naming the running session if there is one. */
    function HandleGetActiveAction(): (m: OutgoingMessage)
      reads this
      ensures m.WellFormed() && m.success
      ensures m.data.Some? <==> tracker.Some?
      ensures tracker.Some? ==> m.data.value.sessionName == tracker.value.sessionName
    {
      match tracker
      case Some(t) => Success(Some(ActiveSession(t.sessionName)))
      case None => Success(None)
    }
  }
}

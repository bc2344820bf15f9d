/**
 * The request entry of the memcache framer as a value, and what one push of
 * a chunk does to it. These functions are the specification the imperative
 * class in MemCache is proved against; the lemmas in FramerProperties state
 * what the framer promises in terms of them.
 */
module Framer {
  import opened Protocol

  /**
   * The request action recorded so far. `add` never appears: the dispatch
   * has no case for it, and addAction records `set`.
   */
  datatype Action = NoAction | Get | Set | Delete | Quit

  /** The fields of one request entry. */
  datatype Entry = Entry(
    action: Action,
    key: string,
    flags: nat,
    expTime: nat,
    bytes: nat,
    data: string,
    complete: bool)

  /** An entry as the caller creates it: nothing recorded yet. */
  const Fresh: Entry := Entry(NoAction, "", 0, 0, 0, "", false)

  /** How a push ends: normally, or with the exception's message. */
  datatype Outcome = Ok | Failure(message: string)

  /** The entry after a push and how the push ended. */
  datatype Step = Step(entry: Entry, outcome: Outcome)

  const EmptyRequestData: string := "Empty request data found"
  const BadCommandLineFormat: string := "CLIENT_ERROR bad command line format"
  const InvalidExpirationTime: string := "CLIENT_ERROR found invalid expiration time"
  const BadDataChunk: string := "CLIENT_ERROR bad data chunk"

  function UnknownRequestAction(action: string): string {
    "Found unknown request action " + action
  }

  /**
   * What pushData stores for a payload chunk: the chunk with trailing
   * whitespace cut off, except that a bare delimiter is stored as it is.
   */
  function StoredChunk(chunk: string): (stored: string)
    ensures chunk == NewLine ==> stored == chunk
    ensures chunk != NewLine ==> |stored| <= |chunk| && stored == chunk[..|stored|]
    ensures chunk != NewLine ==> forall k :: |stored| <= k < |chunk| ==> IsWhitespace(chunk[k])
    ensures chunk != NewLine ==> stored == [] || !IsWhitespace(stored[|stored| - 1])
  {
    if chunk != NewLine then RTrim(chunk) else chunk
  }

  /**
   * pushData. A bare delimiter arriving when the data already has the
   * declared length only completes the entry. Any other chunk replaces the
   * data (setData is taken to overwrite); the entry completes exactly when
   * the stored length equals the declared byte count and the push fails
   * exactly when the stored length exceeds it.
   */
  function PushData(e: Entry, chunk: string): (s: Step)
    ensures s.entry.data == if chunk == NewLine && |e.data| == e.bytes then e.data else StoredChunk(chunk)
    ensures s.entry.complete <==> e.complete || |s.entry.data| == e.bytes
    ensures s.outcome.Failure? <==> |s.entry.data| > e.bytes
    ensures s.outcome.Failure? ==> s.outcome.message == BadDataChunk
    ensures s.entry.(data := e.data, complete := e.complete) == e
  {
    if chunk == NewLine && |e.data| == e.bytes then
      Step(e.(complete := true), Ok)
    else
      var stored := StoredChunk(chunk);
      var e' := e.(data := stored);
      if |stored| == e.bytes then Step(e'.(complete := true), Ok)
      else if |stored| > e.bytes then Step(e', Failure(BadDataChunk))
      else Step(e', Ok)
  }

  /**
   * setAction: records `set` and the key first, then checks flags, exptime
   * and bytes in that order, recording each valid one, and stops at the
   * first that is not numeric. A truthy remainder goes to pushData.
   */
  function SetAction(e: Entry, request: Request): Step {
    var tokens := request.tokens;
    var withKey := e.(action := Set, key := Token(tokens, 1));
    if !IsNumeric(Token(tokens, 2)) then Step(withKey, Failure(BadCommandLineFormat))
    else
      var withFlags := withKey.(flags := DecimalValue(tokens[2]));
      if !IsNumeric(Token(tokens, 3)) then Step(withFlags, Failure(InvalidExpirationTime))
      else
        var withExpTime := withFlags.(expTime := DecimalValue(tokens[3]));
        if !IsNumeric(Token(tokens, 4)) then Step(withExpTime, Failure(BadDataChunk))
        else
          var withBytes := withExpTime.(bytes := DecimalValue(tokens[4]));
          if IsFalsy(request.data) then Step(withBytes, Ok)
          else PushData(withBytes, request.data)
  }

  /** getAction: records the key and `get`, and completes the entry. */
  function GetAction(e: Entry, tokens: seq<string>): Entry {
    e.(key := Token(tokens, 1), action := Get, complete := true)
  }

  /** deleteAction: records the key and `delete`, and completes the entry. */
  function DeleteAction(e: Entry, tokens: seq<string>): Entry {
    e.(key := Token(tokens, 1), action := Delete, complete := true)
  }

  /** quitAction: records `quit` and completes the entry. */
  function QuitAction(e: Entry): Entry {
    e.(action := Quit, complete := true)
  }

  /**
   * push: once an action is recorded every chunk is payload; before that the
   * chunk is parsed as a header and dispatched on its first token.
   */
  function Push(e: Entry, chunk: string): Step {
    if e.action != NoAction then PushData(e, chunk)
    else
      match ParseRequest(chunk)
      case None => Step(e, Failure(EmptyRequestData))
      case Some(request) => Dispatch(e, request)
  }

  /** The switch of push on the first token of a parsed header. */
  function Dispatch(e: Entry, request: Request): Step
    requires |request.tokens| >= 1
  {
    var name := request.tokens[0];
    if name == "set" then SetAction(e, request)
    else if name == "get" then Step(GetAction(e, request.tokens), Ok)
    else if name == "delete" then Step(DeleteAction(e, request.tokens), Ok)
    else if name == "quit" then Step(QuitAction(e), Ok)
    else Step(e, Failure(UnknownRequestAction(name)))
  }
}

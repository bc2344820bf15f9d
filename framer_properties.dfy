/**
 * What the framer promises, stated over requests as a client writes them
 * (FormatRequest) and proved from the Framer functions.
 */
module FramerProperties {
  import opened Protocol
  import opened Framer

  /** The header of a storage command: name, key and the three numeric fields. */
  function StorageHeader(name: string, key: string, flags: nat, expTime: nat, bytes: nat): seq<string> {
    [name, key, Decimal(flags), Decimal(expTime), Decimal(bytes)]
  }

  lemma StorageHeaderWellFormed(name: string, key: string, flags: nat, expTime: nat, bytes: nat)
    requires name != "" && NoWhitespace(name)
    requires key != "" && NoWhitespace(key)
    ensures WellFormedHeader(StorageHeader(name, key, flags, expTime, bytes))
  {
  }

  /** A header as a client writes it is dispatched on exactly the tokens and data it was written from. */
  lemma PushFormatted(e: Entry, tokens: seq<string>, tail: string)
    requires e.action == NoAction
    requires WellFormedHeader(tokens)
    ensures Push(e, FormatRequest(tokens, tail)) == Dispatch(e, Request(tokens, tail))
  {
    ParseFormatRoundTrip(tokens, tail);
  }

  /** An empty chunk or a bare line break as a header fails and changes nothing. */
  lemma EmptyRequestRejected(e: Entry, chunk: string)
    requires e.action == NoAction
    requires chunk == "" || chunk == "\n" || chunk == NewLine
    ensures Push(e, chunk) == Step(e, Failure(EmptyRequestData))
  {
  }

  /** PHP's loose comparison makes "0" count as an empty request as well. */
  lemma ZeroRequestRejected(e: Entry)
    requires e.action == NoAction
    ensures Push(e, "0") == Step(e, Failure(EmptyRequestData))
  {
  }

  /** A header chunk with no delimiter has an empty first token, which is no known action. */
  lemma UndelimitedHeaderRejected(e: Entry, chunk: string)
    requires e.action == NoAction
    requires !IsFalsy(chunk) && chunk != "\n" && !ContainsNewLine(chunk)
    ensures Push(e, chunk) == Step(e, Failure(UnknownRequestAction("")))
  {
    assert NewLineAt(NewLine, 0);
  }

  /** A header naming no known action fails with that name and changes nothing. */
  lemma UnknownActionRejected(e: Entry, tokens: seq<string>, tail: string)
    requires e.action == NoAction
    requires WellFormedHeader(tokens)
    requires tokens[0] != "set" && tokens[0] != "get" && tokens[0] != "delete" && tokens[0] != "quit"
    ensures Push(e, FormatRequest(tokens, tail)) == Step(e, Failure(UnknownRequestAction(tokens[0])))
  {
    PushFormatted(e, tokens, tail);
  }

  /** `add` is among the unknown actions: push has no case that reaches addAction. */
  lemma AddRejected(e: Entry, key: string, flags: nat, expTime: nat, bytes: nat, tail: string)
    requires e.action == NoAction
    requires key != "" && NoWhitespace(key)
    ensures Push(e, FormatRequest(StorageHeader("add", key, flags, expTime, bytes), tail))
         == Step(e, Failure(UnknownRequestAction("add")))
  {
    StorageHeaderWellFormed("add", key, flags, expTime, bytes);
    UnknownActionRejected(e, StorageHeader("add", key, flags, expTime, bytes), tail);
  }

  /**
   * `get` records its second token as the key (empty when missing), records
   * the action and completes; the numeric fields and the data stay as they were.
   */
  lemma GetCompletes(e: Entry, tokens: seq<string>, tail: string)
    requires e.action == NoAction
    requires WellFormedHeader(tokens) && tokens[0] == "get"
    ensures Push(e, FormatRequest(tokens, tail))
         == Step(e.(action := Get, key := Token(tokens, 1), complete := true), Ok)
  {
    PushFormatted(e, tokens, tail);
  }

  /** `delete` behaves as `get` does, with its own action. */
  lemma DeleteCompletes(e: Entry, tokens: seq<string>, tail: string)
    requires e.action == NoAction
    requires WellFormedHeader(tokens) && tokens[0] == "delete"
    ensures Push(e, FormatRequest(tokens, tail))
         == Step(e.(action := Delete, key := Token(tokens, 1), complete := true), Ok)
  {
    PushFormatted(e, tokens, tail);
  }

  /** `quit` records the action and completes; the key and all other fields stay as they were. */
  lemma QuitCompletes(e: Entry, tokens: seq<string>, tail: string)
    requires e.action == NoAction
    requires WellFormedHeader(tokens) && tokens[0] == "quit"
    ensures Push(e, FormatRequest(tokens, tail)) == Step(e.(action := Quit, complete := true), Ok)
  {
    PushFormatted(e, tokens, tail);
  }

  /**
   * `set` checks flags, then exptime, then bytes, and the first field that is
   * not numeric decides the error. By then the action, the key and every
   * earlier valid field are recorded, so the next push is taken as payload.
   */
  lemma SetValidationOrder(e: Entry, tokens: seq<string>, tail: string)
    requires e.action == NoAction
    requires WellFormedHeader(tokens) && tokens[0] == "set"
    ensures var s := Push(e, FormatRequest(tokens, tail));
      var recorded := e.(action := Set, key := Token(tokens, 1));
      && (!IsNumeric(Token(tokens, 2)) ==>
            s == Step(recorded, Failure(BadCommandLineFormat)))
      && (IsNumeric(Token(tokens, 2)) && !IsNumeric(Token(tokens, 3)) ==>
            s == Step(recorded.(flags := DecimalValue(tokens[2])), Failure(InvalidExpirationTime)))
      && (IsNumeric(Token(tokens, 2)) && IsNumeric(Token(tokens, 3)) && !IsNumeric(Token(tokens, 4)) ==>
            s == Step(recorded.(flags := DecimalValue(tokens[2]), expTime := DecimalValue(tokens[3])),
                      Failure(BadDataChunk)))
      && s.entry.action == Set
      && forall chunk :: Push(s.entry, chunk) == PushData(s.entry, chunk)
  {
    PushFormatted(e, tokens, tail);
  }

  /**
   * A `set` header whose three numeric fields are valid records all of them
   * and hands a truthy remainder to pushData.
   */
  lemma SetAccepted(e: Entry, tokens: seq<string>, data: string)
    requires |tokens| >= 5 && tokens[0] == "set"
    requires IsNumeric(tokens[2]) && IsNumeric(tokens[3]) && IsNumeric(tokens[4])
    ensures var recorded := e.(action := Set, key := tokens[1], flags := DecimalValue(tokens[2]),
                               expTime := DecimalValue(tokens[3]), bytes := DecimalValue(tokens[4]));
      Dispatch(e, Request(tokens, data)) == if IsFalsy(data) then Step(recorded, Ok) else PushData(recorded, data)
  {
  }

  /** The entry a valid `set` header leaves behind before any payload is stored. */
  lemma PushSetHeader(e: Entry, key: string, flags: nat, expTime: nat, bytes: nat, tail: string)
    requires e.action == NoAction
    requires key != "" && NoWhitespace(key)
    ensures var recorded := e.(action := Set, key := key, flags := flags, expTime := expTime, bytes := bytes);
      Push(e, FormatRequest(StorageHeader("set", key, flags, expTime, bytes), tail))
        == if IsFalsy(tail) then Step(recorded, Ok) else PushData(recorded, tail)
  {
    var tokens := StorageHeader("set", key, flags, expTime, bytes);
    StorageHeaderWellFormed("set", key, flags, expTime, bytes);
    PushFormatted(e, tokens, tail);
    DecimalRoundTrip(flags);
    DecimalRoundTrip(expTime);
    DecimalRoundTrip(bytes);
    SetAccepted(e, tokens, tail);
  }

  /** A payload whose last byte is not whitespace can never end in one. */
  lemma RTrimDelimited(payload: string)
    requires payload == [] || !IsWhitespace(payload[|payload| - 1])
    ensures RTrim(payload + NewLine) == payload
  {
  }

  /** A payload line of the declared length completes the entry with that payload. */
  lemma PayloadLineCompletes(e: Entry, payload: string)
    requires e.data == "" && e.bytes == |payload|
    requires payload == [] || !IsWhitespace(payload[|payload| - 1])
    ensures PushData(e, payload + NewLine) == Step(e.(data := payload, complete := true), Ok)
  {
    if payload != [] {
      RTrimDelimited(payload);
    } else {
      assert payload + NewLine == NewLine;
    }
  }

  /**
   * A `set` request with its payload inline, as a client writes it, is
   * complete after one push, with every field as declared and the payload as
   * the data.
   */
  lemma SetInlineCompletes(e: Entry, key: string, flags: nat, expTime: nat, payload: string)
    requires e.action == NoAction && e.data == ""
    requires key != "" && NoWhitespace(key)
    requires payload == [] || !IsWhitespace(payload[|payload| - 1])
    ensures Push(e, FormatRequest(StorageHeader("set", key, flags, expTime, |payload|), payload + NewLine))
         == Step(Entry(Set, key, flags, expTime, |payload|, payload, true), Ok)
  {
    PushSetHeader(e, key, flags, expTime, |payload|, payload + NewLine);
    PayloadLineCompletes(e.(action := Set, key := key, flags := flags, expTime := expTime, bytes := |payload|), payload);
  }

  /**
   * A `set` header pushed alone leaves the entry waiting for its payload;
   * the payload line pushed next completes it with exactly that payload.
   */
  lemma SetThenPayloadCompletes(e: Entry, key: string, flags: nat, expTime: nat, payload: string)
    requires e.action == NoAction && e.data == "" && !e.complete
    requires key != "" && NoWhitespace(key)
    requires payload == [] || !IsWhitespace(payload[|payload| - 1])
    ensures var first := Push(e, FormatRequest(StorageHeader("set", key, flags, expTime, |payload|), ""));
      && first == Step(Entry(Set, key, flags, expTime, |payload|, "", false), Ok)
      && Push(first.entry, payload + NewLine) == Step(Entry(Set, key, flags, expTime, |payload|, payload, true), Ok)
  {
    PushSetHeader(e, key, flags, expTime, |payload|, "");
    PayloadLineCompletes(Entry(Set, key, flags, expTime, |payload|, "", false), payload);
  }

  /** A payload chunk longer than the declared byte count, once trimmed, fails the `set`. */
  lemma SetThenOversizedPayloadFails(e: Entry, key: string, flags: nat, expTime: nat, bytes: nat, chunk: string)
    requires e.action == NoAction && e.data == ""
    requires key != "" && NoWhitespace(key)
    requires chunk != NewLine && |RTrim(chunk)| > bytes
    ensures var first := Push(e, FormatRequest(StorageHeader("set", key, flags, expTime, bytes), ""));
      Push(first.entry, chunk) == Step(Entry(Set, key, flags, expTime, bytes, RTrim(chunk), e.complete), Failure(BadDataChunk))
  {
    PushSetHeader(e, key, flags, expTime, bytes, "");
  }

  /**
   * rtrim also cuts whitespace that belongs to the payload: a declared
   * payload ending in whitespace is stored shorter than declared and the
   * entry does not complete.
   */
  lemma TrailingWhitespaceShortensPayload(e: Entry, key: string, flags: nat, expTime: nat, payload: string)
    requires e.action == NoAction && e.data == "" && !e.complete
    requires key != "" && NoWhitespace(key)
    requires payload != [] && IsWhitespace(payload[|payload| - 1])
    ensures var s := Push(e, FormatRequest(StorageHeader("set", key, flags, expTime, |payload|), payload + NewLine));
      && s.outcome == Ok && !s.entry.complete
      && |s.entry.data| < |payload| && s.entry.data == payload[..|s.entry.data|]
  {
    PushSetHeader(e, key, flags, expTime, |payload|, payload + NewLine);
    RTrimWhitespaceEnd(payload);
  }

  /** Trailing whitespace is cut off along with the delimiter after it. */
  lemma RTrimWhitespaceEnd(payload: string)
    requires payload != [] && IsWhitespace(payload[|payload| - 1])
    ensures var r := RTrim(payload + NewLine); |r| < |payload| && r == payload[..|r|]
  {
  }

  /** An entry reachable before its header: nothing stored, nothing complete. */
  predicate AwaitingHeader(e: Entry) {
    e.action == NoAction && e.data == "" && !e.complete
  }

  /**
   * Pushing into an entry that is not yet complete never yields a complete
   * `set` whose data differs in length from its declared byte count, and a
   * push that ends normally never leaves more data than declared.
   */
  lemma CompletionMatchesDeclaredLength(e: Entry, chunk: string)
    requires e.action == NoAction ==> AwaitingHeader(e)
    requires !e.complete
    ensures var s := Push(e, chunk);
      && (s.entry.complete && s.entry.action == Set ==> |s.entry.data| == s.entry.bytes)
      && (s.outcome == Ok ==> |s.entry.data| <= s.entry.bytes)
  {
    if e.action == NoAction {
      match ParseRequest(chunk)
      case None =>
      case Some(request) =>
        DispatchMatchesDeclaredLength(e, request);
    }
  }

  /** The same for the dispatch of a parsed header. */
  lemma DispatchMatchesDeclaredLength(e: Entry, request: Request)
    requires AwaitingHeader(e) && |request.tokens| >= 1
    ensures var s := Dispatch(e, request);
      && (s.entry.complete && s.entry.action == Set ==> |s.entry.data| == s.entry.bytes)
      && (s.outcome == Ok ==> |s.entry.data| <= s.entry.bytes)
  {
  }

  /**
   * A failed push never completes the entry, and its message is one of the
   * framer's fixed errors or names the unknown action.
   */
  lemma FailureKinds(e: Entry, chunk: string)
    ensures var s := Push(e, chunk);
      s.outcome.Failure? ==>
        && s.entry.complete == e.complete
        && (s.outcome.message in {EmptyRequestData, BadCommandLineFormat, InvalidExpirationTime, BadDataChunk}
            || exists name :: s.outcome.message == UnknownRequestAction(name))
  {
    if e.action == NoAction {
      match ParseRequest(chunk)
      case None =>
      case Some(request) =>
        DispatchFailureKinds(e, request);
    }
  }

  /** The same for the dispatch of a parsed header. */
  lemma DispatchFailureKinds(e: Entry, request: Request)
    requires |request.tokens| >= 1
    ensures var s := Dispatch(e, request);
      s.outcome.Failure? ==>
        && s.entry.complete == e.complete
        && (s.outcome.message in {BadCommandLineFormat, InvalidExpirationTime, BadDataChunk}
            || s.outcome.message == UnknownRequestAction(request.tokens[0]))
  {
  }
}

/**
 * The request entry as the object the connection handler feeds: its fields
 * are updated in place by push and the per-command handlers, and every
 * method is proved to leave the entry in the state the Framer functions
 * describe.
 */
module MemCache {
  import opened Protocol
  import opened Framer

  class MemCacheEntry {
    var requestAction: Action
    var key: string
    var flags: nat
    var expTime: nat
    var bytes: nat
    var data: string
    var complete: bool

    /** The entry's fields as a value. */
    function State(): Entry
      reads this
    {
      Entry(requestAction, key, flags, expTime, bytes, data, complete)
    }

    /** A new entry: the base class's fields start out empty. */
    constructor()
      ensures State() == Fresh
    {
      requestAction := NoAction;
      key := "";
      flags, expTime, bytes := 0, 0, 0;
      data := "";
      complete := false;
    }

    /**
     * setData of the base class, which is not part of this model; it is
     * taken to replace the stored data.
     */
    method SetData(d: string)
      modifies this
      ensures State() == old(State()).(data := d)
    {
      data := d;
    }

    /** push: route to pushData once an action is recorded, else parse and dispatch. */
    method Push(request: string) returns (outcome: Outcome)
      modifies this
      ensures Step(State(), outcome) == Framer.Push(old(State()), request)
    {
      if requestAction != NoAction {
        outcome := PushData(request);
        return;
      }
      var parsed := ParseRequest(request);
      if parsed.None? {
        return Failure(EmptyRequestData);
      }
      var tokens := parsed.value.tokens;
      var name := tokens[0];
      if name == "set" {
        outcome := SetAction(parsed.value);
      } else if name == "get" {
        GetAction(tokens);
        outcome := Ok;
      } else if name == "delete" {
        DeleteAction(tokens);
        outcome := Ok;
      } else if name == "quit" {
        QuitAction();
        outcome := Ok;
      } else {
        outcome := Failure(UnknownRequestAction(name));
      }
    }

    method GetAction(tokens: seq<string>)
      modifies this
      ensures key == Token(tokens, 1) && requestAction == Get && complete
      ensures flags == old(flags) && expTime == old(expTime) && bytes == old(bytes) && data == old(data)
    {
      key := Token(tokens, 1);
      requestAction := Get;
      complete := true;
    }

    method DeleteAction(tokens: seq<string>)
      modifies this
      ensures key == Token(tokens, 1) && requestAction == Delete && complete
      ensures flags == old(flags) && expTime == old(expTime) && bytes == old(bytes) && data == old(data)
    {
      key := Token(tokens, 1);
      requestAction := Delete;
      complete := true;
    }

    method QuitAction()
      modifies this
      ensures requestAction == Quit && complete
      ensures key == old(key) && flags == old(flags) && expTime == old(expTime)
      ensures bytes == old(bytes) && data == old(data)
    {
      requestAction := Quit;
      complete := true;
    }

    /** addAction: the same as setAction; push never calls it. */
    method AddAction(request: Request) returns (outcome: Outcome)
      modifies this
      ensures Step(State(), outcome) == Framer.SetAction(old(State()), request)
    {
      outcome := SetAction(request);
    }

    /** setAction: record `set` and the key, validate the numeric fields in order, pass on inline data. */
    method SetAction(request: Request) returns (outcome: Outcome)
      modifies this
      ensures Step(State(), outcome) == Framer.SetAction(old(State()), request)
    {
      var tokens := request.tokens;
      requestAction := Set;
      key := Token(tokens, 1);
      if IsNumeric(Token(tokens, 2)) {
        flags := DecimalValue(tokens[2]);
      } else {
        return Failure(BadCommandLineFormat);
      }
      if IsNumeric(Token(tokens, 3)) {
        expTime := DecimalValue(tokens[3]);
      } else {
        return Failure(InvalidExpirationTime);
      }
      if IsNumeric(Token(tokens, 4)) {
        bytes := DecimalValue(tokens[4]);
      } else {
        return Failure(BadDataChunk);
      }
      outcome := Ok;
      if !IsFalsy(request.data) {
        outcome := PushData(request.data);
      }
    }

    /** pushData: complete on the end-of-payload delimiter, otherwise store and check the length. */
    method PushData(chunk: string) returns (outcome: Outcome)
      modifies this
      ensures Step(State(), outcome) == Framer.PushData(old(State()), chunk)
    {
      if chunk == NewLine && |data| == bytes {
        complete := true;
        return Ok;
      }
      var stored := chunk;
      if chunk != NewLine {
        stored := RTrim(chunk);
      }
      SetData(stored);
      outcome := Ok;
      if |data| == bytes {
        complete := true;
      } else if |data| > bytes {
        outcome := Failure(BadDataChunk);
      }
    }
  }
}

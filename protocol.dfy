/**
 * Text-level helpers of the memcache text protocol framer: the line delimiter,
 * PHP-style trimming and splitting, the numeric-field test, and the parse of
 * one request header into its tokens plus the inline remainder.
 *
 * Every chunk is a string whose characters stand for the bytes on the wire,
 * so a string's length is its byte length.
 */
module Protocol {

  datatype Option<+T> = None | Some(value: T)

  /** The protocol's line delimiter (getNewLine() of the entry). */
  const NewLine: string := "\r\n"

  /** PHP's loose `$s == false` on a string: only "" and "0" are falsy. */
  predicate IsFalsy(s: string) {
    s == "" || s == "0"
  }

  /** The characters PHP's trim and rtrim strip by default: " \t\n\r\0\x0B". */
  predicate IsWhitespace(c: char) {
    c == ' ' || c == '\t' || c == '\n' || c == '\r' || c == '\0' || c == '\U{000B}'
  }

  predicate NoWhitespace(s: string) {
    forall k :: 0 <= k < |s| ==> !IsWhitespace(s[k])
  }

  /** rtrim: drops every trailing whitespace character. */
  function RTrim(s: string): (r: string)
    ensures |r| <= |s| && r == s[..|r|]
    ensures forall k :: |r| <= k < |s| ==> IsWhitespace(s[k])
    ensures r == [] || !IsWhitespace(r[|r| - 1])
  {
    if |s| > 0 && IsWhitespace(s[|s| - 1]) then RTrim(s[..|s| - 1]) else s
  }

  /** ltrim: drops every leading whitespace character. */
  function LTrim(s: string): (r: string)
    ensures |r| <= |s| && r == s[|s| - |r|..]
    ensures forall k :: 0 <= k < |s| - |r| ==> IsWhitespace(s[k])
    ensures r == [] || !IsWhitespace(r[0])
  {
    if |s| > 0 && IsWhitespace(s[0]) then LTrim(s[1..]) else s
  }

  /** Neither end of s is whitespace. */
  predicate TrimmedEnds(s: string) {
    s == [] || (!IsWhitespace(s[0]) && !IsWhitespace(s[|s| - 1]))
  }

  /** trim: drops whitespace at both ends, and leaves a string that has none there unchanged. */
  function Trim(s: string): (r: string)
    ensures TrimmedEnds(r)
    ensures TrimmedEnds(s) ==> r == s
  {
    var right := RTrim(s);
    var r := LTrim(right);
    assert r != [] ==> r[|r| - 1] == right[|right| - 1];
    assert TrimmedEnds(s) ==> |right| == |s|;
    assert TrimmedEnds(s) ==> |r| == |s|;
    r
  }

  /**
   * What trim cuts: the result is the slice of s that starts after the
   * leading whitespace and ends before the trailing whitespace.
   */
  lemma TrimCut(s: string)
    ensures var r := Trim(s); var a := |RTrim(s)| - |r|;
      0 <= a && a + |r| <= |s| && r == s[a..a + |r|] &&
      (forall k :: 0 <= k < a ==> IsWhitespace(s[k])) &&
      (forall k :: a + |r| <= k < |s| ==> IsWhitespace(s[k]))
  {
  }

  /** explode(' ', s): the pieces of s between single spaces, empty pieces included. */
  function Explode(s: string): (parts: seq<string>)
    ensures |parts| >= 1
    ensures forall k :: 0 <= k < |parts| ==> ' ' !in parts[k]
    ensures Implode(parts) == s
  {
    if s == [] then [""]
    else
      var rest := Explode(s[1..]);
      if s[0] == ' ' then
        assert s == [' '] + s[1..];
        [""] + rest
      else
        var parts := [[s[0]] + rest[0]] + rest[1..];
        assert parts[1..] == rest[1..];
        parts
  }

  /** implode(' ', parts): the inverse of Explode, a client's way of writing a header. */
  function Implode(parts: seq<string>): string
    requires |parts| >= 1
  {
    if |parts| == 1 then parts[0] else parts[0] + " " + Implode(parts[1..])
  }

  /** Exploding a word followed by a space splits off exactly that word. */
  lemma {:induction false} ExplodeWordSpace(w: string, t: string)
    requires ' ' !in w
    ensures Explode(w + " " + t) == [w] + Explode(t)
  {
    if w == [] {
      assert w + " " + t == [' '] + t;
    } else {
      assert (w + " " + t)[1..] == w[1..] + " " + t;
      ExplodeWordSpace(w[1..], t);
      assert [w[0]] + w[1..] == w;
    }
  }

  /** A word without a space explodes to itself. */
  lemma {:induction false} ExplodeWord(w: string)
    requires ' ' !in w
    ensures Explode(w) == [w]
  {
    if w != [] {
      ExplodeWord(w[1..]);
      assert [w[0]] + w[1..] == w;
    }
  }

  /** Explode undoes Implode on space-free pieces. */
  lemma {:induction false} ExplodeImplode(parts: seq<string>)
    requires |parts| >= 1
    requires forall k :: 0 <= k < |parts| ==> ' ' !in parts[k]
    ensures Explode(Implode(parts)) == parts
  {
    if |parts| == 1 {
      ExplodeWord(parts[0]);
    } else {
      ExplodeImplode(parts[1..]);
      ExplodeWordSpace(parts[0], Implode(parts[1..]));
    }
  }

  /** Implode begins with its first piece and ends with its last one. */
  lemma {:induction false} ImplodeEnds(parts: seq<string>)
    requires |parts| >= 1
    ensures var s := Implode(parts); var last := parts[|parts| - 1];
      |s| >= |parts[0]| && s[..|parts[0]|] == parts[0] &&
      |s| >= |last| && s[|s| - |last|..] == last
  {
    if |parts| > 1 {
      ImplodeEnds(parts[1..]);
    }
  }

  /** Implode adds nothing but single spaces to its pieces. */
  lemma {:induction false} ImplodeNoBreak(parts: seq<string>)
    requires |parts| >= 1
    requires forall k :: 0 <= k < |parts| ==> '\r' !in parts[k]
    ensures '\r' !in Implode(parts)
  {
    if |parts| > 1 {
      ImplodeNoBreak(parts[1..]);
    }
  }

  predicate NewLineAt(s: string, i: int) {
    0 <= i < |s| - 1 && s[i] == '\r' && s[i + 1] == '\n'
  }

  predicate ContainsNewLine(s: string) {
    exists i | 0 <= i < |s| - 1 :: NewLineAt(s, i)
  }

  /** strpos(s, NewLine): the position of the first delimiter, if there is one. */
  function FindNewLine(s: string): (r: Option<nat>)
    ensures r.Some? ==> NewLineAt(s, r.value) && !ContainsNewLine(s[..r.value + 1])
    ensures r.None? ==> !ContainsNewLine(s)
  {
    if |s| < 2 then None
    else if s[0] == '\r' && s[1] == '\n' then Some(0)
    else
      match FindNewLine(s[1..])
      case None =>
        NewLineShift(s);
        None
      case Some(i) =>
        assert s[1..][..i + 1] == s[..i + 2][1..];
        NewLineShift(s[..i + 2]);
        Some(i + 1)
  }

  /** A string that does not start with the delimiter holds one only if its tail does. */
  lemma NewLineShift(s: string)
    requires !NewLineAt(s, 0)
    ensures ContainsNewLine(s) ==> ContainsNewLine(s[1..])
  {
    if ContainsNewLine(s) {
      var i :| 0 <= i < |s| - 1 && NewLineAt(s, i);
      assert NewLineAt(s[1..], i - 1);
    }
  }

  /** A delimiter placed after a line that holds none is the first one. */
  lemma FindNewLineAfter(line: string, rest: string)
    requires '\r' !in line
    ensures FindNewLine(line + NewLine + rest) == Some(|line|)
  {
    var s := line + NewLine + rest;
    assert NewLineAt(s, |line|);
    match FindNewLine(s)
    case None =>
      assert false;
    case Some(i) =>
      if i < |line| {
        assert false;
      } else if i > |line| {
        assert NewLineAt(s[..i + 1], |line|);
        assert false;
      }
  }

  predicate IsDigit(c: char) {
    '0' <= c <= '9'
  }

  /**
   * is_numeric, narrowed to what a memcache client sends: a non-empty run of
   * decimal digits.
   */
  predicate IsNumeric(s: string) {
    |s| > 0 && forall k :: 0 <= k < |s| ==> IsDigit(s[k])
  }

  function DigitValue(c: char): nat
    requires IsDigit(c)
  {
    c as int - '0' as int
  }

  /** The value of a run of decimal digits. */
  function DecimalValue(s: string): nat
    requires forall k :: 0 <= k < |s| ==> IsDigit(s[k])
  {
    if s == [] then 0
    else DecimalValue(s[..|s| - 1]) * 10 + DigitValue(s[|s| - 1])
  }

  /** The decimal spelling of n, as a client writes a numeric field. */
  function Decimal(n: nat): (s: string)
    ensures IsNumeric(s) && NoWhitespace(s)
  {
    var digit := ('0' as int + n % 10) as char;
    if n < 10 then [digit] else Decimal(n / 10) + [digit]
  }

  /** Reading back the decimal spelling of a number gives that number. */
  lemma {:induction false} DecimalRoundTrip(n: nat)
    ensures DecimalValue(Decimal(n)) == n
  {
    var s := Decimal(n);
    if n >= 10 {
      DecimalRoundTrip(n / 10);
      assert s[..|s| - 1] == Decimal(n / 10);
    }
  }

  /** The tokens of a request line and the inline data that followed it. */
  datatype Request = Request(tokens: seq<string>, data: string)

  /** The token at position i, or "" where PHP would read an undefined index as null. */
  function Token(tokens: seq<string>, i: nat): (t: string)
    ensures i < |tokens| ==> t == tokens[i]
    ensures i >= |tokens| ==> t == ""
  {
    if i < |tokens| then tokens[i] else ""
  }

  /**
   * parseRequest: None for a falsy chunk or a bare line break; otherwise the
   * tokens of the trimmed text before the first delimiter, split on single
   * spaces, and everything after that delimiter as data. A chunk without a
   * delimiter has an empty header and empty data.
   */
  function ParseRequest(request: string): (r: Option<Request>)
    ensures r.None? <==> IsFalsy(request) || request == "\n" || request == NewLine
    ensures r.Some? ==> |r.value.tokens| >= 1
    ensures r.Some? && !ContainsNewLine(request) ==> r.value == Request([""], "")
    ensures r.Some? && ContainsNewLine(request) ==>
      var i := |request| - |r.value.data| - 2;
      0 <= i && request == request[..i] + NewLine + r.value.data &&
      !ContainsNewLine(request[..i + 1]) &&
      Implode(r.value.tokens) == Trim(request[..i])
    ensures r.Some? ==> forall k :: 0 <= k < |r.value.tokens| ==> ' ' !in r.value.tokens[k]
  {
    if IsFalsy(request) || request == "\n" || request == NewLine then None
    else
      match FindNewLine(request)
      case None => Some(Request(Explode(Trim("")), ""))
      case Some(i) =>
        assert request == request[..i] + NewLine + request[i + 2..];
        Some(Request(Explode(Trim(request[..i])), request[i + 2..]))
  }

  /** A header line every token of which is non-empty and free of whitespace. */
  predicate WellFormedHeader(tokens: seq<string>) {
    |tokens| >= 1 && forall k :: 0 <= k < |tokens| ==> tokens[k] != "" && NoWhitespace(tokens[k])
  }

  /** A request as a client writes it: the tokens joined by spaces, the delimiter, then the data. */
  function FormatRequest(tokens: seq<string>, data: string): string
    requires |tokens| >= 1
  {
    Implode(tokens) + NewLine + data
  }

  /** The header line of well-formed tokens has no whitespace at its ends, no `\r`, and splits back into them. */
  lemma HeaderLine(tokens: seq<string>)
    requires WellFormedHeader(tokens)
    ensures var line := Implode(tokens);
      line != [] && TrimmedEnds(line) && '\r' !in line && Explode(line) == tokens
  {
    var line := Implode(tokens);
    var last := tokens[|tokens| - 1];
    assert forall k :: 0 <= k < |tokens| ==> ' ' !in tokens[k] && '\r' !in tokens[k] by {
      forall k | 0 <= k < |tokens| ensures ' ' !in tokens[k] && '\r' !in tokens[k] {
        assert NoWhitespace(tokens[k]);
      }
    }
    ImplodeEnds(tokens);
    ImplodeNoBreak(tokens);
    ExplodeImplode(tokens);
    assert line[0] == tokens[0][0];
    assert line[|line| - 1] == last[|last| - 1];
  }

  /** ParseRequest reads back what FormatRequest wrote. */
  lemma ParseFormatRoundTrip(tokens: seq<string>, data: string)
    requires WellFormedHeader(tokens)
    ensures ParseRequest(FormatRequest(tokens, data)) == Some(Request(tokens, data))
  {
    var line := Implode(tokens);
    HeaderLine(tokens);
    var request := line + NewLine + data;
    FindNewLineAfter(line, data);
    assert request[..|line|] == line;
    assert request[|line| + 2..] == data;
  }
}

/**
 * The adapter transport: messages to an adapter are framed with a
 * Content-Length header, messages from it are read back header line by
 * header line, and the senders that wait for responses move from the map
 * of requests being sent to the map of requests sent.
 *
 * The byte stream from the adapter is a sequence of bytes; JSON encoding is
 * not modelled, so a message carries its encoded text. Senders are opaque
 * handles.
 */
module Transport {
  import opened Wrappers

  type byte = b: int | 0 <= b < 256

  const LF: byte := 10
  const CR: byte := 13
  const Space: byte := 32
  const Plus: byte := 43
  const Colon: byte := 58
  const Zero: byte := 48
  const CRLF: seq<byte> := [CR, LF]
  const TwoTo64: nat := 0x1_0000_0000_0000_0000

  /** The bytes of `Content-Length`. */
  const ContentLengthKey: seq<byte> := [67, 111, 110, 116, 101, 110, 116, 45, 76, 101, 110, 103, 116, 104]

  // --------------------------------------------------------------- UTF-8

  predicate Continuation(b: byte)
  {
    0x80 <= b <= 0xBF
  }

  /**
   * The length of the well-formed UTF-8 sequence that starts `s`, after
   * table 3-7 of the Unicode Standard (section 3.9), or 0 if none does.
   */
  function Utf8Width(s: seq<byte>): (w: nat)
    requires s != []
    ensures w <= 4 && w <= |s|
    ensures s[0] < 0x80 ==> w == 1
  {
    var b := s[0];
    if b <= 0x7F then 1
    else if 0xC2 <= b <= 0xDF then
      if |s| >= 2 && Continuation(s[1]) then 2 else 0
    else if b == 0xE0 then
      if |s| >= 3 && 0xA0 <= s[1] <= 0xBF && Continuation(s[2]) then 3 else 0
    else if (0xE1 <= b <= 0xEC) || (0xEE <= b <= 0xEF) then
      if |s| >= 3 && Continuation(s[1]) && Continuation(s[2]) then 3 else 0
    else if b == 0xED then
      if |s| >= 3 && 0x80 <= s[1] <= 0x9F && Continuation(s[2]) then 3 else 0
    else if b == 0xF0 then
      if |s| >= 4 && 0x90 <= s[1] <= 0xBF && Continuation(s[2]) && Continuation(s[3]) then 4 else 0
    else if 0xF1 <= b <= 0xF3 then
      if |s| >= 4 && Continuation(s[1]) && Continuation(s[2]) && Continuation(s[3]) then 4 else 0
    else if b == 0xF4 then
      if |s| >= 4 && 0x80 <= s[1] <= 0x8F && Continuation(s[2]) && Continuation(s[3]) then 4 else 0
    else 0
  }

  predicate ValidUtf8(s: seq<byte>)
    decreases |s|
  {
    s == [] || (Utf8Width(s) > 0 && ValidUtf8(s[Utf8Width(s)..]))
  }

  predicate IsAscii(s: seq<byte>)
  {
    forall i | 0 <= i < |s| :: s[i] < 0x80
  }

  lemma {:induction false} AsciiIsUtf8(s: seq<byte>)
    requires IsAscii(s)
    ensures ValidUtf8(s)
    decreases |s|
  {
    if s != [] {
      assert Utf8Width(s) == 1;
      assert IsAscii(s[1..]) by {
        forall i | 0 <= i < |s[1..]| ensures s[1..][i] < 0x80 {
          assert s[1..][i] == s[i + 1];
        }
      }
      AsciiIsUtf8(s[1..]);
    }
  }

  /** Well-formed UTF-8 stays well formed when more of it follows. */
  lemma {:induction false} Utf8Concat(a: seq<byte>, b: seq<byte>)
    requires ValidUtf8(a) && ValidUtf8(b)
    ensures ValidUtf8(a + b)
    decreases |a|
  {
    if a == [] {
      assert a + b == b;
    } else {
      var w := Utf8Width(a);
      assert forall i | 0 <= i < |a| :: (a + b)[i] == a[i];
      assert Utf8Width(a + b) == w;
      assert (a + b)[w..] == a[w..] + b;
      Utf8Concat(a[w..], b);
    }
  }

  // --------------------------------------------------------------- Lines

  /** What one `read_line` returns from inside the stream: bytes up to and including the first line feed. */
  predicate IsLine(line: seq<byte>)
  {
    line != [] && line[|line| - 1] == LF && forall i | 0 <= i < |line| - 1 :: line[i] != LF
  }

  /** A whitespace character of the ASCII range, as `char::is_whitespace` sees it. */
  predicate IsWhitespace(b: byte)
  {
    b == Space || (9 <= b <= 13)
  }

  /**
   * The two-byte UTF-8 encodings of characters with the Unicode White_Space
   * property, which `str::trim` removes along with the ASCII ones: U+0085
   * and U+00A0.
   */
  predicate Space2(a: byte, b: byte)
  {
    a == 0xC2 && (b == 0x85 || b == 0xA0)
  }

  /** The three-byte ones: U+1680, U+2000 to U+200A, U+2028, U+2029, U+202F, U+205F and U+3000. */
  predicate Space3(a: byte, b: byte, c: byte)
  {
    (a == 0xE1 && b == 0x9A && c == 0x80)
    || (a == 0xE2 && b == 0x80 && (0x80 <= c <= 0x8A || c == 0xA8 || c == 0xA9 || c == 0xAF))
    || (a == 0xE2 && b == 0x81 && c == 0x9F)
    || (a == 0xE3 && b == 0x80 && c == 0x80)
  }

  /**
   * The width of the whitespace character that ends `s[..k]`, or 0. On
   * UTF-8 a matching suffix starts at a character boundary, since every
   * encoding above starts with an ASCII or a leading byte.
   */
  function SpaceEndingAt(s: seq<byte>, k: nat): (w: nat)
    requires k <= |s|
    ensures w <= k && w <= 3
  {
    if k >= 1 && IsWhitespace(s[k - 1]) then 1
    else if k >= 2 && Space2(s[k - 2], s[k - 1]) then 2
    else if k >= 3 && Space3(s[k - 3], s[k - 2], s[k - 1]) then 3
    else 0
  }

  /** The width of the whitespace character that starts `s[i..]`, or 0. */
  function SpaceStartingAt(s: seq<byte>, i: nat): (w: nat)
    requires i <= |s|
    ensures i + w <= |s| && w <= 3
  {
    if i + 1 <= |s| && IsWhitespace(s[i]) then 1
    else if i + 2 <= |s| && Space2(s[i], s[i + 1]) then 2
    else if i + 3 <= |s| && Space3(s[i], s[i + 1], s[i + 2]) then 3
    else 0
  }

  /** The length of `s[..k]` without its trailing whitespace characters. */
  function TrimEndLength(s: seq<byte>, k: nat): (n: nat)
    requires k <= |s|
    ensures n <= k
    ensures SpaceEndingAt(s, n) == 0
    decreases k
  {
    var w := SpaceEndingAt(s, k);
    if w > 0 then TrimEndLength(s, k - w) else k
  }

  /** The index in `s[i..]` of the first character that is not whitespace, or `|s|`. */
  function TrimStartIndex(s: seq<byte>, i: nat): (j: nat)
    requires i <= |s|
    ensures i <= j <= |s|
    ensures SpaceStartingAt(s, j) == 0
    decreases |s| - i
  {
    var w := SpaceStartingAt(s, i);
    if w > 0 then TrimStartIndex(s, i + w) else i
  }

  /** `str::trim`: leading and trailing whitespace characters removed. */
  function Trim(s: seq<byte>): (r: seq<byte>)
    ensures |r| <= |s|
    ensures SpaceStartingAt(r, 0) == 0 && SpaceEndingAt(r, |r|) == 0
  {
    var n := TrimEndLength(s, |s|);
    var t := s[..n];
    var j := TrimStartIndex(t, 0);
    t[j..]
  }

  /** The first index from `i` where `": "` starts. */
  function ColonSpaceFrom(s: seq<byte>, i: nat): (r: Option<nat>)
    requires i <= |s|
    ensures r.Some? ==> i <= r.value && r.value + 1 < |s| && s[r.value] == Colon && s[r.value + 1] == Space
    decreases |s| - i
  {
    if i + 1 >= |s| then None
    else if s[i] == Colon && s[i + 1] == Space then Some(i)
    else ColonSpaceFrom(s, i + 1)
  }

  /** `split_once(": ")`. */
  function SplitOnce(s: seq<byte>): (r: Option<(seq<byte>, seq<byte>)>)
    ensures r.Some? ==> s == r.value.0 + [Colon, Space] + r.value.1
  {
    match ColonSpaceFrom(s, 0)
    case None => None
    case Some(i) =>
      assert s == s[..i] + [Colon, Space] + s[i + 2..];
      Some((s[..i], s[i + 2..]))
  }

  lemma {:induction false} ColonSpaceFromSkips(s: seq<byte>, i: nat, k: nat)
    requires i <= k < |s| && s[k] == Colon && k + 1 < |s| && s[k + 1] == Space
    requires forall j | i <= j < k :: s[j] != Colon
    ensures ColonSpaceFrom(s, i) == Some(k)
    decreases k - i
  {
    if i < k {
      ColonSpaceFromSkips(s, i + 1, k);
    }
  }

  /** A key without a colon splits off at the first `": "` after it. */
  lemma SplitAfterKey(key: seq<byte>, value: seq<byte>)
    requires forall j | 0 <= j < |key| :: key[j] != Colon
    ensures SplitOnce(key + [Colon, Space] + value) == Some((key, value))
  {
    var s := key + [Colon, Space] + value;
    ColonSpaceFromSkips(s, 0, |key|);
    assert s[..|key|] == key;
    assert s[|key| + 2..] == value;
  }

  // ------------------------------------------------------------- Numbers

  predicate IsDigit(b: byte)
  {
    Zero <= b < Zero + 10
  }

  predicate AllDigits(ds: seq<byte>)
  {
    forall i | 0 <= i < |ds| :: IsDigit(ds[i])
  }

  function DigitsValue(ds: seq<byte>): nat
    requires AllDigits(ds)
  {
    if ds == [] then 0
    else
      var d := ds[|ds| - 1];
      assert IsDigit(d);
      DigitsValue(ds[..|ds| - 1]) * 10 + (d - Zero)
  }

  /** `usize::from_str` on a 64-bit target: an optional `+`, then at least one digit, no overflow. */
  function ParseUsize(v: seq<byte>): (r: Option<nat>)
    ensures r.Some? ==> r.value < TwoTo64
    ensures v == [] ==> r.None?
  {
    var ds := if |v| > 0 && v[0] == Plus then v[1..] else v;
    if ds == [] || !AllDigits(ds) then None
    else
      var x := DigitsValue(ds);
      if x < TwoTo64 then Some(x) else None
  }

  /** The decimal digits `format!("{}", n)` writes. */
  function Decimal(n: nat): (ds: seq<byte>)
    ensures ds != [] && AllDigits(ds)
  {
    if n < 10 then [Zero + n] else Decimal(n / 10) + [Zero + n % 10]
  }

  lemma {:induction false} DecimalValue(n: nat)
    ensures DigitsValue(Decimal(n)) == n
  {
    if n >= 10 {
      var ds := Decimal(n);
      assert ds[..|ds| - 1] == Decimal(n / 10);
      DecimalValue(n / 10);
    }
  }

  lemma DecimalParses(n: nat)
    requires n < TwoTo64
    ensures ParseUsize(Decimal(n)) == Some(n)
  {
    DecimalValue(n);
    assert Decimal(n)[0] != Plus;
  }

  // ------------------------------------------------------------- Reading

  datatype ReceiveError =
    | StreamClosed
    | InvalidUtf8Line
    | InvalidContentLength
    | MissingContentLength
    | ShortBody
    | InvalidUtf8Body

  /** The error text each failure is reported with. */
  function ErrorText(e: ReceiveError): string
  {
    match e
    case StreamClosed => "debugger reader stream closed"
    case InvalidUtf8Line => "reading a message from server"
    case InvalidContentLength => "invalid content length"
    case MissingContentLength => "missing content length"
    case ShortBody => "reading after a loop"
    case InvalidUtf8Body => "invalid utf8 from server"
  }

  /** What one header line does: end the headers, fail, or go on with the length seen so far. */
  datatype LineOutcome = EndOfHeaders | HeaderFailed(error: ReceiveError) | NextHeader(contentLength: Option<nat>)

  /**
   * One turn of the header loop: a line that is not UTF-8 fails, the bare
   * line ending ends the headers, a `Content-Length: n` line sets the length
   * (or fails when `n` does not parse), and any other line is skipped.
   */
  function ReadHeaderLine(line: seq<byte>, contentLength: Option<nat>): (r: LineOutcome)
    ensures r.NextHeader? && r.contentLength != contentLength ==> r.contentLength.Some? && r.contentLength.value < TwoTo64
    ensures r == EndOfHeaders <==> ValidUtf8(line) && line == CRLF
  {
    if !ValidUtf8(line) then HeaderFailed(InvalidUtf8Line)
    else if line == CRLF then EndOfHeaders
    else HeaderField(Trim(line), contentLength)
  }

  /** A trimmed header line other than the line ending: a `Content-Length` field sets the length, others are skipped. */
  function HeaderField(trimmed: seq<byte>, contentLength: Option<nat>): (r: LineOutcome)
    ensures r != EndOfHeaders
    ensures r.NextHeader? && r.contentLength != contentLength ==> r.contentLength.Some? && r.contentLength.value < TwoTo64
  {
    match SplitOnce(trimmed)
    case Some((key, value)) =>
      if key == ContentLengthKey then
        match ParseUsize(value)
        case None => HeaderFailed(InvalidContentLength)
        case Some(n) => NextHeader(Some(n))
      else NextHeader(contentLength)
    case None => NextHeader(contentLength)
  }

  /**
   * The header loop of `receive_server_message` from line `i` on, with the
   * length seen so far: the length and how many lines were read, or why
   * reading failed. A `read_line` that returns nothing is the end of the
   * stream.
   */
  function Headers(lines: seq<seq<byte>>, i: nat, contentLength: Option<nat>): (r: Result<(Option<nat>, nat), ReceiveError>)
    requires i <= |lines|
    ensures r.Ok? ==> i < r.value.1 <= |lines| && lines[r.value.1 - 1] == CRLF
    decreases |lines| - i
  {
    if i == |lines| || lines[i] == [] then Err(StreamClosed)
    else
      match ReadHeaderLine(lines[i], contentLength)
      case EndOfHeaders => Ok((contentLength, i + 1))
      case HeaderFailed(e) => Err(e)
      case NextHeader(l) => Headers(lines, i + 1, l)
  }

  /**
   * `receive_server_message`: the header lines the reader returns, then
   * `read_exact` of the announced length from the bytes that follow them.
   * The result is the body and how many header lines were read.
   */
  function ReceiveMessage(lines: seq<seq<byte>>, rest: seq<byte>): (r: Result<(seq<byte>, nat), ReceiveError>)
    ensures r.Ok? ==> ValidUtf8(r.value.0) && |r.value.0| <= |rest| && r.value.0 == rest[..|r.value.0|]
    ensures r.Ok? ==> 0 < r.value.1 <= |lines| && lines[r.value.1 - 1] == CRLF
  {
    match Headers(lines, 0, None)
    case Err(e) => Err(e)
    case Ok((None, _)) => Err(MissingContentLength)
    case Ok((Some(n), count)) =>
      if n > |rest| then Err(ShortBody)
      else
        var body := rest[..n];
        if !ValidUtf8(body) then Err(InvalidUtf8Body) else Ok((body, count))
  }

  /** The line `Content-Length: ` followed by `digits` and the line ending. */
  function HeaderLine(digits: seq<byte>): seq<byte>
  {
    ContentLengthKey + [Colon, Space] + digits + CRLF
  }

  /** The line `handle_input` writes for a message of `n` bytes. */
  function ContentLengthLine(n: nat): seq<byte>
  {
    HeaderLine(Decimal(n))
  }

  /** `handle_input`'s framing of an encoded message: the header, a blank line, the bytes. */
  function Frame(body: seq<byte>): (f: seq<byte>)
    ensures |f| == |ContentLengthLine(|body|)| + 2 + |body|
  {
    ContentLengthLine(|body|) + CRLF + body
  }

  lemma HeaderLineIsAscii(digits: seq<byte>)
    requires AllDigits(digits)
    ensures IsAscii(HeaderLine(digits))
    ensures forall i | 0 <= i < |HeaderLine(digits)| - 1 :: HeaderLine(digits)[i] != LF
  {
    var line := HeaderLine(digits);
    var prefix := ContentLengthKey + [Colon, Space];
    assert line == prefix + digits + CRLF;
    forall i | 0 <= i < |line| ensures line[i] < 0x80 && (i < |line| - 1 ==> line[i] != LF) {
      if i < |prefix| {
        assert line[i] == prefix[i];
      } else if i < |prefix| + |digits| {
        assert line[i] == digits[i - |prefix|];
      }
    }
  }

  lemma TrimHeaderLine(digits: seq<byte>)
    requires digits != [] && AllDigits(digits)
    ensures Trim(HeaderLine(digits)) == ContentLengthKey + [Colon, Space] + digits
  {
    var header := ContentLengthKey + [Colon, Space] + digits;
    var line := HeaderLine(digits);
    assert line == header + [CR, LF];
    var k := |header|;
    assert line[k - 1] == digits[|digits| - 1];
    assert line[k - 2] < 0x80 && line[k - 3] < 0x80 by {
      HeaderLineIsAscii(digits);
    }
    assert TrimEndLength(line, |line|) == k by {
      assert line[|line| - 1] == LF && line[k] == CR;
      assert SpaceEndingAt(line, k) == 0;
      assert TrimEndLength(line, |line|) == TrimEndLength(line, |line| - 1);
      assert TrimEndLength(line, |line| - 1) == TrimEndLength(line, k);
    }
    assert line[..k] == header;
    assert header[0] == 67;
    assert SpaceStartingAt(header, 0) == 0;
    assert TrimStartIndex(header, 0) == 0;
  }

  /** A well-formed line that trims to `Content-Length: ` and a number sets the length to it. */
  lemma TrimmedLineRead(line: seq<byte>, digits: seq<byte>, n: nat, contentLength: Option<nat>)
    requires ValidUtf8(line) && line != CRLF
    requires Trim(line) == ContentLengthKey + [Colon, Space] + digits
    requires ParseUsize(digits) == Some(n)
    ensures ReadHeaderLine(line, contentLength) == NextHeader(Some(n))
  {
    ContentLengthField(digits, n, contentLength);
  }

  /** The field `Content-Length: ` and a number sets the length to it. */
  lemma ContentLengthField(digits: seq<byte>, n: nat, contentLength: Option<nat>)
    requires ParseUsize(digits) == Some(n)
    ensures HeaderField(ContentLengthKey + [Colon, Space] + digits, contentLength) == NextHeader(Some(n))
  {
    SplitAfterKey(ContentLengthKey, digits);
  }

  /** The line `Content-Length: 5`, a no-break space (U+00A0, bytes C2 A0) and the line ending. */
  function NoBreakSpaceLine(): seq<byte>
  {
    ContentLengthKey + [Colon, Space, 53] + [0xC2, 0xA0] + CRLF
  }

  lemma NoBreakSpaceLineIsUtf8()
    ensures ValidUtf8(NoBreakSpaceLine())
  {
    var header := ContentLengthKey + [Colon, Space, 53];
    assert IsAscii(header);
    AsciiIsUtf8(header);
    AsciiIsUtf8(CRLF);
    var tail := [0xC2, 0xA0] + CRLF;
    assert Utf8Width(tail) == 2;
    assert tail[2..] == CRLF;
    assert ValidUtf8(tail);
    assert NoBreakSpaceLine() == header + tail;
    Utf8Concat(header, tail);
  }

  lemma NoBreakSpaceLineTrims()
    ensures Trim(NoBreakSpaceLine()) == ContentLengthKey + [Colon, Space] + [53]
  {
    var header := ContentLengthKey + [Colon, Space, 53];
    var line := NoBreakSpaceLine();
    var k := |header|;
    assert line == header + [0xC2, 0xA0, CR, LF];
    assert line[..k] == header;
    assert line[k - 1] == 53 && line[k - 2] == Space && line[k - 3] == Colon;
    assert TrimEndLength(line, k + 4) == TrimEndLength(line, k + 3) by {
      assert line[k + 3] == LF;
    }
    assert TrimEndLength(line, k + 3) == TrimEndLength(line, k + 2) by {
      assert line[k + 2] == CR;
    }
    assert TrimEndLength(line, k + 2) == TrimEndLength(line, k) by {
      assert line[k] == 0xC2 && line[k + 1] == 0xA0;
    }
    assert TrimEndLength(line, k) == k by {
      assert SpaceEndingAt(line, k) == 0;
    }
    assert SpaceStartingAt(header, 0) == 0;
  }

  lemma FiveParses()
    ensures ParseUsize([53]) == Some(5)
  {
    assert DigitsValue([53]) == DigitsValue([]) * 10 + 5;
  }

  /**
   * A Content-Length value followed by a no-break space still reads as the
   * length, because the trim removes every White_Space character.
   */
  lemma NoBreakSpaceTrimmed(contentLength: Option<nat>)
    ensures ReadHeaderLine(NoBreakSpaceLine(), contentLength) == NextHeader(Some(5))
  {
    NoBreakSpaceLineIsUtf8();
    NoBreakSpaceLineTrims();
    FiveParses();
    TrimmedLineRead(NoBreakSpaceLine(), [53], 5, contentLength);
  }

  /** The line `Content-Length: n` sets the length, whatever was seen before. */
  lemma HeaderLineRead(digits: seq<byte>, n: nat, contentLength: Option<nat>)
    requires digits != [] && AllDigits(digits) && ParseUsize(digits) == Some(n)
    ensures ReadHeaderLine(HeaderLine(digits), contentLength) == NextHeader(Some(n))
  {
    HeaderLineIsAscii(digits);
    AsciiIsUtf8(HeaderLine(digits));
    TrimHeaderLine(digits);
    ContentLengthField(digits, n, contentLength);
  }

  /** The bare line ending ends the headers. */
  lemma LineEndingEndsHeaders(contentLength: Option<nat>)
    ensures ReadHeaderLine(CRLF, contentLength) == EndOfHeaders
  {
    AsciiIsUtf8(CRLF);
  }

  /** A Content-Length line is a line of its own and sets the length, whatever was seen before. */
  lemma ContentLengthLineRead(n: nat, contentLength: Option<nat>)
    requires n < TwoTo64
    ensures IsLine(ContentLengthLine(n))
    ensures ReadHeaderLine(ContentLengthLine(n), contentLength) == NextHeader(Some(n))
  {
    DecimalParses(n);
    var line := ContentLengthLine(n);
    HeaderLineIsAscii(Decimal(n));
    HeaderLineRead(Decimal(n), n, contentLength);
    assert line[|line| - 1] == LF;
  }

  /** The lines a reader returns from a framed message, and the bytes that follow them. */
  lemma FrameLines(body: seq<byte>)
    requires |body| < TwoTo64
    ensures Frame(body) == ContentLengthLine(|body|) + CRLF + body
    ensures IsLine(ContentLengthLine(|body|)) && IsLine(CRLF)
  {
    ContentLengthLineRead(|body|, None);
  }

  /** Headers that announce `n` bytes, followed by `n` bytes of UTF-8, make a message. */
  lemma BodyAfterHeaders(lines: seq<seq<byte>>, rest: seq<byte>, n: nat, count: nat)
    requires Headers(lines, 0, None) == Ok((Some(n), count))
    requires n <= |rest| && ValidUtf8(rest[..n])
    ensures ReceiveMessage(lines, rest) == Ok((rest[..n], count))
  {
  }

  /** A Content-Length line, then the bare line ending: the headers end with that length. */
  lemma FrameHeaders(n: nat, more: seq<seq<byte>>)
    requires n < TwoTo64
    ensures Headers([ContentLengthLine(n), CRLF] + more, 0, None) == Ok((Some(n), 2))
  {
    var lines := [ContentLengthLine(n), CRLF] + more;
    ContentLengthLineRead(n, None);
    LineEndingEndsHeaders(Some(n));
    assert Headers(lines, 1, Some(n)) == Ok((Some(n), 2));
  }

  /** Reading the lines of a framed message returns its bytes, after both lines. */
  lemma FrameRoundTrip(body: seq<byte>, rest: seq<byte>, more: seq<seq<byte>>)
    requires ValidUtf8(body) && |body| < TwoTo64
    ensures ReceiveMessage([ContentLengthLine(|body|), CRLF] + more, body + rest) == Ok((body, 2))
  {
    FrameHeaders(|body|, more);
    assert (body + rest)[..|body|] == body;
    BodyAfterHeaders([ContentLengthLine(|body|), CRLF] + more, body + rest, |body|, 2);
  }

  /** Each line that sets the length overrides the one before: the last one counts. */
  lemma LastContentLengthWins(a: nat, b: nat, more: seq<seq<byte>>)
    requires a < TwoTo64 && b < TwoTo64
    ensures var lines := [ContentLengthLine(a), ContentLengthLine(b)] + more;
      Headers(lines, 0, None) == Headers(lines, 2, Some(b))
  {
    var lines := [ContentLengthLine(a), ContentLengthLine(b)] + more;
    ContentLengthLineRead(a, None);
    ContentLengthLineRead(b, Some(a));
    assert Headers(lines, 0, None) == Headers(lines, 1, Some(a));
  }

  /** Headers read to the end of the stream are an error. */
  lemma {:induction false} NoBlankLineIsError(lines: seq<seq<byte>>, i: nat, contentLength: Option<nat>)
    requires i <= |lines|
    requires forall j | i <= j < |lines| :: lines[j] != CRLF
    ensures Headers(lines, i, contentLength).Err?
    decreases |lines| - i
  {
    if i < |lines| && lines[i] != [] {
      match ReadHeaderLine(lines[i], contentLength)
      case EndOfHeaders =>
      case HeaderFailed(_) =>
      case NextHeader(l) => NoBlankLineIsError(lines, i + 1, l);
    }
  }

  /** Headers without a Content-Length are an error, and so is a stream that ends first. */
  lemma HeaderErrors(rest: seq<byte>, more: seq<seq<byte>>)
    ensures ReceiveMessage([CRLF] + more, rest) == Err(MissingContentLength)
    ensures ReceiveMessage([], rest) == Err(StreamClosed)
  {
    LineEndingEndsHeaders(None);
  }

  /** A body shorter than announced is an error. */
  lemma ShortBodyIsError(n: nat, rest: seq<byte>, more: seq<seq<byte>>)
    requires n < TwoTo64 && |rest| < n
    ensures ReceiveMessage([ContentLengthLine(n), CRLF] + more, rest) == Err(ShortBody)
  {
    FrameHeaders(n, more);
  }

  /** `receive_server_message`'s loop, reading line after line, then the body. */
  method ReceiveServerMessage(lines: seq<seq<byte>>, rest: seq<byte>) returns (r: Result<(seq<byte>, nat), ReceiveError>)
    ensures r == ReceiveMessage(lines, rest)
  {
    var contentLength: Option<nat> := None;
    var i: nat := 0;
    while true
      invariant i <= |lines|
      invariant Headers(lines, i, contentLength) == Headers(lines, 0, None)
      decreases |lines| - i
    {
      if i == |lines| || lines[i] == [] {
        return Err(StreamClosed);
      }
      var line := lines[i];
      if !ValidUtf8(line) {
        return Err(InvalidUtf8Line);
      }
      i := i + 1;
      if line == CRLF {
        break;
      }
      var parts := SplitOnce(Trim(line));
      if parts.Some? && parts.value.0 == ContentLengthKey {
        var n := ParseUsize(parts.value.1);
        if n.None? {
          return Err(InvalidContentLength);
        }
        contentLength := n;
      }
    }
    if contentLength.None? {
      return Err(MissingContentLength);
    }
    var n := contentLength.value;
    if n > |rest| {
      return Err(ShortBody);
    }
    var content := rest[..n];
    if !ValidUtf8(content) {
      return Err(InvalidUtf8Body);
    }
    return Ok((content, i));
  }

  // ------------------------------------------------------------- Messages

  /**
   * A message with its encoded text. A response's `errorFormat` is the format
   * string of the error its body carries, when the body reads as one.
   */
  datatype Message =
    | Request(seq_: nat, text: seq<byte>)
    | Response(requestSeq: nat, success: bool, errorFormat: Option<string>, text: seq<byte>)
    | Event(text: seq<byte>)

  /** `process_response`: a failed response is always an error, with the adapter's message when there is one. */
  function ProcessResponse(m: Message): (r: Result<Message, string>)
    requires m.Response?
    ensures r.Ok? <==> m.success
    ensures r.Ok? ==> r.value == m
    ensures !m.success && m.errorFormat.Some? ==> r == Err(m.errorFormat.value)
    ensures !m.success && m.errorFormat.None? ==> r == Err("Received error response from adapter")
  {
    if m.success then Ok(m)
    else if m.errorFormat.Some? then Err(m.errorFormat.value)
    else Err("Received error response from adapter")
  }

  /** The two request maps: senders of requests about to be sent, and of requests sent. */
  datatype RequestMaps = RequestMaps(current: map<nat, nat>, pending: map<nat, nat>)

  /** `handle_input`'s bookkeeping: a request's sender moves to the pending map under the same sequence number. */
  function OnSend(maps: RequestMaps, m: Message): (r: RequestMaps)
    ensures m.Request? && m.seq_ in maps.current ==>
      r.current == maps.current - {m.seq_} && r.pending == maps.pending[m.seq_ := maps.current[m.seq_]]
    ensures !(m.Request? && m.seq_ in maps.current) ==> r == maps
  {
    if m.Request? && m.seq_ in maps.current then
      RequestMaps(maps.current - {m.seq_}, maps.pending[m.seq_ := maps.current[m.seq_]])
    else maps
  }

  /** What becomes of a message from the adapter. */
  datatype Delivery = Delivered(sender: nat, result: Result<Message, string>) | Forwarded(message: Message)

  /** `handle_output`'s dispatch: a response to a pending request goes to its sender, once; anything else is forwarded. */
  function OnReceive(maps: RequestMaps, m: Message): (r: (RequestMaps, Delivery))
    ensures m.Response? && m.requestSeq in maps.pending ==>
      r.0 == maps.(pending := maps.pending - {m.requestSeq})
      && r.1 == Delivered(maps.pending[m.requestSeq], ProcessResponse(m))
    ensures !(m.Response? && m.requestSeq in maps.pending) ==> r == (maps, Forwarded(m))
  {
    if m.Response? && m.requestSeq in maps.pending then
      (maps.(pending := maps.pending - {m.requestSeq}), Delivered(maps.pending[m.requestSeq], ProcessResponse(m)))
    else (maps, Forwarded(m))
  }

  /** A request registered as current, sent, and answered reaches its sender, and no sender is left for it. */
  lemma RequestAnswered(maps: RequestMaps, seqNo: nat, text: seq<byte>, response: Message)
    requires seqNo in maps.current && seqNo !in maps.pending
    requires response.Response? && response.requestSeq == seqNo
    ensures var after := OnReceive(OnSend(maps, Request(seqNo, text)), response);
      after.1 == Delivered(maps.current[seqNo], ProcessResponse(response))
      && seqNo !in after.0.current && seqNo !in after.0.pending
  {
  }

  /** A second response to an answered request is forwarded, not delivered again. */
  lemma AnsweredOnce(maps: RequestMaps, response: Message)
    requires response.Response? && response.requestSeq in maps.pending
    ensures OnReceive(OnReceive(maps, response).0, response).1 == Forwarded(response)
  {
  }

  class TransportDelegate {
    var current: map<nat, nat>
    var pending: map<nat, nat>
    var serverTxOpen: bool
    var toClient: seq<Message>
    var written: seq<byte>
    var delivered: seq<Delivery>

    constructor ()
      ensures current == map[] && pending == map[] && !serverTxOpen
      ensures toClient == [] && written == [] && delivered == []
    {
      current := map[];
      pending := map[];
      serverTxOpen := false;
      toClient := [];
      written := [];
      delivered := [];
    }

    function Maps(): RequestMaps
      reads this
    {
      RequestMaps(current, pending)
    }

    /**
     * The end of `start`, once the adapter's reader and writer tasks are
     * spawned: the sender towards the adapter is stored, so messages can
     * be sent from then on.
     */
    method Start()
      modifies this
      ensures serverTxOpen
      ensures current == old(current) && pending == old(pending)
      ensures toClient == old(toClient) && written == old(written) && delivered == old(delivered)
    {
      serverTxOpen := true;
    }

    /**
     * The client's `request`: before the request is sent, its sender is
     * registered under its sequence number among the current requests.
     */
    method RegisterRequest(seqNo: nat, sender: nat)
      modifies this
      ensures current == old(current)[seqNo := sender]
      ensures pending == old(pending) && serverTxOpen == old(serverTxOpen)
      ensures toClient == old(toClient) && written == old(written) && delivered == old(delivered)
    {
      current := current[seqNo := sender];
    }

    method AddPendingRequest(seqNo: nat, sender: nat)
      modifies this
      ensures pending == old(pending)[seqNo := sender]
      ensures current == old(current) && serverTxOpen == old(serverTxOpen)
      ensures toClient == old(toClient) && written == old(written) && delivered == old(delivered)
    {
      pending := pending[seqNo := sender];
    }

    /** `cancel_pending_request`: only that sequence number goes. */
    method CancelPendingRequest(seqNo: nat)
      modifies this
      ensures pending == old(pending) - {seqNo}
      ensures current == old(current) && serverTxOpen == old(serverTxOpen)
      ensures toClient == old(toClient) && written == old(written) && delivered == old(delivered)
    {
      pending := pending - {seqNo};
    }

    /** `send_message`: queued for the adapter, or an error once the sender is gone. */
    method SendMessage(m: Message) returns (r: Result<(), string>)
      modifies this
      ensures !old(serverTxOpen) ==> r == Err("Server tx already dropped") && toClient == old(toClient)
      ensures old(serverTxOpen) ==> r == Ok(()) && toClient == old(toClient) + [m]
      ensures current == old(current) && pending == old(pending) && serverTxOpen == old(serverTxOpen)
      ensures written == old(written) && delivered == old(delivered)
    {
      if !serverTxOpen {
        return Err("Server tx already dropped");
      }
      toClient := toClient + [m];
      return Ok(());
    }

    /** One turn of `handle_input`: move the request's sender, then write the framed text. */
    method HandleInput(m: Message)
      modifies this
      ensures Maps() == OnSend(old(Maps()), m)
      ensures written == old(written) + Frame(m.text)
      ensures serverTxOpen == old(serverTxOpen) && toClient == old(toClient) && delivered == old(delivered)
    {
      if m.Request? && m.seq_ in current {
        var sender := current[m.seq_];
        current := current - {m.seq_};
        pending := pending[m.seq_ := sender];
      }
      written := written + Frame(m.text);
    }

    /** One turn of `handle_output`, for a message read from the adapter. */
    method HandleOutput(m: Message)
      modifies this
      ensures Maps() == OnReceive(old(Maps()), m).0
      ensures delivered == old(delivered) + [OnReceive(old(Maps()), m).1]
      ensures serverTxOpen == old(serverTxOpen) && toClient == old(toClient) && written == old(written)
    {
      if m.Response? && m.requestSeq in pending {
        var sender := pending[m.requestSeq];
        pending := pending - {m.requestSeq};
        delivered := delivered + [Delivered(sender, ProcessResponse(m))];
      } else {
        delivered := delivered + [Forwarded(m)];
      }
    }

    /**
     * A request registered, written to the adapter and answered: the
     * response reaches the request's own sender, and neither map keeps it.
     */
    method RequestExchange(seqNo: nat, sender: nat, text: seq<byte>, response: Message)
      requires seqNo !in pending
      requires response.Response? && response.requestSeq == seqNo
      modifies this
      ensures delivered == old(delivered) + [Delivered(sender, ProcessResponse(response))]
      ensures seqNo !in current && seqNo !in pending
      ensures written == old(written) + Frame(text)
    {
      RegisterRequest(seqNo, sender);
      ghost var registered := Maps();
      HandleInput(Request(seqNo, text));
      HandleOutput(response);
      RequestAnswered(registered, seqNo, text, response);
    }

    /** `shutdown`: the sender is dropped and both request maps are cleared. */
    method Shutdown()
      modifies this
      ensures !serverTxOpen && current == map[] && pending == map[]
      ensures toClient == old(toClient) && written == old(written) && delivered == old(delivered)
    {
      serverTxOpen := false;
      current := map[];
      pending := map[];
    }
  }
}

/** The portable lease token of `InMemoryLease` and `AzureLease`, at the level of its
    decoded text: six lines, each written by `StringBuilder.AppendLine` (a line and then
    the new line, "\n"), holding the content type, the id, `LastAcquired` as Unix
    milliseconds, the actor name, the duration in milliseconds and the name, with
    `<no value>` standing for an absent value. Reading splits the text at new lines
    dropping EMPTY entries, so an empty or null field shifts the fields after it. The
    base64url layer around this text is not part of this model. */
module TokenText {
  import opened Wrappers
  import opened Time
  import opened Decimal
  import opened Errors

  const NullString: string := "<no value>"
  /** The content types, "application/vnd.endjin.inmemoryleaseprovider.leasetoken" and
      "application/vnd.endjin.azureleaseprovider.leasetoken", written in pieces. */
  const InMemoryContentType: string := "application/" + "vnd.endjin." + "inmemory" + "lease" + "provider" + ".lease" + "token"
  const AzureContentType: string := "application/" + "vnd.endjin." + "azure" + "lease" + "provider" + ".lease" + "token"

  /** A string that can stand as one line of a token. */
  predicate IsLine(s: string) { s != "" && '\n' !in s }

  /** The text a `StringBuilder` holds after `AppendLine` of each of `lines`. */
  function JoinLines(lines: seq<string>): string
  {
    if |lines| == 0 then "" else lines[0] + "\n" + JoinLines(lines[1..])
  }

  /** `s.Split("\n")`: the pieces between new lines, empty pieces included. */
  function Segments(s: string): (segs: seq<string>)
    ensures |segs| >= 1
    ensures forall i :: 0 <= i < |segs| ==> '\n' !in segs[i]
  {
    if |s| == 0 then [""]
    else
      var rest := Segments(s[1..]);
      if s[0] == '\n' then [""] + rest else [[s[0]] + rest[0]] + rest[1..]
  }

  /** The effect of `StringSplitOptions.RemoveEmptyEntries`. */
  function RemoveEmpty(segs: seq<string>): (r: seq<string>)
    ensures |r| <= |segs|
    ensures forall i :: 0 <= i < |r| ==> r[i] != ""
  {
    if |segs| == 0 then []
    else if segs[0] == "" then RemoveEmpty(segs[1..])
    else [segs[0]] + RemoveEmpty(segs[1..])
  }

  /** `s.Split(new[] { "\n" }, StringSplitOptions.RemoveEmptyEntries)`. */
  function SplitLines(s: string): (lines: seq<string>)
    ensures forall i :: 0 <= i < |lines| ==> IsLine(lines[i])
  {
    var segs := Segments(s);
    RemoveEmptyKeepsNoNewLine(segs);
    RemoveEmpty(segs)
  }

  lemma {:induction false} RemoveEmptyKeepsNoNewLine(segs: seq<string>)
    requires forall i :: 0 <= i < |segs| ==> '\n' !in segs[i]
    ensures forall i :: 0 <= i < |RemoveEmpty(segs)| ==> '\n' !in RemoveEmpty(segs)[i]
    decreases |segs|
  {
    if |segs| > 0 {
      RemoveEmptyKeepsNoNewLine(segs[1..]);
    }
  }

  /** Splitting a line followed by a new line yields that line, then the rest. */
  lemma {:induction false} SegmentsOfLine(l: string, t: string)
    requires '\n' !in l
    ensures Segments(l + "\n" + t) == [l] + Segments(t)
    decreases |l|
  {
    if |l| == 0 {
      assert (l + "\n" + t)[1..] == t;
    } else {
      assert (l + "\n" + t)[1..] == l[1..] + "\n" + t;
      SegmentsOfLine(l[1..], t);
      assert [l[0]] + l[1..] == l;
    }
  }

  lemma {:induction false} SegmentsOfJoin(lines: seq<string>)
    requires forall i :: 0 <= i < |lines| ==> '\n' !in lines[i]
    ensures Segments(JoinLines(lines)) == lines + [""]
    decreases |lines|
  {
    if |lines| > 0 {
      SegmentsOfLine(lines[0], JoinLines(lines[1..]));
      SegmentsOfJoin(lines[1..]);
      assert lines == [lines[0]] + lines[1..];
    }
  }

  lemma {:induction false} RemoveEmptyAppend(a: seq<string>, b: seq<string>)
    ensures RemoveEmpty(a + b) == RemoveEmpty(a) + RemoveEmpty(b)
    decreases |a|
  {
    if |a| > 0 {
      assert (a + b)[1..] == a[1..] + b;
      RemoveEmptyAppend(a[1..], b);
    } else {
      assert a + b == b;
    }
  }

  /** Reading back what `AppendLine` wrote gives the lines that were written, minus the
      empty ones: the source of the field shift. */
  lemma SplitJoinedLines(lines: seq<string>)
    requires forall i :: 0 <= i < |lines| ==> '\n' !in lines[i]
    ensures SplitLines(JoinLines(lines)) == RemoveEmpty(lines)
  {
    SegmentsOfJoin(lines);
    RemoveEmptyAppend(lines, [""]);
    assert RemoveEmpty([""]) == [];
  }

  lemma {:induction false} RemoveEmptyOfLines(lines: seq<string>)
    requires forall i :: 0 <= i < |lines| ==> lines[i] != ""
    ensures RemoveEmpty(lines) == lines
    decreases |lines|
  {
    if |lines| > 0 {
      RemoveEmptyOfLines(lines[1..]);
    }
  }

  /** With no empty and no multi-line field the split undoes the join exactly. */
  lemma SplitJoinedNonEmptyLines(lines: seq<string>)
    requires forall i :: 0 <= i < |lines| ==> IsLine(lines[i])
    ensures SplitLines(JoinLines(lines)) == lines
  {
    SplitJoinedLines(lines);
    RemoveEmptyOfLines(lines);
  }

  /** The line for `LastAcquired`: its Unix milliseconds, or the null marker. */
  function TimestampLine(t: Option<Timestamp>): string
  {
    if t.Some? then IntToString(ToUnixTimeMilliseconds(t.value)) else NullString
  }

  /** The line for the actor name: a null or empty name is written as the null marker. */
  function ActorLine(a: Option<string>): string
  {
    if a.None? || a.value == "" then NullString else a.value
  }

  /** The line for the duration: `TotalMilliseconds.ToString()`, or the null marker. */
  function DurationLine(d: Option<Span>): string
  {
    if d.Some? then MillisecondsText(d.value) else NullString
  }

  /** The six lines `GetToken` appends, in order. A null id or name is an empty line. */
  function TokenLines(contentType: string, id: Option<string>, lastAcquired: Option<Timestamp>,
                      actorName: Option<string>, duration: Option<Span>, name: Option<string>): seq<string>
  {
    [contentType, id.GetOr(""), TimestampLine(lastAcquired), ActorLine(actorName), DurationLine(duration), name.GetOr("")]
  }

  /** `GetToken` before its base64url step. */
  function EncodePayload(contentType: string, id: Option<string>, lastAcquired: Option<Timestamp>,
                         actorName: Option<string>, duration: Option<Span>, name: Option<string>): string
  {
    JoinLines(TokenLines(contentType, id, lastAcquired, actorName, duration, name))
  }

  /** The fields `FromToken` restores. */
  datatype TokenFields = TokenFields(id: string, lastAcquired: Option<Timestamp>, actorName: string,
                                     duration: Option<Span>, name: string)

  /** Reading `LastAcquired`: `long.Parse` and then `DateTimeOffset.FromUnixTimeMilliseconds`,
      unless the line is the null marker. */
  function ParseTimestampLine(line: string): (r: Result<Option<Timestamp>, Error>)
    ensures line == NullString ==> r == Success(None)
  {
    if line == NullString then Success(None)
    else match ParseLong(line)
      case NotANumber => Failure(Format)
      case OutOfRange => Failure(Overflow)
      case Number(ms) =>
        match FromUnixTimeMilliseconds(ms)
        case None => Failure(ArgumentOutOfRange)
        case Some(t) => Success(Some(t))
  }

  /** Reading the duration: `long.Parse` and then `TimeSpan.FromMilliseconds`, unless the
      line is the null marker. */
  function ParseDurationLine(line: string): (r: Result<Option<Span>, Error>)
    ensures line == NullString ==> r == Success(None)
  {
    if line == NullString then Success(None)
    else match ParseLong(line)
      case NotANumber => Failure(Format)
      case OutOfRange => Failure(Overflow)
      case Number(ms) =>
        match SpanFromMilliseconds(ms)
        case None => Failure(Overflow)
        case Some(d) => Success(Some(d))
  }

  /** The two readers assign the policy's properties in different orders, which decides
      which error a short token raises: `InMemoryLease` reads the name (line 5) before the
      actor name and duration, `AzureLease` reads it last. */
  datatype FieldOrder = NameFirst | NameLast

  /** `FromToken` after its base64url step. */
  function DecodePayload(contentType: string, order: FieldOrder, payload: string): Result<TokenFields, Error>
  {
    DecodeLines(contentType, order, SplitLines(payload))
  }

  /** `FromToken` on the split lines: index errors for missing lines, the content-type
      comparison, then the fields in the reader's order. */
  function DecodeLines(contentType: string, order: FieldOrder, lines: seq<string>): (r: Result<TokenFields, Error>)
    ensures r.Success? ==> |lines| >= 6 && lines[0] == contentType
    ensures r.Success? ==> r.value.id == lines[1] && r.value.actorName == lines[3] && r.value.name == lines[5]
    ensures r.Success? ==> ParseTimestampLine(lines[2]) == Success(r.value.lastAcquired)
                           && ParseDurationLine(lines[4]) == Success(r.value.duration)
    ensures |lines| > 0 && lines[0] != contentType ==> r == Failure(Tokenization)
  {
    if |lines| == 0 then Failure(IndexOutOfRange)
    else if lines[0] != contentType then Failure(Tokenization)
    else if |lines| < 3 then Failure(IndexOutOfRange)
    else match ParseTimestampLine(lines[2])
      case Failure(e) => Failure(e)
      case Success(lastAcquired) =>
        match order
        case NameFirst =>
          if |lines| < 6 then Failure(IndexOutOfRange)
          else (match ParseDurationLine(lines[4])
            case Failure(e) => Failure(e)
            case Success(duration) => Success(TokenFields(lines[1], lastAcquired, lines[3], duration, lines[5])))
        case NameLast =>
          if |lines| < 5 then Failure(IndexOutOfRange)
          else match ParseDurationLine(lines[4])
            case Failure(e) => Failure(e)
            case Success(duration) =>
              if |lines| < 6 then Failure(IndexOutOfRange)
              else Success(TokenFields(lines[1], lastAcquired, lines[3], duration, lines[5]))
  }

  /** The characters `long.ToString()` writes. */
  lemma IntToStringIsLine(i: int)
    ensures IsLine(IntToString(i)) && IntToString(i) != NullString
  {
    NullStringIsLine();
    var s := IntToString(i);
    assert s[0] != '<';
  }

  /** A time with its sub-millisecond ticks dropped. */
  function TruncatedToMillisecond(t: Option<Timestamp>): (r: Option<Timestamp>)
    ensures r.Some? <==> t.Some?
    ensures t.Some? ==> r.value <= t.value < r.value + TicksPerMillisecond && r.value % TicksPerMillisecond == 0
  {
    if t.Some? then Some(t.value - t.value % TicksPerMillisecond) else None
  }

  /** The token's `LastAcquired` line reads back as the time truncated to the millisecond. */
  lemma TimestampLineRoundTrip(t: Option<Timestamp>)
    ensures IsLine(TimestampLine(t))
    ensures ParseTimestampLine(TimestampLine(t)) == Success(TruncatedToMillisecond(t))
  {
    if t.Some? {
      var ms := ToUnixTimeMilliseconds(t.value);
      IntToStringIsLine(ms);
      ParseIntToString(ms);
      UnixMillisecondsRoundTrip(t.value);
    }
  }

  /** A whole-millisecond duration line reads back as the same duration. */
  lemma DurationLineRoundTrip(d: Option<Span>)
    requires d.Some? ==> IsWholeMilliseconds(d.value)
    ensures IsLine(DurationLine(d))
    ensures ParseDurationLine(DurationLine(d)) == Success(d)
  {
    if d.Some? {
      var ms := d.value / TicksPerMillisecond;
      WholeMillisecondsText(d.value);
      IntToStringIsLine(ms);
      ParseIntToString(ms);
      SpanMillisecondsRoundTrip(d.value);
    }
  }

  /** What the actor name becomes after a round trip: itself, or the literal null marker
      when it was null or empty. */
  function DecodedActorName(a: Option<string>): (s: string)
    ensures a.None? || a.value == "" ==> s == "<no value>"
    ensures a.Some? && a.value != "" ==> s == a.value
  {
    ActorLine(a)
  }

  /** Six lines with the right content type and readable numbers decode field by field. */
  lemma DecodeSixLines(contentType: string, order: FieldOrder, lines: seq<string>,
                       lastAcquired: Option<Timestamp>, duration: Option<Span>)
    requires |lines| == 6 && lines[0] == contentType
    requires ParseTimestampLine(lines[2]) == Success(lastAcquired)
    requires ParseDurationLine(lines[4]) == Success(duration)
    ensures DecodeLines(contentType, order, lines)
            == Success(TokenFields(lines[1], lastAcquired, lines[3], duration, lines[5]))
  {
  }

  /** The six lines of a token whose fields are single lines come back from the split. */
  lemma TokenLinesSplitBack(contentType: string, id: string, lastAcquired: Option<Timestamp>,
                            actorName: Option<string>, duration: Option<Span>, name: string)
    requires IsLine(contentType) && IsLine(id) && IsLine(name)
    requires actorName.Some? ==> '\n' !in actorName.value
    requires duration.Some? ==> IsWholeMilliseconds(duration.value)
    ensures SplitLines(EncodePayload(contentType, Some(id), lastAcquired, actorName, duration, Some(name)))
            == TokenLines(contentType, Some(id), lastAcquired, actorName, duration, Some(name))
  {
    var tl, al, dl := TimestampLine(lastAcquired), ActorLine(actorName), DurationLine(duration);
    if lastAcquired.Some? {
      IntToStringIsLine(ToUnixTimeMilliseconds(lastAcquired.value));
    }
    if duration.Some? {
      WholeMillisecondsText(duration.value);
      IntToStringIsLine(duration.value / TicksPerMillisecond);
    }
    NullStringIsLine();
    assert IsLine(tl) && IsLine(al) && IsLine(dl);
    var lines := [contentType, id, tl, al, dl, name];
    SplitJoinedNonEmptyLines(lines);
    assert lines == TokenLines(contentType, Some(id), lastAcquired, actorName, duration, Some(name));
  }

  /** The round trip of the token: decoding what was encoded restores the id, the name,
      the duration and `LastAcquired` (truncated to the millisecond), and the actor name
      up to the null-marker rule, provided the id, name and actor name are single lines,
      the id and name are not empty, and the duration is a whole number of milliseconds. */
  lemma {:induction false} DecodeEncode(contentType: string, order: FieldOrder, id: string,
                                        lastAcquired: Option<Timestamp>, actorName: Option<string>,
                                        duration: Option<Span>, name: string)
    requires IsLine(contentType) && IsLine(id) && IsLine(name)
    requires actorName.Some? ==> '\n' !in actorName.value
    requires duration.Some? ==> IsWholeMilliseconds(duration.value)
    ensures DecodePayload(contentType, order,
                          EncodePayload(contentType, Some(id), lastAcquired, actorName, duration, Some(name)))
            == Success(TokenFields(id, TruncatedToMillisecond(lastAcquired), DecodedActorName(actorName), duration, name))
  {
    var payload := EncodePayload(contentType, Some(id), lastAcquired, actorName, duration, Some(name));
    var lines := TokenLines(contentType, Some(id), lastAcquired, actorName, duration, Some(name));
    TokenLinesSplitBack(contentType, id, lastAcquired, actorName, duration, name);
    assert DecodePayload(contentType, order, payload) == DecodeLines(contentType, order, lines);
    TimestampLineRoundTrip(lastAcquired);
    DurationLineRoundTrip(duration);
    DecodeSixLines(contentType, order, lines, TruncatedToMillisecond(lastAcquired), duration);
  }

  /** Splitting a text that starts with a line keeps that line at the head. */
  lemma SplitLinesOfLine(l: string, t: string)
    requires IsLine(l)
    ensures SplitLines(l + "\n" + t) == [l] + SplitLines(t)
  {
    SegmentsOfLine(l, t);
    var segs := [l] + Segments(t);
    assert segs[1..] == Segments(t);
  }

  /** A token written for one content type is refused by the reader of any other with a
      `TokenizationException`, whatever its fields. */
  lemma ForeignTokenRefused(expected: string, actual: string, order: FieldOrder,
                            id: Option<string>, lastAcquired: Option<Timestamp>,
                            actorName: Option<string>, duration: Option<Span>, name: Option<string>)
    requires IsLine(actual) && expected != actual
    ensures DecodePayload(expected, order, EncodePayload(actual, id, lastAcquired, actorName, duration, name))
            == Failure(Tokenization)
  {
    var lines := TokenLines(actual, id, lastAcquired, actorName, duration, name);
    assert JoinLines(lines) == actual + "\n" + JoinLines(lines[1..]);
    SplitLinesOfLine(actual, JoinLines(lines[1..]));
  }

  /** Both content types are single lines. */
  lemma ContentTypesAreLines()
    ensures IsLine(InMemoryContentType) && IsLine(AzureContentType)
  {
    InMemoryContentTypeIsLine();
    AzureContentTypeIsLine();
  }

  lemma InMemoryContentTypeIsLine()
    ensures IsLine(InMemoryContentType)
  {
    assert '\n' !in "application/";
    assert '\n' !in "vnd.endjin.";
    assert '\n' !in "inmemory";
    assert '\n' !in "lease";
    assert '\n' !in "provider";
    assert '\n' !in ".lease";
    assert '\n' !in "token";
  }

  lemma AzureContentTypeIsLine()
    ensures IsLine(AzureContentType)
  {
    assert '\n' !in "application/";
    assert '\n' !in "vnd.endjin.";
    assert '\n' !in "azure";
    assert '\n' !in "lease";
    assert '\n' !in "provider";
    assert '\n' !in ".lease";
    assert '\n' !in "token";
  }

  /** The null marker is a single line. */
  lemma NullStringIsLine()
    ensures IsLine(NullString)
  {
    assert '\n' !in "<no value>";
  }

  /** In particular an in-memory token is not an Azure token, nor the other way round. */
  lemma CrossProviderTokensRefused(order: FieldOrder, id: Option<string>, lastAcquired: Option<Timestamp>,
                                   actorName: Option<string>, duration: Option<Span>, name: Option<string>)
    ensures DecodePayload(AzureContentType, order, EncodePayload(InMemoryContentType, id, lastAcquired, actorName, duration, name))
            == Failure(Tokenization)
    ensures DecodePayload(InMemoryContentType, order, EncodePayload(AzureContentType, id, lastAcquired, actorName, duration, name))
            == Failure(Tokenization)
  {
    assert |InMemoryContentType| != |AzureContentType|;
    ContentTypesAreLines();
    ForeignTokenRefused(AzureContentType, InMemoryContentType, order, id, lastAcquired, actorName, duration, name);
    ForeignTokenRefused(InMemoryContentType, AzureContentType, order, id, lastAcquired, actorName, duration, name);
  }
}

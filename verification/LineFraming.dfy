/** Newline framing with a length cap, read from a stream that arrives in chunks; each `char` is one byte. */
module LineFraming {
  import opened Text

  const MAX_LINE_BYTES := 2 * 1024 * 1024

  /** Carriage returns are dropped wherever they appear. */
  function NonCr(s: string): (r: string)
    ensures |r| <= |s|
    ensures '\r' !in r
    ensures '\r' !in s ==> r == s
  {
    if s == "" then ""
    else if s[0] == '\r' then NonCr(s[1..])
    else [s[0]] + NonCr(s[1..])
  }

  lemma {:induction false} NonCrConcat(a: string, b: string)
    ensures NonCr(a + b) == NonCr(a) + NonCr(b)
  {
    if a == "" {
      assert a + b == b;
    } else {
      assert (a + b)[1..] == a[1..] + b;
      NonCrConcat(a[1..], b);
    }
  }

  /** Outcome of reading one line off a byte stream. */
  datatype Read = Line(content: string, rest: string) | CleanEof | ClosedMidLine | TooLong

  /** What one read means for the bytes of the stream, however they arrive. */
  function ReadLine(stream: string): Read {
    var end := IndexOf(stream, '\n');
    var content := NonCr(stream[..end]);
    if |content| > MAX_LINE_BYTES then TooLong
    else if end < |stream| then Line(content, stream[end + 1..])
    else if content == "" then CleanEof
    else ClosedMidLine
  }

  function Concat(chunks: seq<string>): string {
    if chunks == [] then "" else chunks[0] + Concat(chunks[1..])
  }

  /** A buffered reader over chunks still to arrive. */
  class BufReader {
    var buffered: string
    var pending: seq<string>

    ghost predicate Valid()
      reads this
    {
      "" !in pending
    }

    ghost function Stream(): string
      reads this
    {
      buffered + Concat(pending)
    }

    constructor (chunks: seq<string>)
      requires "" !in chunks
      ensures Valid() && Stream() == Concat(chunks)
    {
      buffered, pending := "", chunks;
    }

    /** An empty result means the end of the stream. */
    method FillBuf() returns (available: string)
      requires Valid()
      modifies this
      ensures Valid() && Stream() == old(Stream())
      ensures available == buffered && (available == "" ==> Stream() == "")
    {
      if buffered == "" && pending != [] {
        buffered, pending := pending[0], pending[1..];
      }
      return buffered;
    }

    method Consume(n: nat)
      requires Valid() && n <= |buffered|
      modifies this`buffered
      ensures Valid() && buffered == old(buffered)[n..] && Stream() == old(Stream())[n..]
    {
      buffered := buffered[n..];
    }
  }

  method AppendNonCr(raw: string, bytes: string) returns (out: string)
    ensures out == raw + NonCr(bytes)
  {
    out := raw;
    for i := 0 to |bytes|
      invariant raw + NonCr(bytes) == out + NonCr(bytes[i..])
    {
      assert bytes[i..][1..] == bytes[i + 1..];
      if bytes[i] != '\r' {
        out := out + [bytes[i]];
      }
    }
  }

  datatype ServerError = ServerTooLong | ServerClosedMidLine

  /** A line already found at `end` in what has arrived is the stream's first line. */
  lemma ReadFound(seen: string, available: string, later: string, end: nat)
    requires '\n' !in seen && end == IndexOf(available, '\n') && end < |available|
    ensures var content := NonCr(seen) + NonCr(available[..end]);
            ReadLine(seen + (available + later)) ==
            if |content| > MAX_LINE_BYTES then TooLong else Line(content, (available + later)[end + 1..])
  {
    var stream := seen + (available + later);
    var front, back := seen + available[..end], (available + later)[end + 1..];
    assert stream == front + ['\n'] + back;
    IndexOfFirst(front, '\n', back);
    NonCrConcat(seen, available[..end]);
    assert stream[..|front|] == front && stream[|front| + 1..] == back;
  }

  /** The stream ended before a newline. */
  lemma ReadAtEnd(seen: string)
    requires '\n' !in seen && |NonCr(seen)| <= MAX_LINE_BYTES
    ensures ReadLine(seen) == if NonCr(seen) == "" then CleanEof else ClosedMidLine
  {
    assert IndexOf(seen, '\n') == |seen| && seen[..|seen|] == seen;
  }

  lemma {:induction false} OnlyCrIsNothing(s: string)
    ensures NonCr(s) == "" <==> forall c | c in s :: c == '\r'
  {
    if s != "" {
      OnlyCrIsNothing(s[1..]);
      assert s == [s[0]] + s[1..];
      assert s[0] in s && forall c | c in s[1..] :: c in s;
    }
  }

  /** The end of a stream counts as clean exactly when nothing but carriage returns came before it. */
  lemma CleanEndIff(stream: string)
    ensures ReadLine(stream).CleanEof? <==> forall c | c in stream :: c == '\r'
  {
    var end := IndexOf(stream, '\n');
    OnlyCrIsNothing(stream);
    if end == |stream| {
      assert stream[..end] == stream;
    } else {
      assert stream[end] in stream;
    }
  }

  /** Too much content before any newline is too much whatever follows. */
  lemma TooLongWhateverFollows(seen: string, later: string)
    requires '\n' !in seen && |NonCr(seen)| > MAX_LINE_BYTES
    ensures ReadLine(seen + later) == TooLong
  {
    var stream := seen + later;
    var end := IndexOf(stream, '\n');
    assert forall i | 0 <= i < |seen| :: stream[i] == seen[i];
    assert stream[..end] == seen + stream[|seen|..end];
    NonCrConcat(seen, stream[|seen|..end]);
  }

  /** The server's reader: its answer is a function of the byte stream alone, not of its chunks. */
  method ReadLineCapped(reader: BufReader) returns (result: Result<Option<string>, ServerError>)
    requires reader.Valid()
    modifies reader
    ensures reader.Valid()
    ensures match ReadLine(old(reader.Stream()))
            case Line(content, rest) => result == Ok(Some(content)) && reader.Stream() == rest
            case CleanEof => result == Ok(None) && reader.Stream() == ""
            case ClosedMidLine => result == Err(ServerClosedMidLine) && reader.Stream() == ""
            case TooLong => result == Err(ServerTooLong)
  {
    var raw := "";
    ghost var seen, stream := "", reader.Stream();
    while true
      invariant reader.Valid()
      invariant stream == seen + reader.Stream() && '\n' !in seen && raw == NonCr(seen) && |raw| <= MAX_LINE_BYTES
      decreases |reader.Stream()|
    {
      var available := reader.FillBuf();
      if available == "" {
        assert stream == seen;
        ReadAtEnd(seen);
        return if raw == "" then Ok(None) else Err(ServerClosedMidLine);
      }
      var end := IndexOf(available, '\n');
      if end < |available| {
        ReadFound(seen, available, Concat(reader.pending), end);
        raw := AppendNonCr(raw, available[..end]);
        reader.Consume(end + 1);
        return if |raw| > MAX_LINE_BYTES then Err(ServerTooLong) else Ok(Some(raw));
      }
      raw, seen := TakeChunk(reader, raw, seen);
      if |raw| > MAX_LINE_BYTES {
        TooLongWhateverFollows(seen, reader.Stream());
        return Err(ServerTooLong);
      }
    }
  }

  /** A chunk without a newline joins the line whole. */
  method TakeChunk(reader: BufReader, raw: string, ghost seen: string) returns (raw': string, ghost seen': string)
    requires reader.Valid() && reader.buffered != "" && '\n' !in reader.buffered && '\n' !in seen && raw == NonCr(seen)
    modifies reader
    ensures reader.Valid()
    ensures seen' + reader.Stream() == old(seen + reader.Stream()) && |reader.Stream()| < |old(reader.Stream())|
    ensures '\n' !in seen' && raw' == NonCr(seen')
  {
    hide Concat, NonCr;
    var available := reader.buffered;
    ghost var later := Concat(reader.pending);
    raw' := AppendNonCr(raw, available);
    NonCrConcat(seen, available);
    seen' := seen + available;
    ConcatAssoc(seen, available, later);
    reader.buffered := "";
    assert reader.Stream() == later;
  }

  lemma ConcatAssoc(a: string, b: string, c: string)
    ensures a + (b + c) == a + b + c
  {
  }

  datatype ClientError = ClientTooLong | ClosedBeforeResponse | ClosedMidResponse

  /** The client's mirror: it agrees with the server on every complete line and every oversized one. */
  method ReadResponseLine(reader: BufReader) returns (result: Result<string, ClientError>)
    requires reader.Valid()
    modifies reader
    ensures reader.Valid()
    ensures match ReadLine(old(reader.Stream()))
            case Line(content, rest) => result == Ok(content) && reader.Stream() == rest
            case CleanEof => result == Err(ClosedBeforeResponse)
            case ClosedMidLine => result == Err(ClosedMidResponse)
            case TooLong => result == Err(ClientTooLong)
  {
    var raw := "";
    ghost var seen, stream := "", reader.Stream();
    while true
      invariant reader.Valid()
      invariant stream == seen + reader.Stream() && '\n' !in seen && raw == NonCr(seen) && |raw| <= MAX_LINE_BYTES
      decreases |reader.Stream()|
    {
      var available := reader.FillBuf();
      if available == "" {
        assert stream == seen;
        ReadAtEnd(seen);
        return Err(if raw == "" then ClosedBeforeResponse else ClosedMidResponse);
      }
      var end := IndexOf(available, '\n');
      if end < |available| {
        ReadFound(seen, available, Concat(reader.pending), end);
        raw := AppendNonCr(raw, available[..end]);
        reader.Consume(end + 1);
        break;
      }
      raw, seen := TakeChunk(reader, raw, seen);
      if |raw| > MAX_LINE_BYTES {
        TooLongWhateverFollows(seen, reader.Stream());
        return Err(ClientTooLong);
      }
    }
    return if |raw| > MAX_LINE_BYTES then Err(ClientTooLong) else Ok(raw);
  }

  // --- A whole connection ------------------------------------------------------------------------------

  datatype Session = Session(lines: seq<string>, end: Read)

  /** All lines up to the first read that is not one. */
  function ReadAll(stream: string): Session
    decreases |stream|
  {
    var r := ReadLine(stream);
    if !r.Line? then Session([], r) else Before([r.content], ReadAll(r.rest))
  }

  function Before(lines: seq<string>, later: Session): Session {
    Session(lines + later.lines, later.end)
  }

  lemma BeforeConcat(a: seq<string>, b: seq<string>, later: Session)
    ensures Before(a, Before(b, later)) == Before(a + b, later)
    ensures Before([], later) == later
  {
    assert a + (b + later.lines) == a + b + later.lines;
    assert [] + later.lines == later.lines;
  }

  /** The connection loop over the persistent reader. */
  method DrainLines(reader: BufReader) returns (lines: seq<string>, end: Result<(), ServerError>)
    requires reader.Valid()
    modifies reader
    ensures var all := ReadAll(old(reader.Stream()));
            && lines == all.lines
            && (end.Ok? <==> all.end.CleanEof?)
            && (end == Err(ServerClosedMidLine) <==> all.end.ClosedMidLine?)
            && (end == Err(ServerTooLong) <==> all.end.TooLong?)
  {
    hide NonCr, Text.IndexOf, Concat;
    lines := [];
    while true
      invariant reader.Valid()
      invariant var all, later := ReadAll(old(reader.Stream())), ReadAll(reader.Stream());
                all.lines == lines + later.lines && all.end == later.end
      decreases |reader.Stream()|
    {
      var r := ReadLineCapped(reader);
      match r
      case Err(e) => return lines, Err(e);
      case Ok(None) => return lines, Ok(());
      case Ok(Some(line)) => lines := lines + [line];
    }
  }

  /** A frame followed by its terminator, as `write_line` sends it. */
  function Frames(frames: seq<string>): string {
    if frames == [] then "" else frames[0] + "\n" + Frames(frames[1..])
  }

  function Contents(frames: seq<string>): seq<string> {
    if frames == [] then [] else [NonCr(frames[0])] + Contents(frames[1..])
  }

  lemma ReadFrame(frame: string, later: string)
    requires '\n' !in frame && |NonCr(frame)| <= MAX_LINE_BYTES
    ensures ReadAll(frame + "\n" + later) == Before([NonCr(frame)], ReadAll(later))
  {
    IndexOfFirst(frame, '\n', later);
    assert (frame + "\n" + later)[..|frame|] == frame;
    assert ReadLine(frame + "\n" + later) == Line(NonCr(frame), later);
  }

  /** Pipelined frames are all read, in order and free of carriage returns, before whatever follows them. */
  lemma {:induction false} PipelinedFramesAreRead(frames: seq<string>, tail: string)
    requires forall f | f in frames :: '\n' !in f && |NonCr(f)| <= MAX_LINE_BYTES
    ensures ReadAll(Frames(frames) + tail) == Before(Contents(frames), ReadAll(tail))
    decreases |frames|
  {
    if frames == [] {
      assert Frames(frames) + tail == tail;
      BeforeConcat([], [], ReadAll(tail));
    } else {
      PipelinedFramesAreRead(frames[1..], tail);
      BeforeConcat([NonCr(frames[0])], Contents(frames[1..]), ReadAll(tail));
      ReadFrame(frames[0], Frames(frames[1..]) + tail);
      FirstFrame(frames, tail);
    }
  }

  lemma FirstFrame(frames: seq<string>, tail: string)
    requires frames != []
    ensures Frames(frames) + tail == frames[0] + "\n" + (Frames(frames[1..]) + tail)
  {
  }

  lemma {:induction false} ContentsWithoutCr(frames: seq<string>)
    requires forall f | f in frames :: '\r' !in f
    ensures Contents(frames) == frames
  {
    if frames != [] {
      ContentsWithoutCr(frames[1..]);
    }
  }

  /** Frames without CR or LF and within the cap come back exactly, and the connection ends cleanly. */
  lemma FramesRoundTrip(frames: seq<string>)
    requires forall f | f in frames :: '\n' !in f && '\r' !in f && |f| <= MAX_LINE_BYTES
    ensures ReadAll(Frames(frames)) == Session(frames, CleanEof)
  {
    PipelinedFramesAreRead(frames, "");
    assert Frames(frames) + "" == Frames(frames);
    ContentsWithoutCr(frames);
    assert ReadAll("") == Session([], CleanEof);
    assert frames + [] == frames;
  }

  // --- The cap -------------------------------------------------------------------------------------------

  /** A terminated line is read, without its carriage returns, exactly when what is left is within the cap. */
  lemma TerminatedLineOutcome(line: string, rest: string)
    requires '\n' !in line
    ensures ReadLine(line + "\n" + rest) ==
            if |NonCr(line)| <= MAX_LINE_BYTES then Line(NonCr(line), rest) else TooLong
  {
    IndexOfFirst(line, '\n', rest);
    var stream := line + "\n" + rest;
    assert stream[..|line|] == line && stream[|line| + 1..] == rest;
  }

  /** A stream that ends without a newline gives no line. */
  lemma UnterminatedOutcome(tail: string)
    requires '\n' !in tail
    ensures ReadLine(tail) ==
            if |NonCr(tail)| > MAX_LINE_BYTES then TooLong
            else if forall c | c in tail :: c == '\r' then CleanEof
            else ClosedMidLine
  {
    assert tail[..|tail|] == tail;
    OnlyCrIsNothing(tail);
  }

  /** What is left of a line is its other bytes, in order and as many as they are. */
  lemma {:induction false} NonCrKeepsTheRest(s: string, c: char)
    ensures multiset(NonCr(s))[c] == if c == '\r' then 0 else multiset(s)[c]
  {
    if s != "" {
      NonCrKeepsTheRest(s[1..], c);
      assert s == [s[0]] + s[1..];
    }
  }
}

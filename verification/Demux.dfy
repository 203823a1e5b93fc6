/** The Docker exec stream demultiplexer of src/activities/agent_iteration.py.

    The wire carries frames: one byte naming the stream, three bytes of padding,
    the payload length as a 32-bit big-endian number, then the payload ("Stream
    format" of the Docker Engine API's "Attach to a container" operation).
    `Dispatch` is the incremental parser; `Trace` says what it must yield and log,
    in what order, and `StreamLines` what that amounts to for each stream. */
module Demux {
  import opened Sequences

  type byte = x: int | 0 <= x < 256
  type Bytes = seq<byte>

  const STDOUT: byte := 1
  const STDERR: byte := 2
  const NEWLINE: byte := 10
  const HEADER: nat := 8

  // ---- big-endian lengths ----

  function FromBigEndian(b: Bytes): (n: nat)
    requires |b| == 4
    ensures n < 0x1_0000_0000
  {
    (b[0] as int) * 0x100_0000 + (b[1] as int) * 0x1_0000 + (b[2] as int) * 0x100 + b[3] as int
  }

  function ToBigEndian(n: nat): Bytes
    requires n < 0x1_0000_0000
  {
    [n / 0x100_0000, n / 0x1_0000 % 0x100, n / 0x100 % 0x100, n % 0x100]
  }

  lemma ToThenFrom(n: nat)
    requires n < 0x1_0000_0000
    ensures FromBigEndian(ToBigEndian(n)) == n
  {
    var high, middle, low := n / 0x100_0000, n / 0x1_0000, n / 0x100;
    assert n == low * 0x100 + n % 0x100;
    assert low == middle * 0x100 + low % 0x100;
    assert middle == high * 0x100 + middle % 0x100;
  }

  lemma FromThenTo(b: Bytes)
    requires |b| == 4
    ensures ToBigEndian(FromBigEndian(b)) == b
  {
    var m := FromBigEndian(b);
    assert m / 0x100_0000 == b[0];
    assert m / 0x1_0000 == (b[0] as int) * 0x100 + b[1] as int;
    assert m / 0x100 == (b[0] as int) * 0x1_0000 + (b[1] as int) * 0x100 + b[2] as int;
  }

  /** The length field and the length determine each other. */
  lemma BigEndianInverse(n: nat, b: Bytes)
    requires n < 0x1_0000_0000 && |b| == 4
    ensures ToBigEndian(n) == b <==> FromBigEndian(b) == n
  {
    ToThenFrom(n);
    FromThenTo(b);
  }

  // ---- frames ----

  datatype Frame = Frame(kind: byte, padding: Bytes, payload: Bytes)

  predicate WellFormed(f: Frame) {
    |f.padding| == 3 && |f.payload| < 0x1_0000_0000
  }

  function EncodeFrame(f: Frame): (b: Bytes)
    requires WellFormed(f)
    ensures |b| == HEADER + |f.payload|
  {
    [f.kind] + f.padding + ToBigEndian(|f.payload|) + f.payload
  }

  predicate AllWellFormed(fs: seq<Frame>) {
    forall f :: f in fs ==> WellFormed(f)
  }

  function EncodeFrames(fs: seq<Frame>): Bytes
    requires AllWellFormed(fs)
  {
    if fs == [] then [] else EncodeFrame(fs[0]) + EncodeFrames(fs[1..])
  }

  lemma {:induction false} EncodeFramesSnoc(fs: seq<Frame>, f: Frame)
    requires AllWellFormed(fs) && WellFormed(f)
    ensures AllWellFormed(fs + [f])
    ensures EncodeFrames(fs + [f]) == EncodeFrames(fs) + EncodeFrame(f)
  {
    if fs == [] {
      assert fs + [f] == [f] && [f][1..] == [];
      assert EncodeFrames([f]) == EncodeFrame(f) + EncodeFrames([]);
    } else {
      assert (fs + [f])[1..] == fs[1..] + [f];
      EncodeFramesSnoc(fs[1..], f);
    }
  }

  predicate HasFrame(b: Bytes) {
    |b| >= HEADER && |b| >= HEADER + FromBigEndian(b[4..8])
  }

  function HeadFrame(b: Bytes): (f: Frame)
    requires HasFrame(b)
    ensures WellFormed(f)
  {
    Frame(b[0], b[1..4], b[HEADER..HEADER + FromBigEndian(b[4..8])])
  }

  /** A buffer starts with a complete frame exactly when the encoding of some
      well-formed frame is a prefix of it, and that frame is the one read. */
  lemma HeadFrameExact(b: Bytes, f: Frame)
    requires WellFormed(f)
    ensures HasFrame(b) && HeadFrame(b) == f <==> EncodeFrame(f) <= b
  {
    if |b| >= HEADER {
      BigEndianInverse(|f.payload|, b[4..8]);
    }
    hide FromBigEndian, ToBigEndian;
    if HasFrame(b) && HeadFrame(b) == f {
      assert ToBigEndian(|f.payload|) == b[4..8];
      var n := HEADER + |f.payload|;
      assert b[..n] == [b[0]] + b[1..4] + b[4..8] + b[HEADER..n];
      assert EncodeFrame(f) == b[..n];
    }
    if EncodeFrame(f) <= b {
      var e := EncodeFrame(f);
      assert b[..|e|] == e;
      assert b[4..8] == e[4..8] == ToBigEndian(|f.payload|);
      assert b[1..4] == e[1..4] == f.padding;
      assert b[HEADER..|e|] == e[HEADER..] == f.payload;
    }
  }

  /** The longest run of complete frames at the front, and what is left. */
  function Parse(b: Bytes): (seq<Frame>, Bytes)
    decreases |b|
  {
    if HasFrame(b) then
      var f := HeadFrame(b);
      var (fs, tail) := Parse(b[HEADER + |f.payload|..]);
      ([f] + fs, tail)
    else ([], b)
  }

  ghost predicate Parses(b: Bytes, fs: seq<Frame>, tail: Bytes) {
    AllWellFormed(fs) && b == EncodeFrames(fs) + tail && !HasFrame(tail)
  }

  lemma {:induction false} ParseSound(b: Bytes)
    ensures Parses(b, Parse(b).0, Parse(b).1)
    decreases |b|
  {
    if HasFrame(b) {
      var f := HeadFrame(b);
      HeadFrameExact(b, f);
      var rest := b[HEADER + |f.payload|..];
      ParseSound(rest);
      ParsesCons(b, f, rest, Parse(rest).0, Parse(rest).1);
    }
  }

  lemma ParsesCons(b: Bytes, f: Frame, rest: Bytes, fs: seq<Frame>, tail: Bytes)
    requires WellFormed(f) && b == EncodeFrame(f) + rest && Parses(rest, fs, tail)
    ensures Parses(b, [f] + fs, tail)
  {
    hide EncodeFrame, WellFormed, HasFrame;
    assert ([f] + fs)[1..] == fs;
    assert EncodeFrame(f) + (EncodeFrames(fs) + tail) == EncodeFrame(f) + EncodeFrames(fs) + tail;
  }

  lemma ParseCons(b: Bytes, f: Frame, rest: Bytes)
    requires WellFormed(f) && b == EncodeFrame(f) + rest
    ensures Parse(b) == ([f] + Parse(rest).0, Parse(rest).1)
  {
    HeadFrameExact(b, f);
    hide EncodeFrame, HeadFrame, HasFrame, WellFormed;
    assert b[HEADER + |f.payload|..] == rest;
  }

  lemma ParsesUncons(b: Bytes, fs: seq<Frame>, tail: Bytes)
    requires fs != [] && Parses(b, fs, tail)
    ensures WellFormed(fs[0])
    ensures var rest := EncodeFrames(fs[1..]) + tail;
            b == EncodeFrame(fs[0]) + rest && Parses(rest, fs[1..], tail)
  {
    hide EncodeFrame, HasFrame, WellFormed;
    assert fs[0] in fs;
  }

  lemma {:induction false} ParseUnique(b: Bytes, fs: seq<Frame>, tail: Bytes)
    requires Parses(b, fs, tail)
    ensures Parse(b) == (fs, tail)
    decreases |fs|
  {
    if fs != [] {
      ParsesUncons(b, fs, tail);
      var rest := EncodeFrames(fs[1..]) + tail;
      ParseCons(b, fs[0], rest);
      hide Parse, Parses, EncodeFrame, EncodeFrames;
      ParseUnique(rest, fs[1..], tail);
      assert fs == [fs[0]] + fs[1..];
    } else {
      assert b == tail;
    }
  }

  /** `Parse` against its declarative meaning: it is the one way to write the
      bytes as encodings of well-formed frames followed by a tail that holds no
      complete frame. */
  lemma ParseExact(b: Bytes, fs: seq<Frame>, tail: Bytes)
    ensures Parse(b) == (fs, tail) <==> Parses(b, fs, tail)
  {
    ParseSound(b);
    if Parses(b, fs, tail) {
      ParseUnique(b, fs, tail);
    }
  }

  // ---- what the two streams must look like ----

  function PayloadOf(kind: byte, fs: seq<Frame>): Bytes {
    if fs == [] then [] else (if fs[0].kind == kind then fs[0].payload else []) + PayloadOf(kind, fs[1..])
  }

  lemma {:induction false} PayloadOfSnoc(kind: byte, fs: seq<Frame>, f: Frame)
    ensures PayloadOf(kind, fs + [f])
         == if f.kind == kind then PayloadOf(kind, fs) + f.payload else PayloadOf(kind, fs)
  {
    if fs == [] {
      assert fs + [f] == [f] && [f][1..] == [];
    } else {
      assert (fs + [f])[1..] == fs[1..] + [f];
      PayloadOfSnoc(kind, fs[1..], f);
    }
  }

  /** Newline-terminated lines; text after the last newline is a line too, unless empty. */
  function Lines(text: Bytes): seq<Bytes> {
    var pieces := Split(text, NEWLINE);
    if Last(pieces) == [] then DropLast(pieces) else pieces
  }

  /** Writing lines: each one followed by a newline. */
  function WriteLines(lines: seq<Bytes>): Bytes {
    if lines == [] then [] else lines[0] + [NEWLINE] + WriteLines(lines[1..])
  }

  /** `Lines` inverts writing, for any number of newline-free lines and any
      newline-free unterminated rest, which is dropped only when empty. */
  lemma {:induction false} LinesOfWritten(lines: seq<Bytes>, rest: Bytes)
    requires AllFreeOf(lines, NEWLINE) && NEWLINE !in rest
    ensures Lines(WriteLines(lines) + rest) == lines + (if rest == [] then [] else [rest])
  {
    SplitOfWritten(lines, rest);
  }

  lemma {:induction false} SplitOfWritten(lines: seq<Bytes>, rest: Bytes)
    requires AllFreeOf(lines, NEWLINE) && NEWLINE !in rest
    ensures Split(WriteLines(lines) + rest, NEWLINE) == lines + [rest]
  {
    if lines == [] {
      assert WriteLines(lines) + rest == rest;
      SplitFree(rest, NEWLINE);
    } else {
      var text := WriteLines(lines) + rest;
      assert lines[0] in lines;
      assert text[..|lines[0]|] == lines[0];
      assert text[|lines[0]| + 1..] == WriteLines(lines[1..]) + rest;
      SplitAtFirst(text, |lines[0]|, NEWLINE);
      SplitOfWritten(lines[1..], rest);
    }
  }

  /** The functional specification of the demultiplexer, on the whole byte string. */
  function StreamLines(kind: byte, received: Bytes): seq<Bytes> {
    Lines(PayloadOf(kind, Parse(received).0))
  }

  /** What successive `recv` calls deliver: an empty chunk, or running out, is end of file. */
  function Received(chunks: seq<Bytes>): Bytes {
    if chunks == [] || chunks[0] == [] then [] else chunks[0] + Received(chunks[1..])
  }

  // ---- in what order ----

  /** A line yielded to the caller, or logged. */
  datatype Emission = Yielded(text: string) | Logged(trailing: bool, text: string)

  /** Lines of one stream, decoded; lines of other streams go nowhere. */
  function Emit(kind: byte, trailing: bool, utf8: Bytes -> string, lines: seq<Bytes>): seq<Emission> {
    if lines == [] then []
    else
      Emit(kind, trailing, utf8, DropLast(lines)) +
      (if kind == STDOUT then [Yielded(utf8(Last(lines)))]
       else if kind == STDERR then [Logged(trailing, utf8(Last(lines)))]
       else [])
  }

  /** What a stream has open after these frames: the text since its last newline. */
  function Open(kind: byte, fs: seq<Frame>): Bytes {
    Last(Split(PayloadOf(kind, fs), NEWLINE))
  }

  /** Frame by frame, each with the lines it completes. */
  function Emissions(utf8: Bytes -> string, fs: seq<Frame>): seq<Emission> {
    if fs == [] then []
    else
      var f, before := Last(fs), DropLast(fs);
      Emissions(utf8, before) +
      Emit(f.kind, false, utf8, DropLast(Split(Open(f.kind, before) + f.payload, NEWLINE)))
  }

  /** A line left open at the end is a line, unless it is empty. */
  function Trailing(kind: byte, utf8: Bytes -> string, fs: seq<Frame>): seq<Emission> {
    if Open(kind, fs) == [] then [] else Emit(kind, true, utf8, [Open(kind, fs)])
  }

  /** The specification of the demultiplexer, on the whole byte string. */
  function Trace(utf8: Bytes -> string, received: Bytes): seq<Emission> {
    var fs := Parse(received).0;
    Emissions(utf8, fs) + Trailing(STDOUT, utf8, fs) + Trailing(STDERR, utf8, fs)
  }

  /** The texts of one stream among what was yielded and logged. */
  function Texts(kind: byte, emitted: seq<Emission>): seq<string> {
    if emitted == [] then []
    else
      Texts(kind, DropLast(emitted)) +
      (if Last(emitted).Yielded? == (kind == STDOUT) then [Last(emitted).text] else [])
  }

  lemma {:induction false} TextsAppend(kind: byte, a: seq<Emission>, b: seq<Emission>)
    ensures Texts(kind, a + b) == Texts(kind, a) + Texts(kind, b)
  {
    if b == [] {
      assert a + b == a;
    } else {
      assert DropLast(a + b) == a + DropLast(b);
      TextsAppend(kind, a, DropLast(b));
    }
  }

  lemma TextsSnoc(kind: byte, emitted: seq<Emission>, e: Emission)
    ensures Texts(kind, emitted + [e])
         == Texts(kind, emitted) + (if e.Yielded? == (kind == STDOUT) then [e.text] else [])
  {
    assert DropLast(emitted + [e]) == emitted;
  }

  lemma MapSnoc(utf8: Bytes -> string, lines: seq<Bytes>)
    requires lines != []
    ensures Map(utf8, lines) == Map(utf8, DropLast(lines)) + [utf8(Last(lines))]
  {
  }

  lemma {:induction false} TextsOfEmit(kind: byte, from: byte, trailing: bool, utf8: Bytes -> string, lines: seq<Bytes>)
    requires kind == STDOUT || kind == STDERR
    ensures Texts(kind, Emit(from, trailing, utf8, lines)) == if from == kind then Map(utf8, lines) else []
  {
    if lines != [] {
      TextsOfEmit(kind, from, trailing, utf8, DropLast(lines));
      MapSnoc(utf8, lines);
      hide Texts, Map;
      var rest, text := Emit(from, trailing, utf8, DropLast(lines)), utf8(Last(lines));
      TextsSnoc(kind, rest, Yielded(text));
      TextsSnoc(kind, rest, Logged(trailing, text));
      assert rest + [] == rest;
    } else {
      assert Map(utf8, lines) == [];
    }
  }

  /** How a stream's open line and completed lines move on with a payload. */
  lemma OpenSnoc(kind: byte, fs: seq<Frame>, f: Frame)
    ensures var pieces := Split(Open(f.kind, fs) + f.payload, NEWLINE);
            && Open(kind, fs + [f]) == (if f.kind == kind then Last(pieces) else Open(kind, fs))
            && DropLast(Split(PayloadOf(kind, fs + [f]), NEWLINE))
               == DropLast(Split(PayloadOf(kind, fs), NEWLINE)) + (if f.kind == kind then DropLast(pieces) else [])
  {
    PayloadOfSnoc(kind, fs, f);
    hide PayloadOf, Split;
    if f.kind == kind {
      SplitAppend(PayloadOf(kind, fs), f.payload, NEWLINE);
      var done, pieces := DropLast(Split(PayloadOf(kind, fs), NEWLINE)), Split(Open(kind, fs) + f.payload, NEWLINE);
      assert Last(done + pieces) == Last(pieces) && DropLast(done + pieces) == done + DropLast(pieces);
    }
  }

  lemma {:induction false} TextsOfEmissions(kind: byte, utf8: Bytes -> string, fs: seq<Frame>)
    requires kind == STDOUT || kind == STDERR
    ensures Texts(kind, Emissions(utf8, fs)) == Map(utf8, DropLast(Split(PayloadOf(kind, fs), NEWLINE)))
  {
    if fs != [] {
      var f, before := Last(fs), DropLast(fs);
      assert fs == before + [f];
      TextsOfEmissions(kind, utf8, before);
      OpenSnoc(kind, before, f);
      var lines := DropLast(Split(Open(f.kind, before) + f.payload, NEWLINE));
      TextsAppend(kind, Emissions(utf8, before), Emit(f.kind, false, utf8, lines));
      TextsOfEmit(kind, f.kind, false, utf8, lines);
      hide PayloadOf, Split, Texts, Emit;
      MapAppend(utf8, DropLast(Split(PayloadOf(kind, before), NEWLINE)), lines);
    }
  }

  lemma MapAppend(utf8: Bytes -> string, a: seq<Bytes>, b: seq<Bytes>)
    ensures Map(utf8, a + b) == Map(utf8, a) + Map(utf8, b)
    ensures Map(utf8, a + []) == Map(utf8, a)
  {
    assert a + [] == a;
  }

  lemma TrailingTexts(kind: byte, from: byte, utf8: Bytes -> string, fs: seq<Frame>)
    requires kind == STDOUT || kind == STDERR
    ensures Texts(kind, Trailing(from, utf8, fs))
         == if from == kind && Open(kind, fs) != [] then Map(utf8, [Open(kind, fs)]) else []
  {
    TextsOfEmit(kind, from, true, utf8, [Open(from, fs)]);
  }

  lemma LinesDecoded(kind: byte, utf8: Bytes -> string, fs: seq<Frame>)
    ensures Map(utf8, Lines(PayloadOf(kind, fs)))
         == Map(utf8, DropLast(Split(PayloadOf(kind, fs), NEWLINE))) +
            (if Open(kind, fs) != [] then Map(utf8, [Open(kind, fs)]) else [])
  {
    hide PayloadOf, Split, Map;
    var pieces := Split(PayloadOf(kind, fs), NEWLINE);
    MapAppend(utf8, DropLast(pieces), [Last(pieces)]);
    assert DropLast(pieces) + [Last(pieces)] == pieces;
    assert Map(utf8, DropLast(pieces)) + [] == Map(utf8, DropLast(pieces));
  }

  /** Of each stream the trace holds exactly the lines of all its payload, in order. */
  lemma TraceOfStream(kind: byte, utf8: Bytes -> string, received: Bytes)
    requires kind == STDOUT || kind == STDERR
    ensures Texts(kind, Trace(utf8, received)) == Map(utf8, StreamLines(kind, received))
  {
    hide Parse, PayloadOf, Split, Texts, Emit, Emissions, Trailing, Open, Lines, Map;
    var fs := Parse(received).0;
    var emissions, out, err := Emissions(utf8, fs), Trailing(STDOUT, utf8, fs), Trailing(STDERR, utf8, fs);
    TextsAppend(kind, emissions + out, err);
    TextsAppend(kind, emissions, out);
    TextsOfEmissions(kind, utf8, fs);
    TrailingTexts(kind, STDOUT, utf8, fs);
    TrailingTexts(kind, STDERR, utf8, fs);
    LinesDecoded(kind, utf8, fs);
  }

  // ---- the code ----

  method SplitLines(buffer: Bytes) returns (lines: seq<Bytes>, rest: Bytes)
    ensures lines == DropLast(Split(buffer, NEWLINE)) && rest == Last(Split(buffer, NEWLINE))
  {
    lines, rest := [], buffer;
    while NEWLINE in rest
      invariant lines + Split(rest, NEWLINE) == Split(buffer, NEWLINE)
      decreases |rest|
    {
      var i := Find(rest, NEWLINE);
      SplitAtFirst(rest, i, NEWLINE);
      lines, rest := lines + [rest[..i]], rest[i + 1..];
    }
    SplitFree(rest, NEWLINE);
    assert Last(lines + [rest]) == rest && DropLast(lines + [rest]) == lines;
  }

  /** The other loop invariant: what was emitted and what is open are those of the frames consumed. */
  ghost predicate InStep(
    utf8: Bytes -> string, consumed: seq<Frame>, emitted: seq<Emission>, stdoutBuf: Bytes, stderrBuf: Bytes
  ) {
    && emitted == Emissions(utf8, consumed)
    && stdoutBuf == Open(STDOUT, consumed) && stderrBuf == Open(STDERR, consumed)
  }

  lemma EmissionsSnoc(utf8: Bytes -> string, consumed: seq<Frame>, frame: Frame)
    ensures Emissions(utf8, consumed + [frame])
         == Emissions(utf8, consumed) +
            Emit(frame.kind, false, utf8, DropLast(Split(Open(frame.kind, consumed) + frame.payload, NEWLINE)))
  {
    assert DropLast(consumed + [frame]) == consumed;
  }

  lemma {:induction false} UnknownStream(kind: byte, trailing: bool, utf8: Bytes -> string, lines: seq<Bytes>)
    requires kind != STDOUT && kind != STDERR
    ensures Emit(kind, trailing, utf8, lines) == []
  {
    if lines != [] {
      UnknownStream(kind, trailing, utf8, DropLast(lines));
    }
  }

  /** One frame: its payload goes through the buffer of the stream it names, the
      completed lines leave, the open line stays; an unknown stream is dropped. */
  method Route(
    utf8: Bytes -> string, ghost consumed: seq<Frame>, ghost frame: Frame, streamType: byte, payload: Bytes,
    emitted: seq<Emission>, stdoutBuf: Bytes, stderrBuf: Bytes
  )
    returns (emitted': seq<Emission>, stdoutBuf': Bytes, stderrBuf': Bytes)
    requires InStep(utf8, consumed, emitted, stdoutBuf, stderrBuf)
    requires streamType == frame.kind && payload == frame.payload
    ensures InStep(utf8, consumed + [frame], emitted', stdoutBuf', stderrBuf')
  {
    hide Open, Emit, Split, Emissions;
    emitted', stdoutBuf', stderrBuf' := emitted, stdoutBuf, stderrBuf;
    OpenSnoc(STDOUT, consumed, frame);
    OpenSnoc(STDERR, consumed, frame);
    EmissionsSnoc(utf8, consumed, frame);
    var lines: seq<Bytes>;
    if streamType == STDOUT {
      lines, stdoutBuf' := SplitLines(stdoutBuf + payload);
      emitted' := emitted + Emit(STDOUT, false, utf8, lines);
    } else if streamType == STDERR {
      lines, stderrBuf' := SplitLines(stderrBuf + payload);
      emitted' := emitted + Emit(STDERR, false, utf8, lines);
    } else {
      UnknownStream(streamType, false, utf8, DropLast(Split(Open(streamType, consumed) + payload, NEWLINE)));
    }
  }

  /** The loop invariant: every byte so far is in a consumed frame, in `raw`, or still to come. */
  ghost predicate Accounted(chunks: seq<Bytes>, consumed: seq<Frame>, raw: Bytes, next: nat)
    requires next <= |chunks|
  {
    AllWellFormed(consumed) &&
    Received(chunks) == EncodeFrames(consumed) + raw + Received(chunks[next..])
  }

  /** When the code goes on to take a frame, and what it takes. */
  lemma FrameReady(raw: Bytes)
    requires HEADER <= |raw|
    ensures HasFrame(raw) <==> HEADER + FromBigEndian(raw[4..8]) <= |raw|
    ensures HasFrame(raw) ==>
              var f := HeadFrame(raw);
              f.kind == raw[0] && |f.payload| == FromBigEndian(raw[4..8]) &&
              f.payload == raw[HEADER..HEADER + FromBigEndian(raw[4..8])]
  {
  }

  lemma ShortOfAFrame(raw: Bytes)
    ensures |raw| < HEADER ==> !HasFrame(raw)
  {
  }

  lemma NothingReceived(utf8: Bytes -> string, chunks: seq<Bytes>)
    ensures Accounted(chunks, [], [], 0) && InStep(utf8, [], [], [], []) && !HasFrame([])
  {
    assert chunks[0..] == chunks;
  }

  lemma AccountedRecv(chunks: seq<Bytes>, consumed: seq<Frame>, raw: Bytes, next: nat)
    requires next < |chunks| && chunks[next] != []
    requires Accounted(chunks, consumed, raw, next)
    ensures Accounted(chunks, consumed, raw + chunks[next], next + 1)
  {
    assert chunks[next..][1..] == chunks[next + 1..];
    assert EncodeFrames(consumed) + raw + (chunks[next] + Received(chunks[next + 1..]))
        == EncodeFrames(consumed) + (raw + chunks[next]) + Received(chunks[next + 1..]);
  }

  /** Taking a frame off `raw` removes its header and payload and nothing else. */
  lemma AccountedFrame(chunks: seq<Bytes>, consumed: seq<Frame>, raw: Bytes, next: nat)
    requires next <= |chunks| && HasFrame(raw)
    requires Accounted(chunks, consumed, raw, next)
    ensures var f := HeadFrame(raw);
            Accounted(chunks, consumed + [f], raw[HEADER + |f.payload|..], next)
  {
    var f := HeadFrame(raw);
    HeadFrameExact(raw, f);
    EncodeFramesSnoc(consumed, f);
    var rest := raw[HEADER + |f.payload|..];
    assert raw == EncodeFrame(f) + rest;
    assert EncodeFrames(consumed) + (EncodeFrame(f) + rest) == EncodeFrames(consumed) + EncodeFrame(f) + rest;
  }

  lemma AccountedAtEnd(chunks: seq<Bytes>, consumed: seq<Frame>, raw: Bytes, next: nat)
    requires next <= |chunks| && (next < |chunks| ==> chunks[next] == [])
    requires Accounted(chunks, consumed, raw, next) && !HasFrame(raw)
    ensures Parse(Received(chunks)) == (consumed, raw)
  {
    assert Received(chunks[next..]) == [];
    assert EncodeFrames(consumed) + raw + [] == EncodeFrames(consumed) + raw;
    ParseUnique(Received(chunks), consumed, raw);
  }

  /** `dispatch_into_sandbox` from the first `recv` on: whatever the chunking, it
      yields and logs, in this order, what the specification says of the whole byte
      string, which for each stream is the lines of its payload. */
  method Dispatch(chunks: seq<Bytes>, utf8: Bytes -> string) returns (emitted: seq<Emission>)
    ensures emitted == Trace(utf8, Received(chunks))
    ensures Texts(STDOUT, emitted) == Map(utf8, StreamLines(STDOUT, Received(chunks)))
    ensures Texts(STDERR, emitted) == Map(utf8, StreamLines(STDERR, Received(chunks)))
  {
    hide Accounted, InStep, Open, Emit, Emissions, Texts, StreamLines, Parse, Received, FromBigEndian, EncodeFrame,
      HeadFrame, HasFrame, WellFormed, Map;
    var raw: Bytes, stdoutBuf: Bytes, stderrBuf: Bytes := [], [], [];
    emitted := [];
    ghost var consumed: seq<Frame> := [];
    var next := 0;
    NothingReceived(utf8, chunks);
    while next < |chunks| && chunks[next] != []
      invariant next <= |chunks|
      invariant Accounted(chunks, consumed, raw, next) && !HasFrame(raw)
      invariant InStep(utf8, consumed, emitted, stdoutBuf, stderrBuf)
    {
      AccountedRecv(chunks, consumed, raw, next);
      raw := raw + chunks[next];
      next := next + 1;
      while HEADER <= |raw|
        invariant Accounted(chunks, consumed, raw, next)
        invariant InStep(utf8, consumed, emitted, stdoutBuf, stderrBuf)
        decreases |raw|
      {
        var streamType := raw[0];
        var payloadSize := FromBigEndian(raw[4..8]);
        FrameReady(raw);
        if |raw| < HEADER + payloadSize {
          break;
        }
        ghost var frame := HeadFrame(raw);
        AccountedFrame(chunks, consumed, raw, next);
        var payload := raw[HEADER..HEADER + payloadSize];
        raw := raw[HEADER + payloadSize..];
        emitted, stdoutBuf, stderrBuf :=
          Route(utf8, consumed, frame, streamType, payload, emitted, stdoutBuf, stderrBuf);
        consumed := consumed + [frame];
      }
      ShortOfAFrame(raw);
    }
    AccountedAtEnd(chunks, consumed, raw, next);
    TraceOfStream(STDOUT, utf8, Received(chunks));
    TraceOfStream(STDERR, utf8, Received(chunks));
    InStepNow(utf8, consumed, emitted, stdoutBuf, stderrBuf);
    if stdoutBuf != [] {
      emitted := emitted + Emit(STDOUT, true, utf8, [stdoutBuf]);
    }
    if stderrBuf != [] {
      emitted := emitted + Emit(STDERR, true, utf8, [stderrBuf]);
    }
  }

  lemma InStepNow(
    utf8: Bytes -> string, consumed: seq<Frame>, emitted: seq<Emission>, stdoutBuf: Bytes, stderrBuf: Bytes
  )
    requires InStep(utf8, consumed, emitted, stdoutBuf, stderrBuf)
    ensures emitted == Emissions(utf8, consumed)
    ensures stdoutBuf == Open(STDOUT, consumed) && stderrBuf == Open(STDERR, consumed)
  {
  }

  // ---- the wire, byte by byte ----

  /** The most significant byte of a length comes first. */
  lemma LengthBytes(a: byte, b: byte, c: byte, d: byte)
    ensures FromBigEndian([a, b, c, d]) == ((a * 256 + b) * 256 + c) * 256 + d
  {
  }

  /** A frame is its stream byte, three bytes of padding, four of length and the payload. */
  lemma FrameLayout(kind: byte, padding: Bytes, a: byte, b: byte, c: byte, d: byte, payload: Bytes)
    requires |padding| == 3 && |payload| == ((a * 256 + b) * 256 + c) * 256 + d
    ensures var f := Frame(kind, padding, payload);
            WellFormed(f) && EncodeFrame(f) == [kind] + padding + [a, b, c, d] + payload
  {
    LengthBytes(a, b, c, d);
    BigEndianInverse(|payload|, [a, b, c, d]);
  }

  lemma ParseOne(kind: byte, padding: Bytes, a: byte, b: byte, c: byte, d: byte, payload: Bytes)
    requires |padding| == 3 && |payload| == ((a * 256 + b) * 256 + c) * 256 + d
    ensures Parse([kind] + padding + [a, b, c, d] + payload) == ([Frame(kind, padding, payload)], [])
  {
    FrameLayout(kind, padding, a, b, c, d, payload);
    hide FromBigEndian, ToBigEndian, EncodeFrame, HeadFrame, HasFrame;
    var f := Frame(kind, padding, payload);
    assert EncodeFrame(f) + [] == EncodeFrame(f);
    assert Parse([]) == ([], []) by {
      ShortOfAFrame([]);
    }
    ParseCons(EncodeFrame(f), f, []);
    assert [f] + [] == [f];
  }

  lemma SplitOneLine(line: Bytes)
    requires 10 !in line
    ensures Split(line + [10], NEWLINE) == [line, []]
    ensures Split(line, NEWLINE) == [line]
  {
    var text := line + [10];
    assert text[..|line|] == line && text[|line| + 1..] == [];
    SplitAtFirst(text, |line|, NEWLINE);
    SplitFree(line, NEWLINE);
  }

  /** One frame that holds one line, ended by a newline (byte 10): on stream 1 the
      line is yielded, on stream 2 it is logged, on any other nothing happens. */
  lemma LineOnTheWire(
    kind: byte, padding: Bytes, a: byte, b: byte, c: byte, d: byte, line: Bytes, utf8: Bytes -> string
  )
    requires |padding| == 3 && |line| + 1 == ((a * 256 + b) * 256 + c) * 256 + d && 10 !in line
    ensures Trace(utf8, [kind] + padding + [a, b, c, d] + (line + [10])) ==
              if kind == 1 then [Yielded(utf8(line))] else if kind == 2 then [Logged(false, utf8(line))] else []
  {
    var payload := line + [10];
    ParseOne(kind, padding, a, b, c, d, payload);
    SplitOneLine(line);
    EmitOne(kind, false, utf8, line);
    EmitOne(kind, true, utf8, line);
    hide Parse, Split, Open, Emit, Emissions;
    OneFrame(Frame(kind, padding, payload), utf8, [line], []);
  }

  /** And without the newline the line comes out at the end. */
  lemma OpenLineOnTheWire(
    kind: byte, padding: Bytes, a: byte, b: byte, c: byte, d: byte, line: Bytes, utf8: Bytes -> string
  )
    requires |padding| == 3 && |line| == ((a * 256 + b) * 256 + c) * 256 + d && 10 !in line && line != []
    ensures Trace(utf8, [kind] + padding + [a, b, c, d] + line) ==
              if kind == 1 then [Yielded(utf8(line))] else if kind == 2 then [Logged(true, utf8(line))] else []
  {
    ParseOne(kind, padding, a, b, c, d, line);
    SplitOneLine(line);
    EmitOne(kind, false, utf8, line);
    EmitOne(kind, true, utf8, line);
    hide Parse, Split, Open, Emit, Emissions;
    OneFrame(Frame(kind, padding, line), utf8, [], line);
  }

  lemma OneFrame(f: Frame, utf8: Bytes -> string, lines: seq<Bytes>, rest: Bytes)
    requires Split(f.payload, NEWLINE) == lines + [rest]
    ensures Emissions(utf8, [f]) == Emit(f.kind, false, utf8, lines)
    ensures forall kind :: Open(kind, [f]) == if kind == f.kind then rest else []
  {
    assert DropLast([f]) == [] && [f][1..] == [];
    assert Split<byte>([], NEWLINE) == [[]];
    assert [] + f.payload == f.payload && f.payload + [] == f.payload;
    hide Split;
    assert DropLast(lines + [rest]) == lines && Last(lines + [rest]) == rest;
    assert Open(f.kind, []) == [];
    forall kind ensures Open(kind, [f]) == if kind == f.kind then rest else [] {
      assert PayloadOf(kind, [f]) == if kind == f.kind then f.payload else [];
    }
  }

  lemma EmitOne(kind: byte, trailing: bool, utf8: Bytes -> string, line: Bytes)
    ensures Emit(kind, trailing, utf8, []) == []
    ensures Emit(kind, trailing, utf8, [line]) ==
              if kind == 1 then [Yielded(utf8(line))] else if kind == 2 then [Logged(trailing, utf8(line))] else []
  {
    assert DropLast([line]) == [];
  }

  /** Each frame holds one line, ended by a newline, of stream 1 or 2. */
  ghost predicate OneLineEach(fs: seq<Frame>, lines: seq<Bytes>) {
    && |fs| == |lines| && AllWellFormed(fs)
    && forall i :: 0 <= i < |fs| ==>
         (fs[i].kind == 1 || fs[i].kind == 2) && fs[i].payload == lines[i] + [10] && 10 !in lines[i]
  }

  /** One more such frame emits its line and leaves nothing open. */
  lemma LineFramesSnoc(before: seq<Frame>, f: Frame, line: Bytes, utf8: Bytes -> string)
    requires Open(1, before) == [] && Open(2, before) == []
    requires (f.kind == 1 || f.kind == 2) && f.payload == line + [10] && 10 !in line
    ensures Open(1, before + [f]) == [] && Open(2, before + [f]) == []
    ensures Emissions(utf8, before + [f]) ==
              Emissions(utf8, before) + [if f.kind == 1 then Yielded(utf8(line)) else Logged(false, utf8(line))]
  {
    hide Split, Open, Emit, Emissions;
    SplitOneLine(line);
    assert [] + f.payload == line + [10];
    assert DropLast([line, []]) == [line] && Last([line, []]) == [];
    OpenSnoc(1, before, f);
    OpenSnoc(2, before, f);
    EmissionsSnoc(utf8, before, f);
    EmitOne(f.kind, false, utf8, line);
  }

  function InOrder(fs: seq<Frame>, lines: seq<Bytes>, utf8: Bytes -> string): (out: seq<Emission>)
    requires |fs| == |lines|
    ensures |out| == |fs|
  {
    seq(|fs|, i requires 0 <= i < |fs| =>
      if fs[i].kind == 1 then Yielded(utf8(lines[i])) else Logged(false, utf8(lines[i])))
  }

  lemma InOrderSnoc(fs: seq<Frame>, lines: seq<Bytes>, utf8: Bytes -> string)
    requires |fs| == |lines| > 0
    ensures InOrder(fs, lines, utf8) == InOrder(DropLast(fs), DropLast(lines), utf8) +
              [if Last(fs).kind == 1 then Yielded(utf8(Last(lines))) else Logged(false, utf8(Last(lines)))]
  {
  }

  lemma LastOfEach(fs: seq<Frame>, lines: seq<Bytes>)
    requires OneLineEach(fs, lines) && fs != []
    ensures OneLineEach(DropLast(fs), DropLast(lines)) && DropLast(fs) + [Last(fs)] == fs
    ensures Last(fs).kind == 1 || Last(fs).kind == 2
    ensures Last(fs).payload == Last(lines) + [10] && 10 !in Last(lines)
  {
    hide WellFormed;
  }

  lemma {:induction false} LineFrames(fs: seq<Frame>, lines: seq<Bytes>, utf8: Bytes -> string)
    requires OneLineEach(fs, lines)
    ensures Open(1, fs) == [] && Open(2, fs) == [] && Emissions(utf8, fs) == InOrder(fs, lines, utf8)
    decreases |fs|
  {
    if fs == [] {
      assert Split<byte>([], NEWLINE) == [[]];
    } else {
      LastOfEach(fs, lines);
      hide Open, Emissions, OneLineEach, InOrder;
      LineFrames(DropLast(fs), DropLast(lines), utf8);
      LineFramesSnoc(DropLast(fs), Last(fs), Last(lines), utf8);
      InOrderSnoc(fs, lines, utf8);
    }
  }

  /** Lines come out in the order of their frames, across the streams. */
  lemma OrderOnTheWire(fs: seq<Frame>, lines: seq<Bytes>, utf8: Bytes -> string)
    requires OneLineEach(fs, lines)
    ensures var trace := Trace(utf8, EncodeFrames(fs));
            |trace| == |fs| && forall i :: 0 <= i < |fs| ==>
              trace[i] == if fs[i].kind == 1 then Yielded(utf8(lines[i])) else Logged(false, utf8(lines[i]))
  {
    ParsesBack(fs);
    LineFrames(fs, lines, utf8);
    hide Open, Emissions, Parse, EncodeFrames;
    assert Trace(utf8, EncodeFrames(fs)) == InOrder(fs, lines, utf8);
  }

  lemma ParsesBack(fs: seq<Frame>)
    requires AllWellFormed(fs)
    ensures Parse(EncodeFrames(fs)) == (fs, [])
  {
    ShortOfAFrame([]);
    assert EncodeFrames(fs) + [] == EncodeFrames(fs);
    ParseUnique(EncodeFrames(fs), fs, []);
  }

  /** What is left open comes out at the end, stream 1 first, whichever frame came first. */
  lemma OpenOrderOnTheWire(out: Frame, err: Frame, utf8: Bytes -> string)
    requires WellFormed(out) && WellFormed(err) && out.kind == 1 && err.kind == 2
    requires out.payload != [] && err.payload != [] && 10 !in out.payload && 10 !in err.payload
    ensures Trace(utf8, EncodeFrames([out, err])) == [Yielded(utf8(out.payload)), Logged(true, utf8(err.payload))]
    ensures Trace(utf8, EncodeFrames([err, out])) == [Yielded(utf8(out.payload)), Logged(true, utf8(err.payload))]
  {
    EmitOne(1, true, utf8, out.payload);
    EmitOne(2, true, utf8, err.payload);
    hide Open, Emissions, Parse, EncodeFrames, Emit, WellFormed;
    TwoOpen(out, err, utf8);
    ParsesBack([out, err]);
    TwoOpen(err, out, utf8);
    ParsesBack([err, out]);
  }

  lemma TwoOpen(f: Frame, g: Frame, utf8: Bytes -> string)
    requires f.kind != g.kind && 10 !in f.payload && 10 !in g.payload
    ensures Emissions(utf8, [f, g]) == [] && Open(f.kind, [f, g]) == f.payload && Open(g.kind, [f, g]) == g.payload
  {
    SplitOneLine(f.payload);
    SplitOneLine(g.payload);
    assert [] + [f.payload] == [f.payload];
    OneFrame(f, utf8, [], f.payload);
    assert [f] + [g] == [f, g] && [] + g.payload == g.payload;
    OpenSnoc(f.kind, [f], g);
    OpenSnoc(g.kind, [f], g);
    EmissionsSnoc(utf8, [f], g);
    EmitOne(f.kind, false, utf8, []);
    EmitOne(g.kind, false, utf8, []);
    hide Open, Emissions, Split, Emit;
    assert DropLast([g.payload]) == [] && Emissions(utf8, [f]) == [];
  }

  lemma {:induction false} AllReceived(chunks: seq<Bytes>)
    requires [] !in chunks
    ensures Received(chunks) == Flatten(chunks)
  {
    if chunks != [] {
      assert chunks[0] in chunks;
      AllReceived(chunks[1..]);
    }
  }

  /** What that makes of the dispatcher, however the bytes arrive. */
  method DispatchLine(
    kind: byte, padding: Bytes, a: byte, b: byte, c: byte, d: byte, line: Bytes, chunks: seq<Bytes>,
    utf8: Bytes -> string
  ) returns (emitted: seq<Emission>)
    requires |padding| == 3 && |line| + 1 == ((a * 256 + b) * 256 + c) * 256 + d && 10 !in line
    requires [] !in chunks && Flatten(chunks) == [kind] + padding + [a, b, c, d] + (line + [10])
    ensures emitted ==
              if kind == 1 then [Yielded(utf8(line))] else if kind == 2 then [Logged(false, utf8(line))] else []
  {
    AllReceived(chunks);
    LineOnTheWire(kind, padding, a, b, c, d, line, utf8);
    hide Trace, Received, Flatten;
    emitted := Dispatch(chunks, utf8);
  }
}

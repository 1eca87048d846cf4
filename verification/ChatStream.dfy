/**
 The chat client's incremental reading of a server-sent event stream (framing as in section
 9.2.6 of the WHATWG HTML Living Standard).  Text arrives in arbitrary reads; JSON decoding of
 the payloads is a parameter.
 */
module ChatStream {
  import opened Options
  import opened Strings

  // ------------------------------------------------------------------------------ framing

  /** The length of a match of \r?\n\r?\n at `i`, or 0. */
  function MatchAt(s: string, i: nat): nat {
    var j := if i < |s| && s[i] == '\r' then i + 1 else i;
    if j < |s| && s[j] == '\n' then
      var k := if j + 1 < |s| && s[j + 1] == '\r' then j + 2 else j + 1;
      if k < |s| && s[k] == '\n' then k + 1 - i else 0
    else 0
  }

  datatype Boundary = Boundary(index: nat, length: nat)

  /** buffer.match(/\r?\n\r?\n/), searching from `i`. */
  function Match(s: string, i: nat): (b: Option<Boundary>)
    requires i <= |s|
    ensures b.Some? ==> i <= b.value.index && b.value.length == MatchAt(s, b.value.index) > 0 && b.value.index + b.value.length <= |s|
    decreases |s| - i
  {
    if MatchAt(s, i) > 0 then Some(Boundary(i, MatchAt(s, i)))
    else if i == |s| then None
    else Match(s, i + 1)
  }

  /** Text appended later never makes an earlier match. */
  lemma {:induction false} MatchStable(s: string, t: string, i: nat)
    requires i <= |s| && Match(s, i).Some?
    ensures Match(s + t, i) == Match(s, i)
    decreases |s| - i
  {
    if MatchAt(s, i) == 0 {
      MatchStable(s, t, i + 1);
      NoEarlierMatch(s, t, i, Match(s, i + 1).value);
    }
  }

  lemma NoEarlierMatch(s: string, t: string, i: nat, b: Boundary)
    requires i < b.index && MatchAt(s, i) == 0 && MatchAt(s, b.index) == b.length > 0
    requires b.index + b.length <= |s|
    ensures MatchAt(s + t, i) == 0
  {
  }

  /** The complete events of a text, and what is left after the last boundary. */
  datatype Frames = Frames(events: seq<string>, rest: string)

  function Split(s: string): Frames
    decreases |s|
  {
    match Match(s, 0)
    case None => Frames([], s)
    case Some(b) =>
      var f := Split(s[b.index + b.length..]);
      Frames([s[..b.index]] + f.events, f.rest)
  }

  /** The text after the first boundary. */
  function After(s: string): (tail: string)
    requires Match(s, 0).Some?
    ensures |tail| < |s|
  {
    s[Match(s, 0).value.index + Match(s, 0).value.length..]
  }

  /** The text before the first boundary. */
  function Before(s: string): string
    requires Match(s, 0).Some?
  {
    s[..Match(s, 0).value.index]
  }

  lemma SplitStep(s: string)
    requires Match(s, 0).Some?
    ensures Split(s) == Frames([Before(s)] + Split(After(s)).events, Split(After(s)).rest)
  {
    hide Match;
  }

  lemma StepStable(s: string, t: string)
    requires Match(s, 0).Some?
    ensures Match(s + t, 0).Some? && Before(s + t) == Before(s) && After(s + t) == After(s) + t
  {
    MatchStable(s, t, 0);
    hide Match, MatchAt;
    var b := Match(s, 0).value;
    assert (s + t)[b.index + b.length..] == s[b.index + b.length..] + t;
    assert (s + t)[..b.index] == s[..b.index];
  }

  /** Splitting what is left together with the next read gives the same frames as splitting the
      whole text. */
  lemma {:induction false} SplitAppend(s: string, t: string)
    ensures Split(s + t) == Frames(Split(s).events + Split(Split(s).rest + t).events, Split(Split(s).rest + t).rest)
    decreases |s|
  {
    if Match(s, 0).None? {
      SplitNothing(s, t);
    } else {
      SplitStep(s);
      StepStable(s, t);
      SplitStep(s + t);
      SplitAppend(After(s), t);
      hide *;
      Regroup(Before(s), Split(After(s)).events, Split(Split(After(s)).rest + t).events);
    }
  }

  lemma SplitNothing(s: string, t: string)
    requires Match(s, 0).None?
    ensures Split(s + t) == Frames(Split(s).events + Split(Split(s).rest + t).events, Split(Split(s).rest + t).rest)
  {
    Unsplit(s);
    hide *;
    Prepended(Split(s + t).events);
  }

  lemma Unsplit(s: string)
    requires Match(s, 0).None?
    ensures Split(s) == Frames([], s)
  {
    hide Match;
  }

  lemma Prepended(xs: seq<string>)
    ensures [] + xs == xs
  {
  }

  lemma Regroup(e: string, xs: seq<string>, ys: seq<string>)
    ensures [e] + (xs + ys) == [e] + xs + ys
  {
  }

  predicate IsSeparator(s: string) {
    s == "\n\n" || s == "\r\n\n" || s == "\n\r\n" || s == "\r\n\r\n"
  }

  predicate SeparatorAt(s: string, i: nat, n: nat) { i + n <= |s| && IsSeparator(s[i..i + n]) }

  /** A boundary is matched exactly where a separator stands, with its length. */
  lemma MatchAtIff(s: string, i: nat, n: nat)
    ensures n > 0 ==> (MatchAt(s, i) == n <==> SeparatorAt(s, i, n))
    ensures SeparatorAt(s, i, n) ==> n > 0
  {
    if i + n <= |s| {
      var t := s[i..i + n];
      assert |t| == n && forall j :: 0 <= j < n ==> t[j] == s[i + j];
      SeparatorIs(t);
      hide IsSeparator;
    }
  }

  lemma SeparatorIs(t: string)
    ensures IsSeparator(t) <==>
      || (|t| == 2 && t[0] == '\n' && t[1] == '\n')
      || (|t| == 3 && t[0] == '\r' && t[1] == '\n' && t[2] == '\n')
      || (|t| == 3 && t[0] == '\n' && t[1] == '\r' && t[2] == '\n')
      || (|t| == 4 && t[0] == '\r' && t[1] == '\n' && t[2] == '\r' && t[3] == '\n')
  {
  }

  /** No separator stands anywhere in the text. */
  ghost predicate Unbroken(s: string) {
    forall i: nat, n: nat :: !SeparatorAt(s, i, n)
  }

  lemma {:induction false} NoMatch(s: string, i: nat, j: nat)
    requires i <= j <= |s| && (Match(s, i).None? || j < Match(s, i).value.index)
    ensures MatchAt(s, j) == 0
    decreases |s| - i
  {
    if i < j {
      NoMatch(s, i + 1, j);
    }
  }

  lemma UnbrokenBefore(s: string, k: nat)
    requires k <= |s| && forall j :: 0 <= j < k ==> MatchAt(s, j) == 0
    ensures Unbroken(s[..k])
  {
    forall i: nat, n: nat ensures !SeparatorAt(s[..k], i, n) {
      MatchAtIff(s, i, n);
      if i + n <= k {
        assert s[..k][i..i + n] == s[i..i + n];
      }
    }
    hide MatchAt;
  }

  predicate AllSeparators(xs: seq<string>) {
    forall i :: 0 <= i < |xs| ==> IsSeparator(xs[i])
  }

  function Weave(events: seq<string>, separators: seq<string>): string
    requires |events| == |separators|
  {
    if events == [] then "" else events[0] + separators[0] + Weave(events[1..], separators[1..])
  }

  lemma FirstIsUnbroken(s: string)
    ensures if Match(s, 0).None? then Unbroken(s) else Unbroken(Before(s))
  {
    var k := if Match(s, 0).None? then |s| else Match(s, 0).value.index;
    forall j | 0 <= j < k ensures MatchAt(s, j) == 0 {
      NoMatch(s, 0, j);
    }
    hide Match, MatchAt;
    UnbrokenBefore(s, k);
    assert s[..|s|] == s;
  }

  /** The frames and their separators are the text again, and neither a frame nor the rest holds a boundary. */
  lemma {:induction false} SplitReassembles(s: string) returns (separators: seq<string>)
    ensures |separators| == |Split(s).events| && AllSeparators(separators)
    ensures Weave(Split(s).events, separators) + Split(s).rest == s
    ensures Unbroken(Split(s).rest) && forall e :: e in Split(s).events ==> Unbroken(e)
    decreases |s|
  {
    if Match(s, 0).None? {
      separators := [];
      FirstIsUnbroken(s);
      hide Match, MatchAt, IsSeparator, Unbroken;
    } else {
      hide *;
      FirstIsUnbroken(s);
      var more := SplitReassembles(After(s));
      var sep := Removed(s);
      separators := [sep] + more;
      SplitStep(s);
      OneMore(sep, more);
      WeaveStep(Before(s), Split(After(s)).events, sep, more, Split(After(s)).rest);
    }
  }

  /** The first boundary itself. */
  lemma Removed(s: string) returns (sep: string)
    requires Match(s, 0).Some?
    ensures IsSeparator(sep) && Before(s) + sep + After(s) == s
  {
    MatchIsSeparator(s, 0);
    hide Match, MatchAt, IsSeparator;
    var b := Match(s, 0).value;
    sep := s[b.index..b.index + b.length];
  }

  lemma OneMore(sep: string, more: seq<string>)
    requires IsSeparator(sep) && AllSeparators(more)
    ensures AllSeparators([sep] + more)
  {
    hide IsSeparator;
  }

  lemma WeaveStep(e: string, events: seq<string>, sep: string, separators: seq<string>, rest: string)
    requires |events| == |separators|
    ensures Weave([e] + events, [sep] + separators) + rest == e + sep + (Weave(events, separators) + rest)
  {
    assert ([e] + events)[1..] == events && ([sep] + separators)[1..] == separators;
  }

  lemma {:induction false} MatchIsSeparator(s: string, i: nat)
    requires i <= |s| && Match(s, i).Some?
    ensures var b := Match(s, i).value; IsSeparator(s[b.index..b.index + b.length])
    decreases |s| - i
  {
    if MatchAt(s, i) == 0 {
      MatchIsSeparator(s, i + 1);
    }
  }

  // ------------------------------------------------------------------------------ messages

  /** What trim and trimStart remove: U+FEFF counts as white space there, U+0085 does not. */
  predicate IsTrimmed(c: char) { (IsSpace(c) && c != '\U{85}') || c == '\U{FEFF}' }

  function TrimLeft(s: string): string { TrimStart(s, IsTrimmed) }

  function Trim(s: string): string { TrimEnd(TrimStart(s, IsTrimmed), IsTrimmed) }

  /** replace(/\r\n/g, '\n') */
  function ReplaceCRLF(s: string): string {
    if |s| < 2 then s
    else if s[0] == '\r' && s[1] == '\n' then "\n" + ReplaceCRLF(s[2..])
    else [s[0]] + ReplaceCRLF(s[1..])
  }

  /** replace(/\r/g, '\n') */
  function ReplaceCR(s: string): string {
    if s == "" then "" else [if s[0] == '\r' then '\n' else s[0]] + ReplaceCR(s[1..])
  }

  /** split('\n') */
  function Lines(s: string): (lines: seq<string>)
    ensures lines != []
  {
    if s == "" then [""]
    else
      var rest := Lines(s[1..]);
      if s[0] == '\n' then [""] + rest else [[s[0]] + rest[0]] + rest[1..]
  }

  function Join(lines: seq<string>): string {
    if lines == [] then "" else if |lines| == 1 then lines[0] else lines[0] + "\n" + Join(lines[1..])
  }

  datatype Message = Message(event: string, data: string)

  datatype Fields = Fields(event: string, dataLines: seq<string>)

  function Field(f: Fields, line: string): Fields {
    if line == "" || line[0] == ':' then f
    else if "event:" <= line then
      var name := Trim(line[6..]);
      f.(event := if name == "" then "message" else name)
    else if "data:" <= line then f.(dataLines := f.dataLines + [TrimLeft(line[5..])])
    else f
  }

  function FieldsOf(lines: seq<string>): Fields {
    if lines == [] then Fields("message", []) else Field(FieldsOf(lines[..|lines| - 1]), lines[|lines| - 1])
  }

  function Parsed(rawEvent: string): Option<Message> {
    var f := FieldsOf(Lines(ReplaceCR(ReplaceCRLF(rawEvent))));
    if f.dataLines == [] then None else Some(Message(f.event, Join(f.dataLines)))
  }

  method ParseSSEMessage(rawEvent: string) returns (m: Option<Message>)
    ensures m == Parsed(rawEvent)
  {
    var normalized := ReplaceCR(ReplaceCRLF(rawEvent));
    var lines := Lines(normalized);
    var event := "message";
    var dataLines: seq<string> := [];
    for i := 0 to |lines|
      invariant Fields(event, dataLines) == FieldsOf(lines[..i])
    {
      assert lines[..i + 1][..i] == lines[..i];
      var line := lines[i];
      if line == "" {
        continue;
      }
      if ":" <= line {
        continue;
      }
      if "event:" <= line {
        var name := Trim(line[6..]);
        event := if name != "" then name else "message";
        continue;
      }
      if "data:" <= line {
        dataLines := dataLines + [TrimLeft(line[5..])];
      }
    }
    assert lines[..|lines|] == lines;
    if |dataLines| == 0 {
      return None;
    }
    return Some(Message(event, Join(dataLines)));
  }

  // ------------------------------------------------------------------------------- reading

  datatype ChunkJson = BadChunk(error: string) | Delta(text: string) | NoDelta

  datatype FinalJson = BadFinal(error: string) | Answer(answer: string) | NoAnswer

  /** What JSON decoding makes of the payloads; an error event always throws something. */
  datatype Json = Json(chunk: string -> ChunkJson, final: string -> FinalJson, error: string -> string)

  /** The deltas passed to onChunk, the final answer so far, and the exception thrown, if any. */
  datatype Stream = Stream(deltas: seq<string>, answer: Option<string>, thrown: Option<string>)

  const START := Stream([], None, None)

  function Dispatch(json: Json, st: Stream, m: Message): Stream {
    if m.event == "chunk" then
      match json.chunk(m.data)
      case BadChunk(e) => st.(thrown := Some(e))
      case Delta(text) => if text == "" then st else st.(deltas := st.deltas + [text])
      case NoDelta => st
    else if m.event == "final" then
      match json.final(m.data)
      case BadFinal(e) => st.(thrown := Some(e))
      case Answer(a) => st.(answer := Some(a))
      case NoAnswer => st.(answer := None)
    else if m.event == "error" then st.(thrown := Some(json.error(m.data)))
    else st
  }

  /** handleEvent; nothing is handled after an exception. */
  function Handle(json: Json, st: Stream, rawEvent: string): Stream {
    if st.thrown.Some? then st
    else
      match Parsed(rawEvent)
      case None => st
      case Some(m) => Dispatch(json, st, m)
  }

  function HandleAll(json: Json, st: Stream, events: seq<string>): Stream {
    if events == [] then st else Handle(json, HandleAll(json, st, events[..|events| - 1]), events[|events| - 1])
  }

  lemma {:induction false} HandleConcat(json: Json, st: Stream, xs: seq<string>, ys: seq<string>)
    ensures HandleAll(json, st, xs + ys) == HandleAll(json, HandleAll(json, st, xs), ys)
  {
    if ys == [] {
      assert xs + ys == xs;
    } else {
      assert (xs + ys)[..|xs + ys| - 1] == xs + ys[..|ys| - 1];
      HandleConcat(json, st, xs, ys[..|ys| - 1]);
    }
  }

  lemma {:induction false} NothingAfterThrow(json: Json, st: Stream, events: seq<string>)
    requires st.thrown.Some?
    ensures HandleAll(json, st, events) == st
  {
    if events != [] {
      NothingAfterThrow(json, st, events[..|events| - 1]);
    }
  }

  const ENDED_EARLY := "stream ended early"

  /** After the last read: what is left in the buffer, then the check that an answer came. */
  function Finished(json: Json, st: Stream, rest: string): Stream {
    var last := if Trim(rest) != "" then Handle(json, st, rest) else st;
    if last.thrown.None? && last.answer.None? then last.(thrown := Some(ENDED_EARLY)) else last
  }

  /** What a stream of text comes to, independently of how it arrives. */
  function Outcome(json: Json, text: string): Stream {
    Finished(json, HandleAll(json, START, Split(text).events), Split(text).rest)
  }

  function Concat(pieces: seq<string>): string {
    if pieces == [] then "" else Concat(pieces[..|pieces| - 1]) + pieces[|pieces| - 1]
  }

  /** After `n` reads nothing was thrown, and the buffer and the stream are those of the text read. */
  predicate ReadSoFar(json: Json, pieces: seq<string>, n: nat, buffer: string, st: Stream) {
    && n <= |pieces| && st.thrown.None?
    && Split(Concat(pieces[..n])).rest == buffer
    && HandleAll(json, START, Split(Concat(pieces[..n])).events) == st
  }

  /** Reading one more piece continues the run. */
  lemma OneRead(json: Json, pieces: seq<string>, n: nat, buffer: string, st: Stream)
    requires ReadSoFar(json, pieces, n, buffer, st) && n < |pieces|
    ensures Split(Concat(pieces[..n + 1])).rest == Split(buffer + pieces[n]).rest
    ensures HandleAll(json, START, Split(Concat(pieces[..n + 1])).events) == HandleAll(json, st, Split(buffer + pieces[n]).events)
  {
    var before := Concat(pieces[..n]);
    assert pieces[..n + 1][..n] == pieces[..n];
    assert Concat(pieces[..n + 1]) == before + pieces[n];
    assert Split(before).rest == buffer && HandleAll(json, START, Split(before).events) == st;
    hide *;
    SplitAppend(before, pieces[n]);
    HandleConcat(json, START, Split(before).events, Split(Split(before).rest + pieces[n]).events);
  }

  lemma NothingRead(json: Json, pieces: seq<string>)
    ensures ReadSoFar(json, pieces, 0, "", START)
  {
    assert pieces[..0] == [] && Split("") == Frames([], "");
    hide Split, Handle;
  }

  lemma AllRead(json: Json, pieces: seq<string>, buffer: string, st: Stream)
    requires ReadSoFar(json, pieces, |pieces|, buffer, st)
    ensures Finished(json, st, buffer) == Outcome(json, Concat(pieces))
  {
    assert pieces[..|pieces|] == pieces;
    hide Split, HandleAll, Concat, Finished;
  }

  /** `pieces` are the texts read; the last one reports `done`.  However the text is split, the deltas,
      their order, the answer and the exception are those of the concatenated text. */
  method ReadChatStream(json: Json, pieces: seq<string>) returns (st: Stream)
    requires pieces != []
    ensures st == Outcome(json, Concat(pieces))
  {
    var buffer := "";
    st := START;
    NothingRead(json, pieces);
    var n := 0;
    hide Split, Match, Handle, HandleAll, Trim, Concat, Outcome;
    while n < |pieces|
      invariant ReadSoFar(json, pieces, n, buffer, st)
    {
      OneRead(json, pieces, n, buffer, st);
      buffer, st := Drain(json, buffer + pieces[n], st);
      n := n + 1;
      if st.thrown.Some? {
        Thrown(json, pieces, n, st);
        return;
      }
    }
    AllRead(json, pieces, buffer, st);
    if Trim(buffer) != "" {
      st := Handle(json, st, buffer);
      if st.thrown.Some? {
        return;
      }
    }
    if st.answer.None? {
      st := st.(thrown := Some(ENDED_EARLY));
    }
  }

  /** The inner loop: handle every complete event of the buffer, until one throws. */
  method Drain(json: Json, text: string, before: Stream) returns (buffer: string, st: Stream)
    requires before.thrown.None?
    ensures st == HandleAll(json, before, Split(text).events)
    ensures st.thrown.None? ==> buffer == Split(text).rest
  {
    buffer, st := text, before;
    hide Handle, HandleAll, Match, MatchAt;
    var boundary := Match(buffer, 0);
    while boundary.Some?
      invariant boundary == Match(buffer, 0) && st.thrown.None?
      invariant Split(text).rest == Split(buffer).rest
      invariant HandleAll(json, before, Split(text).events) == HandleAll(json, st, Split(buffer).events)
      decreases |buffer|
    {
      var rawEvent := buffer[..boundary.value.index];
      ghost var later := Split(buffer[boundary.value.index + boundary.value.length..]).events;
      HandleFirst(json, st, rawEvent, later);
      SplitStep(buffer);
      buffer := buffer[boundary.value.index + boundary.value.length..];
      st := Handle(json, st, rawEvent);
      if st.thrown.Some? {
        NothingAfterThrow(json, st, later);
        return;
      }
      boundary := Match(buffer, 0);
    }
    NoneLeft(json, st, buffer);
  }

  lemma NoneLeft(json: Json, st: Stream, buffer: string)
    requires Match(buffer, 0).None?
    ensures HandleAll(json, st, Split(buffer).events) == st && Split(buffer).rest == buffer
  {
  }

  lemma HandleFirst(json: Json, st: Stream, e: string, events: seq<string>)
    ensures HandleAll(json, st, [e] + events) == HandleAll(json, Handle(json, st, e), events)
  {
    HandleConcat(json, st, [e], events);
    assert [e][..0] == [];
  }

  lemma {:induction false} ConcatSplits(pieces: seq<string>, n: nat)
    requires n <= |pieces|
    ensures Concat(pieces[..n]) + Concat(pieces[n..]) == Concat(pieces)
  {
    if n == |pieces| {
      assert pieces[..n] == pieces;
    } else {
      var init, last := pieces[..|pieces| - 1], pieces[|pieces| - 1];
      ConcatSplits(init, n);
      assert init[..n] == pieces[..n] && pieces[n..][..|pieces[n..]| - 1] == init[n..];
      assert Concat(pieces[..n]) + (Concat(init[n..]) + last) == Concat(pieces[..n]) + Concat(init[n..]) + last;
    }
  }

  /** An exception after some reads is the outcome of the whole stream. */
  lemma Thrown(json: Json, pieces: seq<string>, n: nat, st: Stream)
    requires n <= |pieces| && st.thrown.Some? && st == HandleAll(json, START, Split(Concat(pieces[..n])).events)
    ensures st == Outcome(json, Concat(pieces))
  {
    var before, after := Concat(pieces[..n]), Concat(pieces[n..]);
    ConcatSplits(pieces, n);
    SplitAppend(before, after);
    var more := Split(Split(before).rest + after).events;
    HandleConcat(json, START, Split(before).events, more);
    NothingAfterThrow(json, st, more);
  }

  // --------------------------------------------------------------------- what the server sends

  predicate OneLine(s: string) { forall i :: 0 <= i < |s| ==> s[i] != '\r' && s[i] != '\n' }

  /** What the server writes: a named event with marshalled JSON, which is on one line and starts with
      no space. */
  predicate Sendable(m: Message) {
    m.event != "" && OneLine(m.event) && Trim(m.event) == m.event && OneLine(m.data) && TrimLeft(m.data) == m.data
  }

  function Frame(m: Message): string { "event: " + m.event + "\n" + ("data: " + m.data) }

  function Encode(m: Message): string { Frame(m) + "\n\n" }

  function EncodeAll(ms: seq<Message>): string {
    if ms == [] then "" else Encode(ms[0]) + EncodeAll(ms[1..])
  }

  function FramesOf(ms: seq<Message>): seq<string> {
    if ms == [] then [] else [Frame(ms[0])] + FramesOf(ms[1..])
  }

  lemma {:induction false} FirstMatch(s: string, i: nat, k: nat)
    requires i <= k <= |s| && MatchAt(s, k) > 0
    requires forall j :: i <= j < k ==> MatchAt(s, j) == 0
    ensures Match(s, i) == Some(Boundary(k, MatchAt(s, k)))
    decreases k - i
  {
    hide MatchAt;
    if i < k {
      FirstMatch(s, i + 1, k);
    }
  }

  /** A frame's only line feed is followed by the data line. */
  lemma NoneInside(m: Message, rest: string, j: nat)
    requires Sendable(m) && j < |Frame(m)|
    ensures MatchAt(Encode(m) + rest, j) == 0
  {
    var p := 7 + |m.event|;
    assert Frame(m)[p + 1] == 'd';
    assert forall k :: 0 <= k < |Frame(m)| && k != p ==> Frame(m)[k] != '\n' && Frame(m)[k] != '\r' by {
      forall k | 0 <= k < |Frame(m)| && k != p ensures Frame(m)[k] != '\n' && Frame(m)[k] != '\r' {
        FrameAt(m, k);
      }
    }
    assert forall k :: 0 <= k < |Frame(m)| ==> (Encode(m) + rest)[k] == Frame(m)[k];
    hide Frame, Encode, Sendable;
  }

  lemma FrameAt(m: Message, k: nat)
    requires Sendable(m) && k < |Frame(m)| && k != 7 + |m.event|
    ensures Frame(m)[k] != '\n' && Frame(m)[k] != '\r'
  {
    hide Trim, TrimLeft, TrimStart, TrimEnd;
    var p := 7 + |m.event|;
    if k < 7 {
      assert Frame(m)[k] == "event: "[k];
    } else if k < p {
      assert Frame(m)[k] == m.event[k - 7];
    } else if k < p + 7 {
      assert Frame(m)[k] == "data: "[k - p - 1];
    } else {
      assert Frame(m)[k] == m.data[k - p - 7];
    }
  }

  lemma EncodedFirst(m: Message, rest: string)
    requires Sendable(m)
    ensures var s := Encode(m) + rest; Match(s, 0).Some? && Before(s) == Frame(m) && After(s) == rest
  {
    var s, k := Encode(m) + rest, |Frame(m)|;
    assert s[k] == '\n' && s[k + 1] == '\n' && s[..k] == Frame(m) && s[k + 2..] == rest;
    forall j | 0 <= j < k ensures MatchAt(s, j) == 0 {
      NoneInside(m, rest, j);
    }
    assert MatchAt(s, k) == 2;
    hide MatchAt, Match, Encode, Frame, Sendable;
    FirstMatch(s, 0, k);
  }

  lemma {:induction false} EncodedSplits(ms: seq<Message>)
    requires forall i :: 0 <= i < |ms| ==> Sendable(ms[i])
    ensures Split(EncodeAll(ms)) == Frames(FramesOf(ms), "")
  {
    assert Split("") == Frames([], "");
    hide Sendable, Encode, Frame, Match, MatchAt, Before, After, Split;
    if ms == [] {
      assert EncodeAll(ms) == "";
    } else {
      EncodedFirst(ms[0], EncodeAll(ms[1..]));
      SplitStep(EncodeAll(ms));
      EncodedSplits(ms[1..]);
    }
  }

  predicate NoReturn(s: string) { forall i :: 0 <= i < |s| ==> s[i] != '\r' }

  lemma {:induction false} NothingToReplace(s: string)
    requires NoReturn(s)
    ensures ReplaceCRLF(s) == s && ReplaceCR(s) == s
  {
    if s != "" {
      NothingToReplace(s[1..]);
      assert s == [s[0]] + s[1..];
    }
  }

  lemma {:induction false} LinesOfOne(s: string)
    requires OneLine(s)
    ensures Lines(s) == [s]
  {
    if s != "" {
      LinesOfOne(s[1..]);
      assert s == [s[0]] + s[1..];
    }
  }

  lemma {:induction false} LinesOfMore(s: string, rest: string)
    requires OneLine(s)
    ensures Lines(s + "\n" + rest) == [s] + Lines(rest)
  {
    if s == "" {
      assert (s + "\n" + rest)[1..] == rest;
    } else {
      LinesOfMore(s[1..], rest);
      assert (s + "\n" + rest)[1..] == s[1..] + "\n" + rest;
      hide OneLine;
      assert s == [s[0]] + s[1..];
    }
  }

  lemma FrameLines(m: Message)
    requires Sendable(m)
    ensures Lines(ReplaceCR(ReplaceCRLF(Frame(m)))) == ["event: " + m.event, "data: " + m.data]
  {
    hide Trim, TrimLeft, TrimStart, TrimEnd;
    assert NoReturn(Frame(m));
    assert OneLine("event: " + m.event) && OneLine("data: " + m.data);
    hide Sendable, NoReturn, OneLine, Lines, ReplaceCR, ReplaceCRLF;
    NothingToReplace(Frame(m));
    LinesOfMore("event: " + m.event, "data: " + m.data);
    LinesOfOne("data: " + m.data);
  }

  lemma EventField(f: Fields, m: Message)
    requires Sendable(m)
    ensures Field(f, "event: " + m.event) == f.(event := m.event)
  {
    var line := "event: " + m.event;
    Spaced(m.event);
    hide Trim, TrimLeft, OneLine;
    assert line[6..] == " " + m.event;
    assert line[0] == 'e' && "event:" <= line;
  }

  /** A space before a text is trimmed with it. */
  lemma Spaced(s: string)
    ensures Trim(" " + s) == Trim(s) && TrimLeft(" " + s) == TrimLeft(s)
  {
    assert (" " + s)[1..] == s;
    assert TrimStart(" " + s, IsTrimmed) == TrimStart(s, IsTrimmed);
    hide TrimStart, TrimEnd;
  }

  lemma DataField(f: Fields, m: Message)
    requires Sendable(m)
    ensures Field(f, "data: " + m.data) == f.(dataLines := f.dataLines + [m.data])
  {
    var line := "data: " + m.data;
    Spaced(m.data);
    hide Trim, TrimLeft, OneLine;
    assert line[5..] == " " + m.data;
    assert line[0] == 'd' && !("event:" <= line);
  }

  /** What the server frames, the client parses back. */
  lemma ParsedFrame(m: Message)
    requires Sendable(m)
    ensures Parsed(Frame(m)) == Some(m)
  {
    FrameLines(m);
    var a, b := "event: " + m.event, "data: " + m.data;
    var lines := [a, b];
    assert lines[..1] == [a] && lines[..1][..0] == [];
    EventField(Fields("message", []), m);
    DataField(Fields(m.event, []), m);
    assert FieldsOf(lines[..1]) == Fields(m.event, []);
    hide Field, Lines, Sendable, Frame;
    assert FieldsOf(lines) == Fields(m.event, [m.data]);
  }

  // ------------------------------------------------------------------ other frames

  function DataLines(ds: seq<string>): string {
    if ds == [] then "" else "\n" + ("data: " + ds[0] + DataLines(ds[1..]))
  }

  function Prefixed(ds: seq<string>): seq<string> { seq(|ds|, i requires 0 <= i < |ds| => "data: " + ds[i]) }

  predicate DataTexts(ds: seq<string>) {
    forall i :: 0 <= i < |ds| ==> OneLine(ds[i]) && TrimLeft(ds[i]) == ds[i]
  }

  lemma {:induction false} LinesOfBlock(first: string, ds: seq<string>)
    requires OneLine(first) && DataTexts(ds)
    ensures Lines(first + DataLines(ds)) == [first] + Prefixed(ds)
    decreases |ds|
  {
    if ds == [] {
      assert first + DataLines(ds) == first;
      LinesOfOne(first);
    } else {
      var d, rest := "data: " + ds[0], DataLines(ds[1..]);
      assert OneLine(d) && DataTexts(ds[1..]);
      assert first + DataLines(ds) == first + "\n" + (d + rest);
      LinesOfMore(first, d + rest);
      hide Lines, OneLine, DataLines, TrimLeft;
      LinesOfBlock(d, ds[1..]);
      assert Prefixed(ds) == [d] + Prefixed(ds[1..]);
    }
  }

  lemma {:induction false} FieldsOfBlock(m: Message, ds: seq<string>)
    requires Sendable(m) && DataTexts(ds)
    ensures FieldsOf(["event: " + m.event] + Prefixed(ds)) == Fields(m.event, ds)
  {
    var first := ["event: " + m.event];
    if ds == [] {
      EventField(Fields("message", []), m);
      assert first + Prefixed(ds) == [] + first;
      FieldsNext([], first[0]);
    } else {
      var n := |ds| - 1;
      assert Sendable(m.(data := ds[n])) && DataTexts(ds[..n]);
      assert ds[..n] + [ds[n]] == ds;
      assert first + Prefixed(ds) == (first + Prefixed(ds[..n])) + ["data: " + ds[n]];
      hide *;
      FieldsOfBlock(m, ds[..n]);
      DataField(Fields(m.event, ds[..n]), m.(data := ds[n]));
      FieldsNext(first + Prefixed(ds[..n]), "data: " + ds[n]);
    }
  }

  lemma FieldsNext(lines: seq<string>, line: string)
    ensures FieldsOf(lines + [line]) == Field(FieldsOf(lines), line) && FieldsOf([]) == Fields("message", [])
  {
    assert (lines + [line])[..|lines|] == lines;
    hide Field;
  }

  lemma {:induction false} DataLinesNoReturn(ds: seq<string>)
    requires DataTexts(ds)
    ensures NoReturn(DataLines(ds))
  {
    if ds != [] {
      assert OneLine(ds[0]);
      DataLinesNoReturn(ds[1..]);
      hide DataTexts, TrimLeft;
      assert NoReturn("data: ");
    }
  }

  /** An event with several data lines carries them joined by line feeds. */
  lemma ParsedBlock(m: Message, ds: seq<string>)
    requires Sendable(m) && DataTexts(ds) && ds != []
    ensures Parsed("event: " + m.event + DataLines(ds)) == Some(Message(m.event, Join(ds)))
  {
    var first := "event: " + m.event;
    assert OneLine(first) && NoReturn(first);
    DataLinesNoReturn(ds);
    assert NoReturn(first + DataLines(ds));
    hide OneLine, NoReturn, Sendable, DataTexts, Lines, FieldsOf, DataLines, ReplaceCR, ReplaceCRLF;
    NothingToReplace(first + DataLines(ds));
    LinesOfBlock(first, ds);
    FieldsOfBlock(m, ds);
  }

  /** And joining loses none of them. */
  lemma {:induction false} JoinedLines(ds: seq<string>)
    requires ds != [] && forall i :: 0 <= i < |ds| ==> OneLine(ds[i])
    ensures Lines(Join(ds)) == ds
  {
    if |ds| == 1 {
      LinesOfOne(ds[0]);
    } else {
      JoinedLines(ds[1..]);
      LinesOfMore(ds[0], Join(ds[1..]));
      hide Lines, OneLine;
    }
  }

  /** The text with every line feed written as `ending`. */
  function WithEnding(s: string, ending: string): string {
    if s == "" then "" else (if s[0] == '\n' then ending else [s[0]]) + WithEnding(s[1..], ending)
  }

  lemma {:induction false} EndingsReplaced(s: string, ending: string)
    requires NoReturn(s) && (ending == "\r\n" || ending == "\r")
    ensures ReplaceCR(ReplaceCRLF(WithEnding(s, ending))) == s
    ensures WithEnding(s, ending) != "" && ending == "\r" ==> WithEnding(s, ending)[0] != '\n'
  {
    if s != "" {
      var t := WithEnding(s, ending);
      var rest := WithEnding(s[1..], ending);
      EndingsReplaced(s[1..], ending);
      assert s == [s[0]] + s[1..];
      if s[0] == '\n' && ending == "\r\n" {
        assert t[2..] == rest && ReplaceCRLF(t) == "\n" + ReplaceCRLF(rest);
        assert ("\n" + ReplaceCRLF(rest))[1..] == ReplaceCRLF(rest);
      } else {
        assert t[1..] == rest;
        assert ReplaceCRLF(t) == [t[0]] + ReplaceCRLF(rest);
        assert ([t[0]] + ReplaceCRLF(rest))[1..] == ReplaceCRLF(rest);
      }
    }
  }

  /** It does not matter how the lines of a frame end. */
  lemma EndingsDoNotMatter(s: string, ending: string)
    requires NoReturn(s) && (ending == "\r\n" || ending == "\r")
    ensures Parsed(WithEnding(s, ending)) == Parsed(s)
  {
    EndingsReplaced(s, ending);
    NothingToReplace(s);
    hide ReplaceCR, ReplaceCRLF, WithEnding, FieldsOf, Lines;
  }

  lemma OneLineParsed(s: string)
    requires OneLine(s)
    ensures Parsed(s) == var f := Field(Fields("message", []), s); if f.dataLines == [] then None else Some(Message(f.event, Join(f.dataLines)))
  {
    assert NoReturn(s);
    NothingToReplace(s);
    LinesOfOne(s);
    var lines := [s];
    assert lines[..0] == [] && FieldsOf(lines[..0]) == Fields("message", []);
    hide ReplaceCR, ReplaceCRLF, Lines, OneLine, NoReturn, Field, Join;
    assert FieldsOf(lines) == Field(Fields("message", []), s);
  }

  /** A comment alone is no event, and data without a name, or with a blank one, is a "message". */
  lemma UnnamedFrames(comment: string, data: string)
    requires OneLine(comment) && OneLine(data) && TrimLeft(data) == data
    ensures Parsed(":" + comment) == None
    ensures Parsed("data: " + data) == Some(Message("message", data))
    ensures Parsed("event:" + "\n" + ("data: " + data)) == Some(Message("message", data))
  {
    NamedMessage(data);
    DataField(Fields("message", []), Message("message", data));
    CommentField(comment);
    OneLineParsed(":" + comment);
    OneLineParsed("data: " + data);
    BlankName();
    TwoLinesParsed("event:", "data: " + data);
    hide Parsed, Field, TrimLeft, Sendable;
  }

  predicate Padding(s: string) { OneLine(s) && forall i :: 0 <= i < |s| ==> IsTrimmed(s[i]) }

  lemma {:induction false} PaddedLeft(before: string, s: string)
    requires Padding(before)
    ensures TrimLeft(before + s) == TrimLeft(s)
  {
    hide IsTrimmed;
    if before == "" {
      assert before + s == s;
    } else {
      assert (before + s)[1..] == before[1..] + s;
      PaddedLeft(before[1..], s);
    }
  }

  lemma {:induction false} PaddedRight(s: string, after: string)
    requires Padding(after)
    ensures TrimEnd(s + after, IsTrimmed) == TrimEnd(s, IsTrimmed)
  {
    hide IsTrimmed;
    if after == "" {
      assert s + after == s;
    } else {
      assert (s + after)[..|s + after| - 1] == s + after[..|after| - 1];
      PaddedRight(s, after[..|after| - 1]);
    }
  }

  /** A text that is trimmed already, with white space on both sides. */
  lemma PaddedName(before: string, name: string, after: string)
    requires Padding(before) && Padding(after) && name != "" && Trim(name) == name
    ensures Trim(before + name + after) == name
  {
    var i := TrimStartIs(name, IsTrimmed);
    var j := TrimEndIs(name[i..], IsTrimmed);
    assert |name[i..][..j]| == |name| ==> i == 0;
    assert TrimStart(name, IsTrimmed) == name && TrimEnd(name, IsTrimmed) == name && !IsTrimmed(name[0]);
    assert before + (name + after) == before + name + after;
    PaddedLeft(before, name + after);
    assert TrimLeft(name + after) == name + after;
    hide IsTrimmed;
    PaddedRight(name, after);
  }

  /** White space around an event name, and before the data, does not matter; after the data it stays. */
  lemma PaddingIsTrimmed(m: Message, a: string, b: string, c: string)
    requires Sendable(m) && Padding(a) && Padding(b) && Padding(c)
    ensures Parsed("event:" + (a + m.event + b) + "\n" + ("data:" + (c + m.data))) == Some(m)
  {
    var name, text := a + m.event + b, c + m.data;
    PaddedName(a, m.event, b);
    PaddedLeft(c, m.data);
    assert OneLine("event:" + name) && OneLine("data:" + text);
    TwoLinesParsed("event:" + name, "data:" + text);
    hide Trim, TrimLeft, OneLine, Padding, Parsed;
    assert ("event:" + name)[6..] == name && ("data:" + text)[5..] == text;
    assert Field(Fields("message", []), "event:" + name) == Fields(m.event, []);
    assert Field(Fields(m.event, []), "data:" + text) == Fields(m.event, [m.data]);
  }

  lemma BlankName()
    ensures OneLine("event:") && Field(Fields("message", []), "event:") == Fields("message", [])
  {
    assert "event:"[6..] == "" && Trim("") == "";
    hide Trim;
  }

  lemma TwoLinesParsed(a: string, b: string)
    requires OneLine(a) && OneLine(b)
    ensures Parsed(a + "\n" + b) == var f := Field(Field(Fields("message", []), a), b); if f.dataLines == [] then None else Some(Message(f.event, Join(f.dataLines)))
  {
    assert NoReturn(a + "\n" + b);
    NothingToReplace(a + "\n" + b);
    LinesOfOne(b);
    LinesOfMore(a, b);
    var lines := [a, b];
    assert lines[..1] == [a] && lines[..1][..0] == [] && [a] + [b] == lines;
    hide ReplaceCR, ReplaceCRLF, Lines, OneLine, NoReturn, Field, Join;
    assert FieldsOf(lines[..1]) == Field(Fields("message", []), a);
    assert FieldsOf(lines) == Field(Field(Fields("message", []), a), b);
  }

  lemma NamedMessage(data: string)
    requires OneLine(data) && TrimLeft(data) == data
    ensures Sendable(Message("message", data)) && OneLine("data: " + data)
  {
    var name := "message";
    LetterStays('m');
    LetterStays('e');
    hide TrimLeft, IsTrimmed, IsSpace;
    assert name[0] == 'm' && name[|name| - 1] == 'e';
    assert TrimStart(name, IsTrimmed) == name && TrimEnd(name, IsTrimmed) == name;
    assert Trim(name) == name && OneLine(name);
  }

  lemma LetterStays(c: char)
    requires 'a' <= c <= 'z'
    ensures !IsTrimmed(c)
  {
  }

  lemma CommentField(comment: string)
    requires OneLine(comment)
    ensures OneLine(":" + comment) && Field(Fields("message", []), ":" + comment) == Fields("message", [])
  {
    assert (":" + comment)[0] == ':';
    hide Trim, TrimLeft;
  }

  /** Dispatching messages in order until one throws. */
  function Received(json: Json, st: Stream, ms: seq<Message>): Stream
    decreases |ms|
  {
    if ms == [] || st.thrown.Some? then st else Received(json, Dispatch(json, st, ms[0]), ms[1..])
  }

  lemma {:induction false} FramesHandled(json: Json, st: Stream, ms: seq<Message>)
    requires forall i :: 0 <= i < |ms| ==> Sendable(ms[i])
    ensures HandleAll(json, st, FramesOf(ms)) == Received(json, st, ms)
    decreases |ms|
  {
    hide Sendable, Dispatch, Parsed;
    if ms != [] {
      ParsedFrame(ms[0]);
      HandleFirst(json, st, Frame(ms[0]), FramesOf(ms[1..]));
      FramesHandled(json, Handle(json, st, Frame(ms[0])), ms[1..]);
      if st.thrown.Some? {
        NothingAfterThrow(json, st, FramesOf(ms));
      }
    }
  }

  /** Round trip: whatever the server sends and however it is cut into reads, the client dispatches
      exactly those messages in that order. */
  lemma StreamDelivered(json: Json, ms: seq<Message>)
    requires forall i :: 0 <= i < |ms| ==> Sendable(ms[i])
    ensures var st := Received(json, START, ms);
      Outcome(json, EncodeAll(ms)) == if st.thrown.None? && st.answer.None? then st.(thrown := Some(ENDED_EARLY)) else st
  {
    EncodedSplits(ms);
    FramesHandled(json, START, ms);
    assert Trim("") == "";
    hide Split, HandleAll, Received, Trim;
  }

  // ------------------------------------------------------------------- what the caller gets

  /** The exception that handling a message raises, if any. */
  function Raises(json: Json, m: Message): Option<string> {
    if m.event == "error" then Some(json.error(m.data))
    else if m.event == "chunk" && json.chunk(m.data).BadChunk? then Some(json.chunk(m.data).error)
    else if m.event == "final" && json.final(m.data).BadFinal? then Some(json.final(m.data).error)
    else None
  }

  /** The non-empty texts of the chunk messages, in the order of the messages. */
  function Texts(json: Json, ms: seq<Message>): seq<string> {
    if ms == [] then []
    else
      var chunk := json.chunk(ms[0].data);
      (if ms[0].event == "chunk" && chunk.Delta? && chunk.text != "" then [chunk.text] else []) + Texts(json, ms[1..])
  }

  lemma {:induction false} TextsInOrder(json: Json, xs: seq<Message>, ys: seq<Message>)
    ensures Texts(json, xs + ys) == Texts(json, xs) + Texts(json, ys)
  {
    if xs == [] {
      assert xs + ys == ys;
    } else {
      assert (xs + ys)[1..] == xs[1..] + ys;
      TextsInOrder(json, xs[1..], ys);
    }
  }

  /** `answer` is that of the last final message. */
  ghost predicate LastAnswer(json: Json, ms: seq<Message>, answer: Option<string>) {
    && ((forall k :: 0 <= k < |ms| ==> ms[k].event != "final") ==> answer == None)
    && (forall k :: 0 <= k < |ms| && ms[k].event == "final" && (forall j :: k < j < |ms| ==> ms[j].event != "final") ==>
          answer == match json.final(ms[k].data) case Answer(a) => Some(a) case _ => None)
  }

  lemma {:induction false} ReceivedLast(json: Json, st: Stream, ms: seq<Message>, m: Message)
    ensures Received(json, st, ms + [m]) == Received(json, Received(json, st, ms), [m])
    decreases |ms|
  {
    hide Dispatch;
    if ms != [] && st.thrown.None? {
      assert (ms + [m])[1..] == ms[1..] + [m];
      ReceivedLast(json, Dispatch(json, st, ms[0]), ms[1..], m);
    } else if ms == [] {
      assert ms + [m] == [m];
    }
  }

  /** One more message that raises nothing. */
  lemma OneReceived(json: Json, st: Stream, m: Message)
    requires st.thrown.None? && Raises(json, m).None?
    ensures var st' := Received(json, st, [m]);
      && st'.thrown.None? && st'.deltas == st.deltas + Texts(json, [m])
      && st'.answer == if m.event != "final" then st.answer else match json.final(m.data) case Answer(a) => Some(a) case _ => None
  {
    assert [m][1..] == [] && Texts(json, []) == [];
    assert Received(json, st, [m]) == Dispatch(json, st, m);
    hide Received;
  }

  lemma AnswerNext(json: Json, ms: seq<Message>, m: Message, before: Option<string>, answer: Option<string>)
    requires LastAnswer(json, ms, before)
    requires answer == if m.event != "final" then before else match json.final(m.data) case Answer(a) => Some(a) case _ => None
    ensures LastAnswer(json, ms + [m], answer)
  {
    var all := ms + [m];
    assert forall i :: 0 <= i < |ms| ==> all[i] == ms[i];
    assert all[|ms|] == m;
  }

  /** Messages that raise nothing. */
  lemma {:induction false} QuietlyReceived(json: Json, ms: seq<Message>)
    requires forall i :: 0 <= i < |ms| ==> Raises(json, ms[i]).None?
    ensures var st := Received(json, START, ms);
      st.thrown.None? && st.deltas == Texts(json, ms) && LastAnswer(json, ms, st.answer)
  {
    if ms != [] {
      var init, m := ms[..|ms| - 1], ms[|ms| - 1];
      assert forall i :: 0 <= i < |init| ==> init[i] == ms[i];
      assert init + [m] == ms;
      hide *;
      QuietlyReceived(json, init);
      ReceivedLast(json, START, init, m);
      var before := Received(json, START, init);
      OneReceived(json, before, m);
      TextsInOrder(json, init, [m]);
      AnswerNext(json, init, m, before.answer, Received(json, START, ms).answer);
    }
  }

  /** Up to the first message that raises an exception, and no further. */
  lemma ReceivedUntil(json: Json, ms: seq<Message>, n: nat)
    requires n < |ms| && (forall i :: 0 <= i < n ==> Raises(json, ms[i]).None?) && Raises(json, ms[n]).Some?
    ensures Received(json, START, ms) == Received(json, START, ms[..n]).(thrown := Raises(json, ms[n]))
    ensures Received(json, START, ms[..n]).thrown.None?
  {
    hide *;
    QuietlyReceived(json, ms[..n]);
    ReceivedLast(json, START, ms[..n], ms[n]);
    Thrower(json, Received(json, START, ms[..n]), ms[n]);
    StopsThere(json, ms[..n] + [ms[n]], ms[n + 1..]);
    Cut(ms, n);
  }

  lemma Cut(ms: seq<Message>, n: nat)
    requires n < |ms|
    ensures ms[..n] + [ms[n]] + ms[n + 1..] == ms
  {
  }

  /** Whatever the server sends, however it is cut into reads, the caller gets the texts of the chunk messages in
      their order, the last final message's answer, and the first exception: everything up to the first message
      that raises one, and nothing after it. */
  lemma DeltasArriveInOrder(json: Json, ms: seq<Message>, n: nat)
    requires (forall i :: 0 <= i < |ms| ==> Sendable(ms[i])) && n <= |ms|
    requires (forall i :: 0 <= i < n ==> Raises(json, ms[i]).None?) && (n < |ms| ==> Raises(json, ms[n]).Some?)
    ensures var st := Outcome(json, EncodeAll(ms));
      && st.deltas == Texts(json, ms[..n]) && LastAnswer(json, ms[..n], st.answer)
      && st.thrown == if n < |ms| then Raises(json, ms[n]) else if st.answer.None? then Some(ENDED_EARLY) else None
  {
    hide *;
    StreamDelivered(json, ms);
    QuietlyReceived(json, ms[..n]);
    if n < |ms| {
      ReceivedUntil(json, ms, n);
    } else {
      assert ms[..n] == ms;
    }
  }

  lemma Thrower(json: Json, st: Stream, m: Message)
    requires st.thrown.None? && Raises(json, m).Some?
    ensures Received(json, st, [m]) == st.(thrown := Raises(json, m))
  {
    assert Received(json, st, [m]) == Dispatch(json, st, m);
    hide Received;
  }

  lemma {:induction false} StopsThere(json: Json, ms: seq<Message>, more: seq<Message>)
    requires Received(json, START, ms).thrown.Some?
    ensures Received(json, START, ms + more) == Received(json, START, ms)
  {
    if more == [] {
      assert ms + more == ms;
    } else {
      var init, m := more[..|more| - 1], more[|more| - 1];
      StopsThere(json, ms, init);
      assert ms + more == (ms + init) + [m];
      ReceivedLast(json, START, ms + init, m);
    }
  }

  lemma {:induction false} NoneMatches(s: string, i: nat)
    requires i <= |s| && forall j :: i <= j <= |s| ==> MatchAt(s, j) == 0
    ensures Match(s, i).None?
    decreases |s| - i
  {
    hide MatchAt;
    if i < |s| {
      NoneMatches(s, i + 1);
    }
  }

  lemma MatchAtStays(s: string, t: string, j: nat)
    ensures MatchAt(s, j) > 0 ==> MatchAt(s + t, j) == MatchAt(s, j)
  {
  }

  lemma NoneHere(m: Message, j: nat)
    requires Sendable(m) && j < |Frame(m)|
    ensures MatchAt(Frame(m), j) == 0
  {
    assert Encode(m) + "" == Frame(m) + "\n\n";
    hide *;
    NoneInside(m, "", j);
    MatchAtStays(Frame(m), "\n\n", j);
  }

  lemma FrameIsUnbroken(m: Message)
    requires Sendable(m)
    ensures Split(Frame(m)) == Frames([], Frame(m))
  {
    var s := Frame(m);
    assert MatchAt(s, |s|) == 0;
    hide MatchAt, Match, Frame, Sendable;
    forall j | 0 <= j <= |s| ensures MatchAt(s, j) == 0 {
      if j < |s| {
        NoneHere(m, j);
      }
    }
    NoneMatches(s, 0);
  }

  lemma {:induction false} FramesOfMore(ms: seq<Message>, m: Message)
    ensures FramesOf(ms + [m]) == FramesOf(ms) + [Frame(m)]
  {
    hide Frame;
    if ms == [] {
      assert ms + [m] == [m] && [m][1..] == [];
    } else {
      assert (ms + [m])[1..] == ms[1..] + [m];
      FramesOfMore(ms[1..], m);
    }
  }

  lemma FrameIsNotBlank(m: Message)
    ensures Trim(Frame(m)) != ""
  {
    LetterStays('e');
    assert Frame(m)[0] == 'e';
    hide Frame, IsTrimmed, IsSpace;
    var i := TrimStartIs(Frame(m), IsTrimmed);
    assert i == 0 && TrimStart(Frame(m), IsTrimmed) == Frame(m);
    var j := TrimEndIs(Frame(m), IsTrimmed);
  }

  /** Handling a frame in the buffer's rest, and handling it as a complete event. */
  lemma FinishedFrame(json: Json, st: Stream, events: seq<string>, m: Message)
    requires Trim(Frame(m)) != "" && Trim("") == "" && st == HandleAll(json, START, events)
    ensures Finished(json, st, Frame(m)) == Finished(json, HandleAll(json, START, events + [Frame(m)]), "")
  {
    assert (events + [Frame(m)])[..|events|] == events;
    hide Handle, Frame, Trim;
  }

  /** The last event need not be terminated: what is left in the buffer at the end is handled like the others. */
  lemma LastEventCounts(json: Json, ms: seq<Message>, m: Message)
    requires Sendable(m) && forall i :: 0 <= i < |ms| ==> Sendable(ms[i])
    ensures Outcome(json, EncodeAll(ms) + Frame(m)) == Outcome(json, EncodeAll(ms + [m]))
  {
    var whole, part := ms + [m], EncodeAll(ms) + Frame(m);
    assert forall i :: 0 <= i < |whole| ==> Sendable(whole[i]);
    hide *;
    EncodedSplits(ms);
    EncodedSplits(whole);
    SplitAppend(EncodeAll(ms), Frame(m));
    FrameIsUnbroken(m);
    FramesOfMore(ms, m);
    FrameIsNotBlank(m);
    SameSplit(EncodeAll(ms), m, FramesOf(ms));
    OutcomeIs(json, part);
    OutcomeIs(json, EncodeAll(whole));
    FinishedFrame(json, HandleAll(json, START, FramesOf(ms)), FramesOf(ms), m);
  }

  lemma SameSplit(s: string, m: Message, events: seq<string>)
    requires Split(s) == Frames(events, "") && Split(Frame(m)) == Frames([], Frame(m))
    requires Split(s + Frame(m)) == Frames(Split(s).events + Split(Split(s).rest + Frame(m)).events, Split(Split(s).rest + Frame(m)).rest)
    ensures Split(s + Frame(m)) == Frames(events, Frame(m)) && Trim("") == ""
  {
    assert "" + Frame(m) == Frame(m) && events + [] == events;
    hide Split, Frame;
  }

  lemma OutcomeIs(json: Json, text: string)
    ensures Outcome(json, text) == Finished(json, HandleAll(json, START, Split(text).events), Split(text).rest)
  {
  }
}

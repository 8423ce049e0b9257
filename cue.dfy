/** The CUE-sheet reader: each line of the sheet is trimmed and classified by
    its leading keyword, and the recognised lines yield the events the reader
    reports (a file, a track number, a title, an index position). */
module Cue {
  import opened Wrappers
  import opened Text

  /** Track numbers are `u32`. */
  const U32Limit: nat := 0x1_0000_0000

  newtype U32 = n: int | 0 <= n < U32Limit

  datatype CueEvent =
    | File(path: string)
    | Track(number: U32)
    | Title(title: string)
    | Index(position: string)

  /** `str::lines`: the pieces between line feeds, without an empty piece after
      a final line feed. A carriage return before a line feed stays in its
      line; every line is trimmed before use, which removes it. */
  function Lines(content: string): (ls: seq<string>)
    ensures forall k :: 0 <= k < |ls| ==> '\n' !in ls[k]
    ensures content == [] ==> ls == []
  {
    var parts := Split(content, '\n');
    if parts[|parts| - 1] == [] then parts[..|parts| - 1] else parts
  }

  /** The lines are the sheet's pieces between line feeds: joined with line
      feeds they give the sheet back, less a final line feed if it had one. */
  lemma LinesJoin(content: string)
    requires content != []
    ensures Lines(content) != []
    ensures content[|content| - 1] == '\n' ==> Join(Lines(content), '\n') + "\n" == content
    ensures content[|content| - 1] != '\n' ==> Join(Lines(content), '\n') == content
  {
    var parts := Split(content, '\n');
    JoinSplit(content, '\n');
    var last := parts[|parts| - 1];
    if |parts| == 1 {
      assert content == last;
      assert Lines(content) == parts;
      assert content[|content| - 1] in last;
    } else {
      JoinSnoc(parts, '\n');
      var init := parts[..|parts| - 1];
      if last == [] {
        assert Lines(content) == init;
        assert content == Join(init, '\n') + "\n";
      } else {
        assert Lines(content) == parts;
        assert content == Join(init, '\n') + ['\n'] + last;
        assert content[|content| - 1] == last[|last| - 1];
        assert last[|last| - 1] in last;
      }
    }
  }

  /** No two positions of `line` both hold a double quote. */
  predicate FewerThanTwoQuotes(line: string) {
    forall i, j :: 0 <= i < j < |line| ==> !(line[i] == '"' && line[j] == '"')
  }

  lemma OneQuoteOnly(line: string, start: nat)
    requires start < |line| && line[start] == '"'
    requires '"' !in line[..start] && '"' !in line[start + 1..]
    ensures FewerThanTwoQuotes(line)
  {
    forall i, j | 0 <= i < j < |line| && line[i] == '"'
      ensures line[j] != '"'
    {
      assert line[start + 1..][j - start - 1] == line[j];
    }
  }

  /** The text between the first and the second double quote of a line, when
      the line has two. */
  function Quoted(line: string): (r: Option<string>)
    ensures r.Some? ==> '"' !in r.value
    ensures r.None? <==> FewerThanTwoQuotes(line)
  {
    match IndexOf(line, '"')
    case None => None
    case Some(start) =>
      var rest := line[start + 1..];
      match IndexOf(rest, '"')
      case None =>
        OneQuoteOnly(line, start);
        None
      case Some(len) =>
        assert line[start + 1 + len] == rest[len];
        Some(rest[..len])
  }

  /** Quoting is undone: text without quotes, placed between the first two
      quotes of a line, is what `Quoted` finds there. */
  lemma QuotedOfWrapped(before: string, text: string, after: string)
    requires '"' !in before && '"' !in text
    ensures Quoted(before + ['"'] + text + ['"'] + after) == Some(text)
  {
    var line := before + ['"'] + text + ['"'] + after;
    assert line[..|before|] == before;
    assert line[|before|] == '"';
    var rest := line[|before| + 1..];
    assert rest == text + ['"'] + after;
    assert rest[..|text|] == text;
    assert rest[|text|] == '"';
  }

  /** The event of one trimmed line. The keyword is matched as a prefix, in the
      order FILE, TRACK, TITLE, INDEX, with no word boundary required. */
  function LineEvent(line: string): Option<CueEvent>
  {
    if "FILE" <= line then
      match Quoted(line)
      case Some(p) => Some(File(p))
      case None => None
    else if "TRACK" <= line then
      var ws := Words(line);
      if |ws| >= 2 then
        match ParseUnsigned(ws[1], U32Limit)
        case Some(n) => Some(Track(n as U32))
        case None => None
      else None
    else if "TITLE" <= line then
      match Quoted(line)
      case Some(t) => Some(Title(t))
      case None => None
    else if "INDEX" <= line then
      var ws := Words(line);
      if |ws| >= 3 then Some(Index(ws[2])) else None
    else None
  }

  /** What a line's keyword implies about its event: a FILE or TITLE line
      yields the quoted text exactly when it has two quotes, a TRACK line the
      value of its second word when that is a `u32`, an INDEX line its third
      word when there is one, and any other line nothing. */
  lemma LineEventByKeyword(line: string, e: Option<CueEvent>)
    requires e == LineEvent(line)
    ensures "FILE" <= line ==> (e.Some? <==> !FewerThanTwoQuotes(line))
    ensures e.Some? && e.value.File? ==> "FILE" <= line && '"' !in e.value.path
    ensures e.Some? && e.value.Track? ==>
              !("FILE" <= line) && "TRACK" <= line
              && |Words(line)| >= 2 && ParseUnsigned(Words(line)[1], U32Limit) == Some(e.value.number as nat)
    ensures e.Some? && e.value.Title? ==>
              !("FILE" <= line) && !("TRACK" <= line) && "TITLE" <= line && '"' !in e.value.title
    ensures e.Some? && e.value.Index? ==>
              !("FILE" <= line) && !("TRACK" <= line) && !("TITLE" <= line) && "INDEX" <= line
              && |Words(line)| >= 3 && e.value.position == Words(line)[2]
              && e.value.position != [] && NoWhitespace(e.value.position)
    ensures !("FILE" <= line) && "TRACK" <= line ==>
              (e.Some? <==> |Words(line)| >= 2 && ParseUnsigned(Words(line)[1], U32Limit).Some?)
    ensures !("FILE" <= line) && !("TRACK" <= line) && "TITLE" <= line ==>
              (e.Some? <==> !FewerThanTwoQuotes(line))
    ensures !("FILE" <= line) && !("TRACK" <= line) && !("TITLE" <= line) && "INDEX" <= line ==>
              (e.Some? <==> |Words(line)| >= 3)
    ensures !("FILE" <= line || "TRACK" <= line || "TITLE" <= line || "INDEX" <= line) ==> e.None?
  {
  }

  /** What one raw line contributes: it is trimmed, and a blank line is skipped. */
  function RawLineEvents(raw: string): seq<CueEvent> {
    var line := Trim(raw);
    if line == [] then [] else AsSeq(LineEvent(line))
  }

  /** A raw line yields at most one event: none when it is blank, and
      otherwise the event of the trimmed line, if it has one. */
  lemma RawLineEventsOfLine(raw: string)
    ensures |RawLineEvents(raw)| <= 1
    ensures Trim(raw) == [] ==> RawLineEvents(raw) == []
    ensures forall e :: e in RawLineEvents(raw) ==> Trim(raw) != [] && LineEvent(Trim(raw)) == Some(e)
  {
  }

  /** What a per-line function yields for each line in turn, concatenated. */
  function ConcatLines(f: string -> seq<CueEvent>, lines: seq<string>): seq<CueEvent> {
    if lines == [] then [] else ConcatLines(f, lines[..|lines| - 1]) + f(lines[|lines| - 1])
  }

  lemma ConcatLinesSnoc(f: string -> seq<CueEvent>, lines: seq<string>, last: string)
    ensures ConcatLines(f, lines + [last]) == ConcatLines(f, lines) + f(last)
  {
    assert (lines + [last])[..|lines|] == lines;
  }

  /** One more line of a sheet adds that line's events. */
  lemma ConcatLinesPrefix(f: string -> seq<CueEvent>, lines: seq<string>, i: nat)
    requires i < |lines|
    ensures ConcatLines(f, lines[..i + 1]) == ConcatLines(f, lines[..i]) + f(lines[i])
  {
    assert lines[..i + 1][..i] == lines[..i];
  }

  /** Lines are read independently: the events of two runs of lines are the
      events of the first followed by those of the second. */
  lemma {:induction false} ConcatLinesAppend(f: string -> seq<CueEvent>, a: seq<string>, b: seq<string>)
    ensures ConcatLines(f, a + b) == ConcatLines(f, a) + ConcatLines(f, b)
    decreases |b|
  {
    if b == [] {
      assert a + b == a;
    } else {
      var last := b[|b| - 1];
      var init := b[..|b| - 1];
      assert a + b == (a + init) + [last];
      assert b == init + [last];
      ConcatLinesAppend(f, a, init);
      ConcatLinesSnoc(f, a + init, last);
      ConcatLinesSnoc(f, init, last);
    }
  }

  /** The events of a sequence of lines, line by line. */
  function LinesEvents(lines: seq<string>): seq<CueEvent> {
    ConcatLines(RawLineEvents, lines)
  }

  /** The events of a whole sheet. */
  function CueEvents(content: string): seq<CueEvent> {
    LinesEvents(Lines(content))
  }

  /** Splitting a sheet between two lines splits its events there. */
  lemma LinesEventsAppend(a: seq<string>, b: seq<string>)
    ensures LinesEvents(a + b) == LinesEvents(a) + LinesEvents(b)
  {
    ConcatLinesAppend(RawLineEvents, a, b);
  }

  /** The path of the last file event, or `init` when there is none. */
  function LastFile(events: seq<CueEvent>, init: string): (r: string)
    ensures (forall k :: 0 <= k < |events| ==> !events[k].File?) ==> r == init
  {
    if events == [] then init
    else if events[|events| - 1].File? then events[|events| - 1].path
    else LastFile(events[..|events| - 1], init)
  }

  /** The number of the last track event, or `init` when there is none. */
  function LastTrack(events: seq<CueEvent>, init: U32): (r: U32)
    ensures (forall k :: 0 <= k < |events| ==> !events[k].Track?) ==> r == init
  {
    if events == [] then init
    else if events[|events| - 1].Track? then events[|events| - 1].number
    else LastTrack(events[..|events| - 1], init)
  }

  /** The current file and track number come from the events: each is its
      initial value or was read from a line of the sheet. */
  lemma {:induction false} LastComesFromEvents(events: seq<CueEvent>, initFile: string, initTrack: U32)
    ensures LastFile(events, initFile) == initFile || File(LastFile(events, initFile)) in events
    ensures LastTrack(events, initTrack) == initTrack || Track(LastTrack(events, initTrack)) in events
  {
    if events != [] {
      var prefix := events[..|events| - 1];
      LastComesFromEvents(prefix, initFile, initTrack);
      assert events == prefix + [events[|events| - 1]];
    }
  }

  lemma LastFileSnoc(events: seq<CueEvent>, e: CueEvent, init: string)
    ensures LastFile(events + [e], init) == if e.File? then e.path else LastFile(events, init)
  {
    assert (events + [e])[..|events|] == events;
  }

  lemma LastTrackSnoc(events: seq<CueEvent>, e: CueEvent, init: U32)
    ensures LastTrack(events + [e], init) == if e.Track? then e.number else LastTrack(events, init)
  {
    assert (events + [e])[..|events|] == events;
  }

  /** Events that are not file events leave the current file as it was. */
  lemma {:induction false} LastFileSkipsOthers(events: seq<CueEvent>, others: seq<CueEvent>, init: string)
    requires forall k :: 0 <= k < |others| ==> !others[k].File?
    ensures LastFile(events + others, init) == LastFile(events, init)
    decreases |others|
  {
    if others != [] {
      assert (events + others)[..|events + others| - 1] == events + others[..|others| - 1];
      LastFileSkipsOthers(events, others[..|others| - 1], init);
    } else {
      assert events + others == events;
    }
  }

  /** The current file is the path of the most recent file event. */
  lemma LastFileIsLatest(before: seq<CueEvent>, path: string, after: seq<CueEvent>, init: string)
    requires forall k :: 0 <= k < |after| ==> !after[k].File?
    ensures LastFile(before + [File(path)] + after, init) == path
  {
    LastFileSkipsOthers(before + [File(path)], after, init);
  }

  /** Reads a sheet line by line, reporting each recognised line's event and
      keeping the current file and track number up to date. */
  method HandleCueFile(content: string) returns (events: seq<CueEvent>, currentFile: string, currentTrackNumber: U32)
    ensures events == CueEvents(content)
    ensures currentFile == LastFile(events, "")
    ensures currentTrackNumber == LastTrack(events, 0)
  {
    var lines := Lines(content);
    events, currentFile, currentTrackNumber := [], "", 0;
    for i := 0 to |lines|
      invariant events == LinesEvents(lines[..i])
      invariant currentFile == LastFile(events, "")
      invariant currentTrackNumber == LastTrack(events, 0)
    {
      ConcatLinesPrefix(RawLineEvents, lines, i);
      var line := Trim(lines[i]);
      if line == [] {
        assert RawLineEvents(lines[i]) == [];
        continue;
      }
      var event := LineEvent(line);
      assert RawLineEvents(lines[i]) == AsSeq(event);
      if event.Some? {
        LastFileSnoc(events, event.value, "");
        LastTrackSnoc(events, event.value, 0);
        events := events + [event.value];
        if event.value.File? {
          currentFile := event.value.path;
        } else if event.value.Track? {
          currentTrackNumber := event.value.number;
        }
      }
    }
    assert lines[..|lines|] == lines;
  }

  /** A FILE line yields the text between its first two quotes. */
  lemma FileOfQuoted(before: string, text: string, after: string)
    requires "FILE" <= before && '"' !in before && '"' !in text
    ensures LineEvent(before + ['"'] + text + ['"'] + after) == Some(File(text))
  {
    var line := before + ['"'] + text + ['"'] + after;
    QuotedOfWrapped(before, text, after);
    assert line[..4] == before[..4];
  }

  /** A TITLE line yields the text between its first two quotes. */
  lemma TitleOfQuoted(before: string, text: string, after: string)
    requires "TITLE" <= before && '"' !in before && '"' !in text
    ensures LineEvent(before + ['"'] + text + ['"'] + after) == Some(Title(text))
  {
    var line := before + ['"'] + text + ['"'] + after;
    QuotedOfWrapped(before, text, after);
    assert line[..5] == before[..5];
    assert line[0] == 'T' && line[1] == 'I';
  }

  /** A FILE line without a closing quote yields nothing, however the rest reads. */
  lemma FileWithoutQuotes(line: string)
    requires "FILE" <= line && '"' !in line
    ensures LineEvent(line).None?
  {
  }

  /** A track line, written as words separated by spaces, yields the number
      its second word parses to, if any. */
  lemma TrackOfWords(ws: seq<string>)
    requires |ws| >= 2 && ws[0] == "TRACK"
    requires forall k :: 0 <= k < |ws| ==> ws[k] != [] && NoWhitespace(ws[k])
    ensures LineEvent(JoinWords(ws)) == match ParseUnsigned(ws[1], U32Limit)
                                        case Some(n) => Some(Track(n as U32))
                                        case None => None
  {
    var line := JoinWords(ws);
    WordsOfJoinWords(ws);
    assert line == "TRACK" + " " + JoinWords(ws[1..]);
    assert line[..5] == "TRACK";
    assert line[0] == 'T';
  }

  /** An index line, written as words separated by spaces, yields its third
      word verbatim, if there is one. */
  lemma IndexOfWords(ws: seq<string>)
    requires |ws| >= 2 && ws[0] == "INDEX"
    requires forall k :: 0 <= k < |ws| ==> ws[k] != [] && NoWhitespace(ws[k])
    ensures LineEvent(JoinWords(ws)) == if |ws| >= 3 then Some(Index(ws[2])) else None
  {
    var line := JoinWords(ws);
    WordsOfJoinWords(ws);
    assert line == "INDEX" + " " + JoinWords(ws[1..]);
    assert line[..5] == "INDEX";
    assert line[0] == 'I';
  }

  /** `01` is track 1: leading zeros are accepted. */
  lemma ParseLeadingZero()
    ensures ParseUnsigned("01", U32Limit) == Some(1)
  {
    assert "01"[..1] == "0";
    assert "01"[..1][..0] == "";
  }
}

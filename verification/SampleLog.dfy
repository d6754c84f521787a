/** The append-only JSON-lines sample log of data/extended_basis_probe.py, and what its loader
    makes of a file that crashes have cut anywhere. */
module SampleLog {
  import opened Common

  const MAX_SAMPLE_LINES := 100_000

  // ---- JSON object texts ----

  /** Nesting depth of a JSON text read so far. */
  datatype Scan = Scan(depth: int, inString: bool, escaped: bool)

  function ScanChar(s: Scan, c: char): Scan {
    if s.inString then
      if s.escaped then s.(escaped := false)
      else if c == '\\' then s.(escaped := true)
      else if c == '"' then s.(inString := false)
      else s
    else if c == '"' then s.(inString := true)
    else if c == '{' || c == '[' then s.(depth := s.depth + 1)
    else if c == '}' || c == ']' then s.(depth := s.depth - 1)
    else s
  }

  function ScanAll(text: string): Scan {
    if text == "" then Scan(0, false, false) else ScanChar(ScanAll(text[..|text| - 1]), text[|text| - 1])
  }

  /** Opens with a brace that closes with the last character and not before. */
  predicate IsObjectText(text: string) {
    && |text| >= 2 && text[0] == '{' && text[|text| - 1] == '}' && ScanAll(text).depth == 0
    && forall i :: 0 < i < |text| ==> ScanAll(text[..i]).depth > 0
  }

  lemma ScanSnoc(text: string, c: char)
    ensures ScanAll(text + [c]) == ScanChar(ScanAll(text), c)
  {
    assert (text + [c])[..|text|] == text;
  }

  /** Outside strings braces and brackets nest and a quote opens a string; inside, only an unescaped quote ends it. */
  lemma ScanIs(s: Scan, c: char)
    ensures var t := ScanChar(s, c);
            if s.inString then
              && t.depth == s.depth && t.escaped == (c == '\\' && !s.escaped) && t.inString == (c != '"' || s.escaped)
            else
              && t.escaped == s.escaped && t.inString == (c == '"')
              && t.depth == s.depth + (if c in "{[" then 1 else if c in "}]" then -1 else 0)
  {
  }

  lemma ScanNext(text: string, c: char, next: string)
    requires next == text + [c]
    ensures ScanAll(next) == ScanChar(ScanAll(text), c)
  {
    ScanSnoc(text, c);
  }

  /** A brace inside a string does not close an object. */
  lemma QuotedBraceIsText()
    ensures IsObjectText("{\"}\"}")
  {
    var text := "{\"}\"}";
    ScanNext("", '{', text[..1]);
    ScanNext(text[..1], '"', text[..2]);
    ScanNext(text[..2], '}', text[..3]);
    ScanNext(text[..3], '"', text[..4]);
    ScanNext(text[..4], '}', text);
    forall i | 0 < i < |text| ensures ScanAll(text[..i]).depth > 0 {
      assert i == 1 || i == 2 || i == 3 || i == 4;
    }
  }

  /** Two objects in a row are no object, and neither is one whose string is not closed. */
  lemma TwoObjectsAreNoText()
    ensures !IsObjectText("{}{}") && !IsObjectText("{\"}")
  {
    var two, torn := "{}{}", "{\"}";
    ScanNext("", '{', two[..1]);
    ScanNext(two[..1], '}', two[..2]);
    ScanNext("", '{', torn[..1]);
    ScanNext(torn[..1], '"', torn[..2]);
    ScanNext(torn[..2], '}', torn);
  }

  // ---- reading ----

  /** The blanks of str.strip below 128: tab to carriage return, the four separators, and the space. */
  lemma BlanksAre(c: char)
    ensures IsSpace(c) <==> c as int in {9, 10, 11, 12, 13, 28, 29, 30, 31, 32}
  {
  }

  predicate IsSpace(c: char) {
    c == ' ' || '\t' <= c <= '\r' || 28 as char <= c <= 31 as char
  }

  function StripEnd(s: string): string {
    if s != "" && IsSpace(s[|s| - 1]) then StripEnd(s[..|s| - 1]) else s
  }

  function Strip(s: string): string {
    if s != "" && IsSpace(s[0]) then Strip(s[1..]) else StripEnd(s)
  }

  /** json.dumps writes one-line object texts and json.loads reads them back; of texts without outer blanks
      (the only ones it is given here) json.loads reads a dict from nothing but an object text. */
  ghost predicate Codec<S(!new)>(dumps: S -> string, loads: string -> Option<S>) {
    && (forall s :: IsObjectText(dumps(s)) && '\n' !in dumps(s) && loads(dumps(s)) == Some(s))
    && (forall text :: Strip(text) == text && loads(text).Some? ==> IsObjectText(text))
  }

  /** What one line adds: nothing when it is blank or does not parse. */
  function RowOf<S>(loads: string -> Option<S>, line: string): seq<S> {
    var text := Strip(line);
    if text == "" then [] else match loads(text) case Some(s) => [s] case None => []
  }

  /** What has been read so far: the samples of the finished lines, and the line still open. */
  datatype Progress<S> = Progress(rows: seq<S>, tail: string)

  function Read<S>(loads: string -> Option<S>, file: string): Progress<S> {
    if file == "" then Progress([], "")
    else
      var before, c := Read(loads, file[..|file| - 1]), file[|file| - 1];
      if c == '\n' then Progress(before.rows + RowOf(loads, before.tail), "")
      else Progress(before.rows, before.tail + [c])
  }

  /** The samples of a file, line by line. */
  function Rows<S>(loads: string -> Option<S>, file: string): seq<S> {
    Read(loads, file).rows + RowOf(loads, Read(loads, file).tail)
  }

  lemma {:induction false} ReadText<S>(loads: string -> Option<S>, file: string, text: string)
    requires '\n' !in text
    ensures Read(loads, file + text) == Progress(Read(loads, file).rows, Read(loads, file).tail + text)
  {
    if text == "" {
      assert file + text == file && Read(loads, file).tail + text == Read(loads, file).tail;
    } else {
      var init, c := text[..|text| - 1], text[|text| - 1];
      assert text == init + [c] && c in text;
      assert (file + text)[..|file + text| - 1] == file + init;
      ReadText(loads, file, init);
      assert Read(loads, file).tail + text == Read(loads, file).tail + init + [c];
    }
  }

  lemma ReadNewline<S>(loads: string -> Option<S>, file: string)
    ensures Read(loads, file + "\n") == Progress(Rows(loads, file), "")
  {
  }

  lemma ReadLine<S>(loads: string -> Option<S>, file: string, line: string, s: string)
    requires '\n' !in line && Read(loads, file).tail == "" && s == file + line + "\n"
    ensures Read(loads, s) == Progress(Read(loads, file).rows + RowOf(loads, line), "")
  {
    ReadText(loads, file, line);
    assert "" + line == line;
    ReadNewline(loads, file + line);
  }

  function LastMax<S>(rows: seq<S>): seq<S> {
    if |rows| <= MAX_SAMPLE_LINES then rows else rows[|rows| - MAX_SAMPLE_LINES..]
  }

  /** Where the line that starts at `from` ends. */
  function LineEnd(s: string, from: nat): (n: nat)
    requires from <= |s|
    ensures from <= n <= |s| && (forall i :: from <= i < n ==> s[i] != '\n') && (n < |s| ==> s[n] == '\n')
    decreases |s| - from
  {
    if from == |s| || s[from] == '\n' then from else LineEnd(s, from + 1)
  }

  /** _load_samples. */
  method LoadSamples<S>(loads: string -> Option<S>, file: string) returns (rows: seq<S>)
    ensures rows == LastMax(Rows(loads, file))
  {
    rows := [];
    var at := 0;
    while at < |file|
      invariant 0 <= at <= |file|
      invariant if at < |file| then Read(loads, file[..at]) == Progress(rows, "") else rows == Rows(loads, file)
    {
      var end := LineEnd(file, at);
      var line := file[at..end];
      var text := Strip(line);
      if text != "" {
        var row := loads(text);
        if row.Some? {
          rows := rows + [row.value];
        }
      }
      NextLine(loads, file, at, end);
      at := if end < |file| then end + 1 else end;
    }
    rows := LastMax(rows);
  }

  lemma NextLine<S>(loads: string -> Option<S>, file: string, at: nat, end: nat)
    requires at <= end <= |file| && (forall i :: at <= i < end ==> file[i] != '\n')
    requires (end < |file| ==> file[end] == '\n') && Read(loads, file[..at]).tail == ""
    ensures var rows := Read(loads, file[..at]).rows + RowOf(loads, file[at..end]);
            if end + 1 < |file| then Read(loads, file[..end + 1]) == Progress(rows, "") else Rows(loads, file) == rows
  {
    var line := file[at..end];
    if end < |file| {
      assert file[..end + 1] == file[..at] + line + "\n";
      ReadLine(loads, file[..at], line, file[..end + 1]);
      if end + 1 == |file| {
        EndsWithNewline(loads, file, Read(loads, file[..at]).rows + RowOf(loads, line));
      }
    } else {
      UnendedLine(loads, file[..at], line, file);
    }
  }

  lemma EndsWithNewline<S>(loads: string -> Option<S>, file: string, rows: seq<S>)
    requires Read(loads, file[..|file|]) == Progress(rows, "")
    ensures Rows(loads, file) == rows
  {
    assert file[..|file|] == file;
    assert RowOf(loads, "") == [];
  }

  lemma UnendedLine<S>(loads: string -> Option<S>, before: string, line: string, file: string)
    requires '\n' !in line && Read(loads, before).tail == "" && file == before + line
    ensures Rows(loads, file) == Read(loads, before).rows + RowOf(loads, line)
  {
    ReadText(loads, before, line);
    assert "" + line == line;
  }

  // ---- writing ----

  /** The newline that ends a torn tail. */
  function Lead(file: string): string {
    if file != "" && file[|file| - 1] != '\n' then "\n" else ""
  }

  function Body<S>(dumps: S -> string, samples: seq<S>): string {
    if samples == [] then "" else dumps(samples[0]) + "\n" + Body(dumps, samples[1..])
  }

  function Cut(s: string, reached: nat): string {
    if reached < |s| then s[..reached] else s
  }

  /** One call of _append_samples, of whose characters the first `reached` made it to the file. */
  datatype Append<S> = Append(samples: seq<S>, reached: nat)

  function FileAfter<S>(dumps: S -> string, file: string, a: Append<S>): string {
    file + Cut(Lead(file) + Body(dumps, a.samples), a.reached)
  }

  /** The samples whose full text is within the first k characters of the body. */
  function FullyWritten<S>(dumps: S -> string, samples: seq<S>, k: int): seq<S>
    decreases |samples|
  {
    if samples == [] || k < |dumps(samples[0])| then []
    else [samples[0]] + FullyWritten(dumps, samples[1..], k - |dumps(samples[0])| - 1)
  }

  /** The file after a run of appends, and the samples whose full text reached it. */
  datatype Outcome<S> = Outcome(file: string, reached: seq<S>)

  function RunAppends<S>(dumps: S -> string, file: string, appends: seq<Append<S>>): Outcome<S> {
    if appends == [] then Outcome(file, [])
    else
      var before, a := RunAppends(dumps, file, appends[..|appends| - 1]), appends[|appends| - 1];
      Outcome(FileAfter(dumps, before.file, a),
              before.reached + FullyWritten(dumps, a.samples, a.reached - |Lead(before.file)|))
  }

  /** The log file; `room` is how many more characters reach the disk before a crash. */
  class Log<S> {
    var file: string
    const dumps: S -> string

    constructor (dumps: S -> string)
      ensures file == "" && this.dumps == dumps
    {
      file := "";
      this.dumps := dumps;
    }

    method Write(s: string, room: nat) returns (left: nat)
      modifies this
      ensures file == old(file) + Cut(s, room)
      ensures left == if room < |s| then 0 else room - |s|
    {
      file := file + Cut(s, room);
      left := if room < |s| then 0 else room - |s|;
    }

    /** _append_samples. */
    method AppendSamples(samples: seq<S>, room: nat)
      modifies this
      ensures file == FileAfter(dumps, old(file), Append(samples, room))
    {
      var left := room;
      ghost var done := Lead(file);
      if file != "" && file[|file| - 1] != '\n' {
        left := Write("\n", left);
      }
      var i := 0;
      while i < |samples|
        invariant 0 <= i <= |samples| && Lead(old(file)) + Body(dumps, samples) == done + Body(dumps, samples[i..])
        invariant file == old(file) + Cut(done, room) && left == if room < |done| then 0 else room - |done|
      {
        var line := dumps(samples[i]) + "\n";
        BodyStep(dumps, samples, i, done);
        CutTwice(done, line, room);
        left := Write(line, left);
        done := done + line;
        i := i + 1;
      }
      assert Lead(old(file)) + Body(dumps, samples) == done;
    }
  }

  lemma BodyStep<S>(dumps: S -> string, samples: seq<S>, i: nat, done: string)
    requires i < |samples|
    ensures done + Body(dumps, samples[i..]) == done + (dumps(samples[i]) + "\n") + Body(dumps, samples[i + 1..])
  {
  }

  lemma Associate<T>(a: seq<T>, b: seq<T>, c: seq<T>)
    ensures a + (b + c) == a + b + c
  {
  }

  lemma CutTwice(a: string, b: string, room: nat)
    ensures Cut(a + b, room) == Cut(a, room) + Cut(b, if room < |a| then 0 else room - |a|)
  {
  }

  // ---- what a reader finds after any crashes ----

  /** Ending a torn tail keeps what the file holds and starts a line of its own. */
  lemma ReadLead<S>(loads: string -> Option<S>, file: string)
    ensures Read(loads, file + Lead(file)) == Progress(Rows(loads, file), "")
  {
    if Lead(file) == "" {
      assert file + "" == file;
      assert Read(loads, file).tail == "";
    } else {
      ReadNewline(loads, file);
    }
  }

  /** Stripping the end of a prefix of an object text leaves a non-empty prefix of it. */
  lemma {:induction false} StripEndOfPrefix(text: string, j: nat) returns (i: nat)
    requires 0 < j <= |text| && !IsSpace(text[0])
    ensures 0 < i <= j && StripEnd(text[..j]) == text[..i] && (!IsSpace(text[j - 1]) ==> i == j)
    ensures !IsSpace(text[i - 1])
  {
    i := j;
    if IsSpace(text[j - 1]) {
      assert text[..j][..j - 1] == text[..j - 1];
      i := StripEndOfPrefix(text, j - 1);
    }
  }

  /** A whole text reads back as its sample; a torn one, cut anywhere, reads as nothing. */
  lemma RowOfCut<S(!new)>(dumps: S -> string, loads: string -> Option<S>, s: S, k: nat)
    requires Codec(dumps, loads) && k <= |dumps(s)|
    ensures RowOf(loads, dumps(s)[..k]) == if k == |dumps(s)| then [s] else []
  {
    var text := dumps(s);
    assert IsObjectText(text);
    if k > 0 {
      var i := StripEndOfPrefix(text, k);
      assert Strip(text[..k]) == text[..i];
      assert Strip(text[..i]) == text[..i];
      assert text[..|text|] == text;
      if i < |text| {
        assert ScanAll(text[..i]).depth > 0;
      }
    }
  }

  /** A line of this sample, cut anywhere, adds the sample if it is whole and nothing otherwise. */
  ghost predicate ReadsBack<S>(dumps: S -> string, loads: string -> Option<S>, s: S) {
    && '\n' !in dumps(s)
    && forall k :: 0 <= k <= |dumps(s)| ==> RowOf(loads, dumps(s)[..k]) == if k == |dumps(s)| then [s] else []
  }

  ghost predicate TornSafe<S(!new)>(dumps: S -> string, loads: string -> Option<S>) {
    forall s :: ReadsBack(dumps, loads, s)
  }

  lemma CodecIsTornSafe<S(!new)>(dumps: S -> string, loads: string -> Option<S>)
    requires Codec(dumps, loads)
    ensures TornSafe(dumps, loads)
  {
    forall s ensures ReadsBack(dumps, loads, s) {
      forall k | 0 <= k <= |dumps(s)|
        ensures RowOf(loads, dumps(s)[..k]) == if k == |dumps(s)| then [s] else []
      {
        RowOfCut(dumps, loads, s, k);
      }
      assert IsObjectText(dumps(s));
    }
  }

  /** Of a body cut anywhere a reader finds exactly the samples written in full. */
  lemma {:induction false} RowsOfCutBody<S(!new)>(dumps: S -> string, loads: string -> Option<S>,
                                                  file: string, samples: seq<S>, k: nat, s: string)
    returns (written: seq<S>)
    requires TornSafe(dumps, loads) && Read(loads, file).tail == ""
    requires k <= |Body(dumps, samples)| && s == file + Body(dumps, samples)[..k]
    ensures written == FullyWritten(dumps, samples, k)
    ensures Rows(loads, s) == Read(loads, file).rows + written
    decreases |samples|
  {
    written := [];
    if samples == [] {
      assert s == file;
    } else {
      assert ReadsBack(dumps, loads, samples[0]);
      if k <= |dumps(samples[0])| {
        CutInBody(file, dumps(samples[0]), Body(dumps, samples[1..]), k);
        written := FullyWritten(dumps, samples, k);
        TornOrWhole(dumps, loads, file, samples, k, s);
      } else {
        var next := WholeLine(dumps, loads, file, samples[0]);
        var left := PastTheLine(dumps, file, samples, k, s, next);
        var more := RowsOfCutBody(dumps, loads, next, samples[1..], left, s);
        written := [samples[0]] + more;
        Regroup(Read(loads, file).rows, samples[0], more);
      }
    }
  }

  lemma Regroup<S>(rows: seq<S>, s: S, more: seq<S>)
    ensures (rows + [s]) + more == rows + ([s] + more)
  {
  }

  /** Past the first line, a cut body is the rest of the body cut that much earlier. */
  lemma PastTheLine<S>(dumps: S -> string, file: string, samples: seq<S>, k: nat, s: string, next: string) returns (left: nat)
    requires samples != [] && |dumps(samples[0])| < k <= |Body(dumps, samples)|
    requires s == file + Body(dumps, samples)[..k] && next == file + dumps(samples[0]) + "\n"
    ensures left <= |Body(dumps, samples[1..])| && s == next + Body(dumps, samples[1..])[..left]
    ensures FullyWritten(dumps, samples, k) == [samples[0]] + FullyWritten(dumps, samples[1..], left)
  {
    left := k - |dumps(samples[0])| - 1;
    CutInBody(file, dumps(samples[0]), Body(dumps, samples[1..]), k);
  }

  lemma WholeLine<S>(dumps: S -> string, loads: string -> Option<S>, file: string, sample: S) returns (next: string)
    requires ReadsBack(dumps, loads, sample) && Read(loads, file).tail == ""
    ensures next == file + dumps(sample) + "\n"
    ensures Read(loads, next) == Progress(Read(loads, file).rows + [sample], "")
  {
    next := file + dumps(sample) + "\n";
    assert dumps(sample)[..|dumps(sample)|] == dumps(sample);
    ReadLine(loads, file, dumps(sample), next);
  }

  lemma CutInBody(file: string, text: string, rest: string, k: nat)
    requires k <= |text + "\n" + rest|
    ensures k <= |text| ==> file + (text + "\n" + rest)[..k] == file + text[..k]
    ensures k > |text| ==> file + (text + "\n" + rest)[..k] == file + text + "\n" + rest[..k - |text| - 1]
  {
  }

  lemma TornOrWhole<S(!new)>(dumps: S -> string, loads: string -> Option<S>,
                             file: string, samples: seq<S>, k: nat, s: string)
    requires samples != [] && ReadsBack(dumps, loads, samples[0]) && Read(loads, file).tail == ""
    requires k <= |dumps(samples[0])| && s == file + dumps(samples[0])[..k]
    ensures Rows(loads, s) == Read(loads, file).rows + FullyWritten(dumps, samples, k)
  {
    var text := dumps(samples[0]);
    UnendedLine(loads, file, text[..k], s);
    if k == |text| {
      NothingFromNothing(dumps, samples[1..]);
    }
  }

  lemma NothingFromNothing<S>(dumps: S -> string, samples: seq<S>)
    ensures FullyWritten(dumps, samples, -1) == []
  {
  }

  lemma {:induction false} NothingBeyondBody<S>(dumps: S -> string, samples: seq<S>, k: int)
    requires k >= |Body(dumps, samples)|
    ensures FullyWritten(dumps, samples, k) == samples
  {
    if samples != [] {
      NothingBeyondBody(dumps, samples[1..], k - |dumps(samples[0])| - 1);
    }
  }

  lemma RowsOfBody<S(!new)>(dumps: S -> string, loads: string -> Option<S>,
                            file: string, samples: seq<S>, k: nat, s: string)
    returns (written: seq<S>)
    requires TornSafe(dumps, loads) && Read(loads, file).tail == "" && s == file + Cut(Body(dumps, samples), k)
    ensures written == FullyWritten(dumps, samples, k) && Rows(loads, s) == Read(loads, file).rows + written
  {
    var body := Body(dumps, samples);
    if k < |body| {
      written := RowsOfCutBody(dumps, loads, file, samples, k, s);
    } else {
      assert body[..|body|] == body;
      written := RowsOfCutBody(dumps, loads, file, samples, |body|, s);
      NothingBeyondBody(dumps, samples, k);
      NothingBeyondBody(dumps, samples, |body|);
    }
  }

  lemma FileAfterParts<S>(dumps: S -> string, file: string, a: Append<S>)
    ensures FileAfter(dumps, file, a) ==
            if a.reached < |Lead(file)| then file
            else file + Lead(file) + Cut(Body(dumps, a.samples), a.reached - |Lead(file)|)
  {
  }

  /** One append onto any file, cut anywhere: the file keeps every sample it held, and gains exactly
      the ones written in full. */
  lemma AppendKeepsAndGains<S(!new)>(dumps: S -> string, loads: string -> Option<S>, file: string, a: Append<S>)
    returns (next: string, written: seq<S>)
    requires TornSafe(dumps, loads)
    ensures next == FileAfter(dumps, file, a)
    ensures written == FullyWritten(dumps, a.samples, a.reached - |Lead(file)|)
    ensures Rows(loads, next) == Rows(loads, file) + written
  {
    next, written := FileAfter(dumps, file, a), [];
    FileAfterParts(dumps, file, a);
    var k := a.reached - |Lead(file)|;
    if k < 0 {
      NothingFromNothing(dumps, a.samples);
    } else {
      ReadLead(loads, file);
      written := RowsOfBody(dumps, loads, file + Lead(file), a.samples, k, next);
    }
  }

  /** Over any run of appends, each cut at any character, the file holds what it held before and then,
      in order, exactly the samples whose full text reached it. */
  lemma {:induction false} LogHoldsWhatReachedIt<S(!new)>(dumps: S -> string, loads: string -> Option<S>,
                                                          file: string, appends: seq<Append<S>>)
    returns (run: Outcome<S>)
    requires TornSafe(dumps, loads)
    ensures run == RunAppends(dumps, file, appends)
    ensures Rows(loads, run.file) == Rows(loads, file) + run.reached
    decreases |appends|
  {
    run := Outcome(file, []);
    if appends != [] {
      var before := LogHoldsWhatReachedIt(dumps, loads, file, appends[..|appends| - 1]);
      var next, written := AppendKeepsAndGains(dumps, loads, before.file, appends[|appends| - 1]);
      Associate(Rows(loads, file), before.reached, written);
      run := Outcome(next, before.reached + written);
    }
  }

  /** Without crashes nothing is lost. */
  lemma UncutAppendIsWhole<S(!new)>(dumps: S -> string, loads: string -> Option<S>, file: string, a: Append<S>)
    requires Codec(dumps, loads) && a.reached >= |Lead(file)| + |Body(dumps, a.samples)|
    ensures Rows(loads, FileAfter(dumps, file, a)) == Rows(loads, file) + a.samples
  {
    CodecIsTornSafe(dumps, loads);
    var next, written := AppendKeepsAndGains(dumps, loads, file, a);
    NothingBeyondBody(dumps, a.samples, a.reached - |Lead(file)|);
  }

  lemma NoRowsInNothing<S>(loads: string -> Option<S>)
    ensures Rows(loads, "") == []
  {
  }

  /** Whatever crashes cut, loading returns the newest MAX_SAMPLE_LINES of the samples whose full text
      reached the file, in order: a torn tail neither reads as a sample nor corrupts a later one. */
  lemma LoadReturnsWhatReachedIt<S(!new)>(dumps: S -> string, loads: string -> Option<S>, appends: seq<Append<S>>)
    requires Codec(dumps, loads)
    ensures var run := RunAppends(dumps, "", appends);
            LastMax(Rows(loads, run.file)) == LastMax(run.reached)
  {
    CodecIsTornSafe(dumps, loads);
    var run := LogHoldsWhatReachedIt(dumps, loads, "", appends);
    NoRowsInNothing(loads);
    assert [] + run.reached == run.reached;
  }
}

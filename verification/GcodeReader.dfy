/** The scanning loop of t300_mainline/gcode_policy.py: chunked reading, the findings list,
    the digest, and the verdict on a whole file. */
module GcodeReader {
  import opened Wrappers
  import opened GcodePolicy
  import opened Lines

  newtype byte = x: int | 0 <= x < 256
  const NEWLINE: byte := 10

  /** SHA-256 is taken as injective: a digest is the content it was computed from. */
  datatype Digest = Sha256(of: seq<byte>)

  /** One line after decoding and tokenising. */
  datatype Entry = TooLong | NotUtf8 | BadSyntax | Blank | Line(c: Command)

  /** Decoding and `_parse_line`, as an unknown function of the raw line. */
  type Parser = seq<byte> -> Entry

  datatype Problem =
    | LongLine | Undecodable | Malformed | AfterEnd | Violation
    | TooManyLines | MissingStart | MissingEnd | Omitted
  datatype Finding = Finding(line: nat, problem: Problem)

  datatype Report = Report(
    digest: Digest, size: nat, lines: nat, objectCount: nat, timelapseFrames: nat,
    startLine: Option<nat>, endLine: Option<nat>, findings: seq<Finding>)
  {
    predicate Accepted() { findings == [] }
  }

  // --------------------------------------------------- the specified verdict

  function EntryOf(p: Policy, parse: Parser, raw: seq<byte>): Entry {
    if |raw| > p.maxLineBytes then TooLong else parse(raw)
  }

  function Entries(p: Policy, parse: Parser, lines: seq<seq<byte>>): (es: seq<Entry>)
    ensures |es| == |lines|
    ensures forall i :: 0 <= i < |es| ==> es[i] == EntryOf(p, parse, lines[i])
  {
    seq(|lines|, i requires 0 <= i < |lines| => EntryOf(p, parse, lines[i]))
  }

  function Next(p: Policy, s: Scan, line: nat, e: Entry): Scan {
    if e.Line? then Step(p, s, line, e.c).0 else s
  }

  /** What one line reports; a command after END_PRINT is reported and still checked. */
  function Reported(p: Policy, s: Scan, line: nat, e: Entry): seq<Finding> {
    match e
    case TooLong => [Finding(line, LongLine)]
    case NotUtf8 => [Finding(line, Undecodable)]
    case BadSyntax => [Finding(line, Malformed)]
    case Blank => []
    case Line(c) =>
      (if s.end.Some? && !c.Finish? then [Finding(line, AfterEnd)] else []) +
      (if Step(p, s, line, c).1 then [] else [Finding(line, Violation)])
  }

  function ScanOf(p: Policy, es: seq<Entry>): Scan {
    if es == [] then INITIAL
    else Next(p, ScanOf(p, es[..|es| - 1]), |es|, es[|es| - 1])
  }

  function ReportedBy(p: Policy, es: seq<Entry>): seq<Finding> {
    if es == [] then []
    else
      var before := es[..|es| - 1];
      ReportedBy(p, before) + Reported(p, ScanOf(p, before), |es|, es[|es| - 1])
  }

  /** The entries that are checked at all: those within the line-count limit. */
  function Checked(p: Policy, parse: Parser, data: seq<byte>): seq<Entry> {
    var lines := SplitLines(data, NEWLINE);
    Entries(p, parse, if |lines| <= p.maxLines then lines else lines[..p.maxLines])
  }

  /** Every problem of a file, before the report limit is applied. */
  function Problems(p: Policy, parse: Parser, data: seq<byte>): seq<Finding> {
    var es := Checked(p, parse, data);
    var s := ScanOf(p, es);
    ReportedBy(p, es) + LineCountProblem(p, |SplitLines(data, NEWLINE)|) + MissingProblems(s)
  }

  function LineCountProblem(p: Policy, lines: nat): seq<Finding> {
    if lines > p.maxLines then [Finding(p.maxLines + 1, TooManyLines)] else []
  }

  function MissingProblems(s: Scan): seq<Finding> {
    (if s.start.None? then [Finding(0, MissingStart)] else []) +
    (if s.end.None? then [Finding(0, MissingEnd)] else [])
  }

  /** Files the scanner accepts. */
  predicate Admissible(p: Policy, parse: Parser, data: seq<byte>) {
    |data| <= p.maxFileBytes && Problems(p, parse, data) == []
  }

  // ------------------------------------------------------- the findings list

  /** A list of problems cut to the report limit, with a note in place of the rest. */
  function Truncated(limit: nat, all: seq<Finding>): seq<Finding>
    requires limit > 0
  {
    if |all| < limit then all else all[..limit - 1] + [Finding(all[limit - 1].line, Omitted)]
  }

  /** The findings list with its truncation flag, and (ghost) everything ever reported. */
  class FindingList {
    const limit: nat
    var items: seq<Finding>
    var truncated: bool
    ghost var all: seq<Finding>

    ghost predicate Valid() reads this {
      && limit >= 2
      && truncated == (|all| >= limit)
      && items == Truncated(limit, all)
    }

    constructor (limit: nat)
      requires limit >= 2
      ensures Valid() && all == [] && this.limit == limit
    {
      this.limit := limit;
      items, truncated, all := [], false, [];
    }

    /** add_finding */
    method Add(line: nat, problem: Problem)
      requires Valid()
      modifies this
      ensures Valid() && all == old(all) + [Finding(line, problem)]
    {
      all := all + [Finding(line, problem)];
      if truncated { return; }
      if |items| < limit - 1 {
        items := items + [Finding(line, problem)];
      } else {
        items := items + [Finding(line, Omitted)];
        truncated := true;
      }
    }
  }

  // ----------------------------------------------------------- the main loop

  /** One parsed line: objects are measured by the loop of ValidateObject. */
  method ScanLine(p: Policy, s: Scan, line: nat, c: Command) returns (next: Scan, ok: bool)
    ensures (next, ok) == Step(p, s, line, c)
  {
    if c.DefineObject? && s.start.None? {
      var shape := ValidateObject(p, c.definition);
      next, ok := AddObject(p, s, shape).0, AddObject(p, s, shape).1;
    } else {
      var r := Step(p, s, line, c);
      next, ok := r.0, r.1;
    }
  }

  /** Reports what one line deserves and takes its effect on the scan. */
  method CheckEntry(p: Policy, findings: FindingList, s: Scan, line: nat, e: Entry) returns (next: Scan)
    requires findings.Valid()
    modifies findings
    ensures findings.Valid() && findings.all == old(findings.all) + Reported(p, s, line, e)
    ensures next == Next(p, s, line, e)
  {
    next := s;
    match e {
      case TooLong => findings.Add(line, LongLine);
      case NotUtf8 => findings.Add(line, Undecodable);
      case BadSyntax => findings.Add(line, Malformed);
      case Blank =>
      case Line(c) =>
        if s.end.Some? && !c.Finish? {
          findings.Add(line, AfterEnd);
        }
        var ok;
        next, ok := ScanLine(p, s, line, c);
        if !ok {
          findings.Add(line, Violation);
        }
    }
  }

  method ReportMissing(findings: FindingList, s: Scan)
    requires findings.Valid()
    modifies findings
    ensures findings.Valid() && findings.all == old(findings.all) + MissingProblems(s)
  {
    if s.start.None? { findings.Add(0, MissingStart); }
    if s.end.None? { findings.Add(0, MissingEnd); }
  }

  /** Where the line starting at `start` ends, in coordinates of the whole file. */
  function EndOf(data: seq<byte>, start: nat): (end: nat)
    requires start < |data|
    ensures start < end <= |data|
    ensures forall k :: start <= k < end - 1 ==> data[k] != NEWLINE
    ensures end < |data| ==> data[end - 1] == NEWLINE
  {
    var rest := data[start..];
    assert forall k :: start <= k < |data| ==> data[k] == rest[k - start];
    start + LineEnd(rest, NEWLINE)
  }

  lemma ChunkOfLine(data: seq<byte>, start: nat, pos: nat, limit: nat)
    requires start < |data| && start <= pos < EndOf(data, start) && 0 < limit
    ensures ReadLine(data[pos..], limit, NEWLINE) ==
      data[pos..if EndOf(data, start) - pos <= limit then EndOf(data, start) else pos + limit]
  {
    LineEndOfSuffix(data[start..], pos - start, NEWLINE);
    assert data[start..][pos - start..] == data[pos..];
  }

  lemma FirstLine(data: seq<byte>, start: nat)
    requires start < |data|
    ensures SplitLines(data[start..], NEWLINE) ==
            [data[start..EndOf(data, start)]] + SplitLines(data[EndOf(data, start)..], NEWLINE)
  {
    var rest := data[start..];
    assert rest[..LineEnd(rest, NEWLINE)] == data[start..EndOf(data, start)];
    assert rest[LineEnd(rest, NEWLINE)..] == data[EndOf(data, start)..];
  }

  /** After an over-long first chunk: read on until the line really ends. */
  method DrainLine(data: seq<byte>, limit: nat, start: nat, first: seq<byte>, fed: seq<byte>)
    returns (pos: nat, fedOut: seq<byte>)
    requires start < |data| && 0 < limit
    requires first == ReadLine(data[start..], limit, NEWLINE)
    requires fed == data[..start + |first|]
    ensures pos == EndOf(data, start)
    ensures fedOut == data[..pos]
  {
    ChunkOfLine(data, start, start, limit);
    var raw := first;
    pos, fedOut := start + |first|, fed;
    while raw[|raw| - 1] != NEWLINE
      invariant |raw| > 0 && start < pos <= EndOf(data, start) && raw[|raw| - 1] == data[pos - 1]
      invariant fedOut == data[..pos]
      decreases |data| - pos
    {
      if pos < EndOf(data, start) {
        ChunkOfLine(data, start, pos, limit);
      }
      raw := ReadLine(data[pos..], limit, NEWLINE);
      if raw == [] { break; }
      assert data[..pos] + raw == data[..pos + |raw|];
      pos, fedOut := pos + |raw|, fedOut + raw;
    }
  }

  /** Where the loop stands: `pos` bytes and `lines` lines consumed, `done` the lines checked,
      `s` and `all` the scan and the problems so far. */
  ghost predicate Reading(p: Policy, parse: Parser, data: seq<byte>, pos: nat, lines: nat,
                          done: seq<seq<byte>>, s: Scan, all: seq<Finding>)
  {
    var split := SplitLines(data, NEWLINE);
    && pos <= |data|
    && s == ScanOf(p, Entries(p, parse, done))
    && all == ReportedBy(p, Entries(p, parse, done)) + LineCountProblem(p, lines)
    && (lines <= p.maxLines ==> |done| == lines && split == done + SplitLines(data[pos..], NEWLINE))
    && (lines > p.maxLines ==> |split| > p.maxLines && done == split[..p.maxLines])
  }

  lemma ReadingStarts(p: Policy, parse: Parser, data: seq<byte>)
    ensures Reading(p, parse, data, 0, 0, [], INITIAL, [])
  {
    assert data[0..] == data;
  }

  lemma Regroup<T>(a: seq<T>, b: seq<T>, c: seq<T>)
    ensures a + (b + c) == (a + b) + c
  {
  }

  /** What the loop classifies, from the first chunk alone, is the class of the whole line. */
  lemma FirstChunkDecides(p: Policy, parse: Parser, data: seq<byte>, start: nat)
    requires start < |data|
    ensures
      var raw := ReadLine(data[start..], p.maxLineBytes + 1, NEWLINE);
      var line := data[start..EndOf(data, start)];
      && EntryOf(p, parse, line) == (if |raw| > p.maxLineBytes then TooLong else parse(raw))
      && (|raw| <= p.maxLineBytes ==> start + |raw| == EndOf(data, start))
  {
    ChunkOfLine(data, start, start, p.maxLineBytes + 1);
  }

  lemma SplitTakesLine(data: seq<byte>, pos: nat, done: seq<seq<byte>>)
    requires pos < |data| && SplitLines(data, NEWLINE) == done + SplitLines(data[pos..], NEWLINE)
    ensures
      var next := EndOf(data, pos);
      SplitLines(data, NEWLINE) == (done + [data[pos..next]]) + SplitLines(data[next..], NEWLINE)
  {
    var next := EndOf(data, pos);
    FirstLine(data, pos);
    Regroup(done, [data[pos..next]], SplitLines(data[next..], NEWLINE));
  }

  lemma ReadingTakesLine(p: Policy, parse: Parser, data: seq<byte>, pos: nat, next: nat, lines: nat,
                         done: seq<seq<byte>>, s: Scan, s': Scan, e: Entry,
                         all: seq<Finding>, all': seq<Finding>)
    requires 0 < lines <= p.maxLines && pos < |data|
    requires next == EndOf(data, pos)
    requires Reading(p, parse, data, pos, lines - 1, done, s, all)
    requires e == EntryOf(p, parse, data[pos..next]) && s' == Next(p, s, lines, e)
    requires all' == all + Reported(p, s, lines, e)
    ensures Reading(p, parse, data, next, lines, done + [data[pos..next]], s', all')
  {
    AppendLine(p, parse, done, data[pos..next]);
    SplitTakesLine(data, pos, done);
    assert LineCountProblem(p, lines - 1) == [] == LineCountProblem(p, lines);
  }

  lemma ReadingSkipsChunk(p: Policy, parse: Parser, data: seq<byte>, pos: nat, next: nat, lines: nat,
                          done: seq<seq<byte>>, s: Scan, all: seq<Finding>, all': seq<Finding>)
    requires lines > p.maxLines && pos < next <= |data|
    requires Reading(p, parse, data, pos, lines - 1, done, s, all)
    requires all' == if lines == p.maxLines + 1 then all + [Finding(lines, TooManyLines)] else all
    ensures Reading(p, parse, data, next, lines, done, s, all')
  {
    if lines == p.maxLines + 1 {
      FirstLine(data, pos);
      assert (done + SplitLines(data[pos..], NEWLINE))[..p.maxLines] == done;
    }
  }

  lemma ReadingEnds(p: Policy, parse: Parser, data: seq<byte>, lines: nat,
                    done: seq<seq<byte>>, s: Scan, all: seq<Finding>)
    requires Reading(p, parse, data, |data|, lines, done, s, all)
    ensures all + MissingProblems(s) == Problems(p, parse, data)
    ensures s == ScanOf(p, Checked(p, parse, data))
    ensures |SplitLines(data, NEWLINE)| <= p.maxLines ==> lines == |SplitLines(data, NEWLINE)|
  {
    assert data[|data|..] == [];
    var split := SplitLines(data, NEWLINE);
    assert done == if |split| <= p.maxLines then split else split[..p.maxLines];
    assert LineCountProblem(p, lines) == LineCountProblem(p, |split|);
  }

  lemma AppendLine(p: Policy, parse: Parser, done: seq<seq<byte>>, line: seq<byte>)
    ensures
      var es := Entries(p, parse, done);
      var es' := Entries(p, parse, done + [line]);
      var s := ScanOf(p, es);
      var e := EntryOf(p, parse, line);
      && ScanOf(p, es') == Next(p, s, |done| + 1, e)
      && ReportedBy(p, es') == ReportedBy(p, es) + Reported(p, s, |done| + 1, e)
  {
    var es := Entries(p, parse, done);
    var es' := Entries(p, parse, done + [line]);
    assert es'[..|es'| - 1] == es;
  }

  /** One turn of the reading loop: a line within the limit is checked, a chunk beyond it skipped. */
  method ReadOne(p: Policy, parse: Parser, data: seq<byte>, findings: FindingList,
                 pos: nat, lines: nat, s: Scan, fed: seq<byte>, ghost done: seq<seq<byte>>)
    returns (pos': nat, s': Scan, fed': seq<byte>, ghost done': seq<seq<byte>>)
    requires findings.Valid() && 0 < lines && pos < |data| && fed == data[..pos]
    requires Reading(p, parse, data, pos, lines - 1, done, s, findings.all)
    modifies findings
    ensures findings.Valid() && pos < pos' <= |data| && fed' == data[..pos']
    ensures Reading(p, parse, data, pos', lines, done', s', findings.all)
  {
    var raw := ReadLine(data[pos..], p.maxLineBytes + 1, NEWLINE);
    ChunkOfLine(data, pos, pos, p.maxLineBytes + 1);
    s', done' := s, done;
    pos', fed' := pos + |raw|, fed + raw;
    assert fed' == data[..pos'];
    if lines > p.maxLines {
      if lines == p.maxLines + 1 {
        findings.Add(lines, TooManyLines);
      }
      ReadingSkipsChunk(p, parse, data, pos, pos', lines, done, s, old(findings.all), findings.all);
    } else {
      FirstChunkDecides(p, parse, data, pos);
      if |raw| > p.maxLineBytes {
        pos', fed' := DrainLine(data, p.maxLineBytes + 1, pos, raw, fed');
      }
      var entry := if |raw| > p.maxLineBytes then TooLong else parse(raw);
      s' := CheckEntry(p, findings, s, lines, entry);
      ReadingTakesLine(p, parse, data, pos, pos', lines, done, s, s', entry, old(findings.all), findings.all);
      done' := done + [data[pos..pos']];
    }
  }

  /** scan_gcode. `stable` is the outcome of the final fstat comparison. */
  method ScanGcode(p: Policy, parse: Parser, data: seq<byte>, stable: bool) returns (r: Result<Report>)
    requires p.Validate()
    ensures r.Raised? <==> |data| > p.maxFileBytes || !stable
    ensures r.Ok? ==> r.value.digest == Sha256(data) && r.value.size == |data|
    ensures r.Ok? ==> r.value.findings == Truncated(p.maxFindings, Problems(p, parse, data))
    ensures r.Ok? ==> (r.value.Accepted() <==> Admissible(p, parse, data))
    ensures r.Ok? && |SplitLines(data, NEWLINE)| <= p.maxLines ==> r.value.lines == |SplitLines(data, NEWLINE)|
    ensures r.Ok? ==>
      var s := ScanOf(p, Checked(p, parse, data));
      && r.value.objectCount == s.objects && r.value.timelapseFrames == s.frames
      && r.value.startLine == s.start && r.value.endLine == s.end
  {
    if |data| > p.maxFileBytes { return Raised; }
    var findings := new FindingList(p.maxFindings);
    var s, lines, pos, fed := INITIAL, 0, 0, [];
    ghost var done: seq<seq<byte>> := [];
    ReadingStarts(p, parse, data);
    while pos < |data|
      invariant fresh(findings) && findings.Valid() && findings.limit == p.maxFindings
      invariant pos <= |data| && fed == data[..pos]
      invariant Reading(p, parse, data, pos, lines, done, s, findings.all)
    {
      lines := lines + 1;
      pos, s, fed, done := ReadOne(p, parse, data, findings, pos, lines, s, fed, done);
    }
    if !stable { return Raised; }
    assert fed == data[..|data|] == data;
    ReadingEnds(p, parse, data, lines, done, s, findings.all);
    ReportMissing(findings, s);
    r := Ok(Report(Sha256(fed), |data|, lines, s.objects, s.frames, s.start, s.end, findings.items));
  }

  /** The findings list is empty exactly when nothing was reported, and never exceeds the limit. */
  lemma TruncationKeepsVerdict(limit: nat, all: seq<Finding>)
    requires limit >= 2
    ensures Truncated(limit, all) == [] <==> all == []
    ensures |Truncated(limit, all)| <= limit
    ensures forall i :: 0 <= i < limit - 1 && i < |all| ==> Truncated(limit, all)[i] == all[i]
  {
  }
}

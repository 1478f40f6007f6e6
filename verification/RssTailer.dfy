/** Tailing the append-only headline file: bounded reads cut at the last line end, a byte
    checkpoint, and rows parsed per segment. */
module RssTailer {
  import opened Options

  type Byte = b: int | 0 <= b < 256

  const NL: Byte := 10
  const CR: Byte := 13
  const MAX_READ := 1_000_000
  const MAX_HEADLINE := 8_192

  datatype Headline = Headline(title: string, guid: string, publisher: string, published: int)

  /** The reading of one line: a headline, or nothing when its JSON, times or fields are invalid. */
  type Parse = seq<Byte> -> Option<Headline>

  // ----- lines -----

  /** Where the line that holds byte `i` ends. */
  function LineEnd(body: seq<Byte>, i: nat): (k: nat)
    requires i <= |body|
    ensures i <= k <= |body|
    decreases |body| - i
  {
    if i == |body| || body[i] == NL || body[i] == CR then i else LineEnd(body, i + 1)
  }

  /** The length of the line end at `k`: a carriage return takes a following newline with it. */
  function EndLength(body: seq<Byte>, k: nat): (n: nat)
    requires k < |body|
    ensures n >= 1 && k + n <= |body|
  {
    if body[k] == CR && k + 1 < |body| && body[k + 1] == NL then 2 else 1
  }

  function LineAt(body: seq<Byte>, i: nat): seq<Byte>
    requires i < |body|
  {
    body[i..LineEnd(body, i)]
  }

  /** Where the next line begins. */
  function NextLine(body: seq<Byte>, i: nat): (n: nat)
    requires i < |body|
    ensures i < n <= |body|
  {
    var k := LineEnd(body, i);
    if k == |body| then k else k + EndLength(body, k)
  }

  /** The lines from byte `i` on. */
  function LinesFrom(body: seq<Byte>, i: nat): seq<seq<Byte>>
    requires i <= |body|
    decreases |body| - i
  {
    if i == |body| then [] else [LineAt(body, i)] + LinesFrom(body, NextLine(body, i))
  }

  /** Python's bytes.splitlines. */
  function SplitLines(body: seq<Byte>): seq<seq<Byte>> {
    LinesFrom(body, 0)
  }

  /** Empty, or ending at a line end. */
  predicate Aligned(body: seq<Byte>) {
    body == [] || body[|body| - 1] == NL
  }

  /** The end is the first terminator from `i` on. */
  lemma {:induction false} EndIs(body: seq<Byte>, i: nat, k: nat)
    requires i <= |body|
    ensures LineEnd(body, i) == k <==>
      i <= k <= |body| && (k < |body| ==> body[k] == NL || body[k] == CR) && forall j | i <= j < k :: body[j] != NL && body[j] != CR
    decreases |body| - i
  {
    if i < |body| && body[i] != NL && body[i] != CR {
      EndIs(body, i + 1, k);
    }
  }

  lemma LineShift(both: seq<Byte>, a: seq<Byte>, b: seq<Byte>, i: nat)
    requires both == a + b && i < |b|
    ensures LineAt(both, |a| + i) == LineAt(b, i) && NextLine(both, |a| + i) == |a| + NextLine(b, i)
  {
    var k := LineEnd(b, i);
    EndIs(b, i, k);
    assert forall j | |a| <= j < |both| :: both[j] == b[j - |a|];
    EndIs(both, |a| + i, |a| + k);
  }

  /** Bytes in front do not change the lines behind them. */
  lemma {:induction false} LinesShift(both: seq<Byte>, a: seq<Byte>, b: seq<Byte>, i: nat)
    requires both == a + b && i <= |b|
    ensures LinesFrom(both, |a| + i) == LinesFrom(b, i)
    decreases |b| - i
  {
    hide LineAt, NextLine;
    if i < |b| {
      LineShift(both, a, b, i);
      LinesShift(both, a, b, NextLine(b, i));
    }
  }

  lemma LinePrefix(both: seq<Byte>, a: seq<Byte>, b: seq<Byte>, i: nat)
    requires both == a + b && i < |a| && a[|a| - 1] == NL
    ensures LineAt(both, i) == LineAt(a, i) && NextLine(both, i) == NextLine(a, i)
  {
    var k := LineEnd(a, i);
    EndIs(a, i, k);
    assert forall j | 0 <= j < |a| :: both[j] == a[j];
    EndIs(both, i, k);
  }

  lemma {:induction false} LinesConcat(both: seq<Byte>, a: seq<Byte>, b: seq<Byte>, i: nat)
    requires both == a + b && i <= |a| && Aligned(a)
    ensures LinesFrom(both, i) == LinesFrom(a, i) + LinesFrom(b, 0)
    decreases |a| - i
  {
    hide LineAt, NextLine;
    if i == |a| {
      LinesShift(both, a, b, 0);
    } else {
      LinePrefix(both, a, b, i);
      LinesConcat(both, a, b, NextLine(a, i));
    }
  }

  /** Splitting an aligned prefix and the rest apart is splitting them together. */
  lemma SplitConcat(a: seq<Byte>, b: seq<Byte>)
    requires Aligned(a)
    ensures SplitLines(a + b) == SplitLines(a) + SplitLines(b)
  {
    LinesConcat(a + b, a, b, 0);
  }

  /** The lines and their ends, woven together again. */
  function Woven(lines: seq<seq<Byte>>, ends: seq<seq<Byte>>): seq<Byte>
    requires |lines| == |ends|
  {
    if lines == [] then [] else lines[0] + ends[0] + Woven(lines[1..], ends[1..])
  }

  ghost predicate OneLine(line: seq<Byte>) {
    forall j | 0 <= j < |line| :: line[j] != 10 && line[j] != 13
  }

  /** The lines of a text with their ends: a newline, a carriage return, or both as one. Only the
      last may have no end, and then is not empty; no carriage return is torn from its newline. */
  ghost predicate Splits(text: seq<Byte>, lines: seq<seq<Byte>>, ends: seq<seq<Byte>>) {
    && |lines| == |ends| && Woven(lines, ends) == text
    && (forall k | 0 <= k < |lines| :: OneLine(lines[k]))
    && (forall k | 0 <= k < |ends| ::
          ends[k] == [10] || ends[k] == [13] || ends[k] == [13, 10] || (k == |ends| - 1 && ends[k] == [] && lines[k] != []))
    && forall k | 0 <= k < |ends| - 1 && ends[k] == [13] :: lines[k + 1] != [] || ends[k + 1] != [10]
  }

  /** Splitting tears the text into its lines and nothing else. */
  lemma {:induction false} LinesAre(body: seq<Byte>, i: nat) returns (ends: seq<seq<Byte>>)
    requires i <= |body|
    ensures Splits(body[i..], LinesFrom(body, i), ends)
    decreases |body| - i
  {
    if i == |body| {
      ends := [];
    } else {
      hide LineAt, NextLine;
      var n := NextLine(body, i);
      var rest := LinesAre(body, n);
      var end := LineIs(body, i);
      ends := [end] + rest;
      assert body[i..] == LineAt(body, i) + end + body[n..];
      LineFirst(body, i, n, end, LinesFrom(body, n), rest);
    }
  }

  /** One line and its end. */
  lemma LineIs(body: seq<Byte>, i: nat) returns (end: seq<Byte>)
    requires i < |body|
    ensures var n := NextLine(body, i);
      && body[i..n] == LineAt(body, i) + end && OneLine(LineAt(body, i))
      && (end == [10] || end == [13] || end == [13, 10] || (n == |body| && end == [] && LineAt(body, i) != []))
      && (end == [13] && n < |body| ==> body[n] != 10)
  {
    var k := LineEnd(body, i);
    EndIs(body, i, k);
    end := body[k..NextLine(body, i)];
  }

  lemma LineFirst(body: seq<Byte>, i: nat, n: nat, end: seq<Byte>, lines: seq<seq<Byte>>, ends: seq<seq<Byte>>)
    requires i < n <= |body| && body[i..n] == LineAt(body, i) + end && OneLine(LineAt(body, i))
    requires end == [10] || end == [13] || end == [13, 10] || (n == |body| && end == [] && LineAt(body, i) != [])
    requires end == [13] && n < |body| ==> body[n] != 10
    requires Splits(body[n..], lines, ends)
    ensures Splits(body[i..], [LineAt(body, i)] + lines, [end] + ends)
  {
    var line, after := LineAt(body, i), body[n..];
    hide LineAt;
    var all, marks := [line] + lines, [end] + ends;
    assert all[1..] == lines && marks[1..] == ends;
    assert body[i..] == body[i..n] + after;
    if lines != [] {
      assert after == lines[0] + ends[0] + Woven(lines[1..], ends[1..]);
      assert lines[0] == [] && ends[0] == [10] ==> after[0] == 10;
    }
    if lines != [] {
      SomethingWoven(after, lines, ends);
    }
  }

  lemma SomethingWoven(text: seq<Byte>, lines: seq<seq<Byte>>, ends: seq<seq<Byte>>)
    requires Splits(text, lines, ends) && lines != []
    ensures text != []
  {
    assert |lines[0] + ends[0]| > 0;
  }

  lemma SplitIs(body: seq<Byte>) returns (ends: seq<seq<Byte>>)
    ensures Splits(body, SplitLines(body), ends)
  {
    ends := LinesAre(body, 0);
    assert body[0..] == body;
  }

  // ----- rows -----

  function RowOf(parse: Parse, line: seq<Byte>): Option<Headline> {
    if line == [] || |line| > MAX_HEADLINE then None else parse(line)
  }

  function RowsOf(parse: Parse, lines: seq<seq<Byte>>): seq<Headline> {
    if lines == [] then [] else
    var row := RowOf(parse, lines[|lines| - 1]);
    RowsOf(parse, lines[..|lines| - 1]) + if row.Some? then [row.value] else []
  }

  function Rows(parse: Parse, body: seq<Byte>): seq<Headline> {
    RowsOf(parse, SplitLines(body))
  }

  lemma {:induction false} RowsConcat(parse: Parse, a: seq<seq<Byte>>, b: seq<seq<Byte>>)
    ensures RowsOf(parse, a + b) == RowsOf(parse, a) + RowsOf(parse, b)
  {
    if b == [] {
      assert a + b == a;
    } else {
      var n := |b| - 1;
      RowsConcat(parse, a, b[..n]);
      assert (a + b)[..|a + b| - 1] == a + b[..n];
    }
  }

  /** The rows of an aligned prefix and of what follows are the rows of both. */
  lemma RowsTile(parse: Parse, a: seq<Byte>, b: seq<Byte>)
    requires Aligned(a)
    ensures Rows(parse, a + b) == Rows(parse, a) + Rows(parse, b)
  {
    SplitConcat(a, b);
    RowsConcat(parse, SplitLines(a), SplitLines(b));
  }

  /** A line becomes a row when it is not blank, not over 8192 bytes, and reads as a headline. */
  ghost predicate Readable(parse: Parse, line: seq<Byte>) {
    0 < |line| <= 8_192 && parse(line).Some?
  }

  /** The picked lines are the readable ones, in their order, and the rows are their readings. */
  ghost predicate Picked(parse: Parse, lines: seq<seq<Byte>>, rows: seq<Headline>, picks: seq<nat>) {
    && |picks| == |rows| && (forall i, j | 0 <= i < j < |picks| :: picks[i] < picks[j])
    && (forall i | 0 <= i < |picks| :: picks[i] < |lines| && parse(lines[picks[i]]) == Some(rows[i]))
    && forall k: nat | k < |lines| :: k in picks <==> Readable(parse, lines[k])
  }

  /** The rows are the readings of the readable lines, in their order. */
  lemma {:induction false} RowsAre(parse: Parse, lines: seq<seq<Byte>>) returns (picks: seq<nat>)
    ensures Picked(parse, lines, RowsOf(parse, lines), picks)
  {
    if lines == [] {
      picks := [];
    } else {
      hide Readable;
      var n := |lines| - 1;
      var before := RowsAre(parse, lines[..n]);
      ReadableIs(parse, lines[n]);
      picks := before + if Readable(parse, lines[n]) then [n] else [];
      PickNext(parse, lines[..n], lines[n], RowsOf(parse, lines[..n]), before);
      assert lines[..n] + [lines[n]] == lines;
    }
  }

  lemma ReadableIs(parse: Parse, line: seq<Byte>)
    ensures RowOf(parse, line) == if Readable(parse, line) then parse(line) else None
    ensures Readable(parse, line) ==> parse(line).Some?
  {
  }

  lemma PickNext(parse: Parse, lines: seq<seq<Byte>>, line: seq<Byte>, rows: seq<Headline>, picks: seq<nat>)
    requires Picked(parse, lines, rows, picks) && (Readable(parse, line) ==> parse(line).Some?)
    ensures Picked(parse, lines + [line], rows + if Readable(parse, line) then [parse(line).value] else [],
                   picks + if Readable(parse, line) then [|lines|] else [])
  {
    hide Readable;
    if Readable(parse, line) {
      forall k: nat | k < |lines| + 1
        ensures k in picks + [|lines|] <==> k in picks || k == |lines|
      {
      }
    }
    forall k: nat | k in picks
      ensures k < |lines|
    {
      var i :| 0 <= i < |picks| && picks[i] == k;
    }
  }

  function NonBlank(lines: seq<seq<Byte>>): nat {
    if lines == [] then 0 else NonBlank(lines[..|lines| - 1]) + if lines[|lines| - 1] == [] then 0 else 1
  }

  /** Parse one segment line by line: every line that is not blank is a row or a failure. */
  method RssRows(parse: Parse, body: seq<Byte>) returns (rows: seq<Headline>, failed: nat)
    ensures rows == Rows(parse, body) && |rows| + failed == NonBlank(SplitLines(body))
  {
    var lines := SplitLines(body);
    rows, failed := [], 0;
    var i := 0;
    while i < |lines|
      invariant 0 <= i <= |lines|
      invariant rows == RowsOf(parse, lines[..i]) && |rows| + failed == NonBlank(lines[..i])
    {
      assert lines[..i + 1][..i] == lines[..i];
      var line := lines[i];
      if line != [] {
        if |line| > MAX_HEADLINE {
          failed := failed + 1;
        } else {
          var row := parse(line);
          if row.Some? {
            rows := rows + [row.value];
          } else {
            failed := failed + 1;
          }
        }
      }
      i := i + 1;
    }
    assert lines[..i] == lines;
  }

  // ----- cutting a read at its last newline -----

  /** How much of the first `n` bytes of a read is kept: up to and including their last newline. */
  function Kept(raw: seq<Byte>, n: nat): (k: nat)
    requires n <= |raw|
    ensures k <= n && (k > 0 ==> raw[k - 1] == NL)
    ensures forall i | k <= i < n :: raw[i] != NL
  {
    if n == 0 || raw[n - 1] == NL then n else Kept(raw, n - 1)
  }

  datatype Status = Current | PartialLine | Complete | PartialInvalid | Raised

  /** The checkpoint and what was recorded. */
  datatype Tail = Tail(offset: nat, lineCount: nat, rows: seq<Headline>, segments: seq<seq<Byte>>)

  function Joined(segments: seq<seq<Byte>>): seq<Byte> {
    if segments == [] then [] else Joined(segments[..|segments| - 1]) + segments[|segments| - 1]
  }

  lemma JoinedStep(segments: seq<seq<Byte>>, raw: seq<Byte>)
    ensures Joined(segments + [raw]) == Joined(segments) + raw
  {
    assert (segments + [raw])[..|segments|] == segments;
  }

  /** From byte `base` on, the segments tile what was consumed, the checkpoint is on a line
      boundary, and the rows are those of the whole consumed part at once. */
  ghost predicate Faithful(parse: Parse, file: seq<Byte>, base: nat, t: Tail) {
    && base <= t.offset <= |file|
    && var body := file[base..t.offset];
       Aligned(body) && Joined(t.segments) == body && t.rows == Rows(parse, body) && t.lineCount == |t.rows|
  }

  function Consumed(parse: Parse, t: Tail, raw: seq<Byte>): Tail {
    Tail(t.offset + |raw|, t.lineCount + |Rows(parse, raw)|, t.rows + Rows(parse, raw), t.segments + [raw])
  }

  lemma ConsumeKeeps(parse: Parse, file: seq<Byte>, base: nat, t: Tail, n: nat)
    requires Faithful(parse, file, base, t) && t.offset + n <= |file| && Aligned(file[t.offset..t.offset + n])
    ensures Faithful(parse, file, base, Consumed(parse, t, file[t.offset..t.offset + n]))
  {
    hide Rows;
    var body, raw := file[base..t.offset], file[t.offset..t.offset + n];
    assert file[base..t.offset + n] == body + raw;
    RowsTile(parse, body, raw);
    JoinedStep(t.segments, raw);
  }

  lemma AppendKeeps(parse: Parse, file: seq<Byte>, more: seq<Byte>, base: nat, t: Tail)
    requires Faithful(parse, file, base, t)
    ensures Faithful(parse, file + more, base, t)
  {
    assert (file + more)[base..t.offset] == file[base..t.offset];
  }

  lemma KeptAligned(file: seq<Byte>, offset: nat, count: nat)
    requires offset + count <= |file|
    ensures var k := Kept(file[offset..offset + count], count); Aligned(file[offset..offset + k])
  {
    var raw := file[offset..offset + count];
    var k := Kept(raw, |raw|);
    assert k > 0 ==> file[offset..offset + k][k - 1] == raw[k - 1];
  }

  // ----- runs of appends and reads -----

  datatype Step = Append(more: seq<Byte>) | Read(count: nat, fails: bool)

  /** A read returns at most what is asked and what is there. */
  predicate Enabled(file: seq<Byte>, t: Tail, step: Step) {
    step.Append? || (t.offset + step.count <= |file| && step.count <= MAX_READ + 1)
  }

  /** What a read of `count` bytes keeps: up to its last line end. */
  function Segment(file: seq<Byte>, offset: nat, count: nat): seq<Byte>
    requires offset + count <= |file|
  {
    var raw := file[offset..offset + count];
    raw[..Kept(raw, count)]
  }

  /** Every line that is not blank is a headline. */
  predicate AllRead(parse: Parse, body: seq<Byte>) {
    |Rows(parse, body)| == NonBlank(SplitLines(body))
  }

  /** The tail after a read of `count` bytes; a failing or raising read changes nothing. */
  function AfterRead(parse: Parse, file: seq<Byte>, t: Tail, count: nat, fails: bool): Tail
    requires t.offset + count <= |file|
  {
    var k := Kept(file[t.offset..t.offset + count], count);
    if fails || k == 0 then t else Consumed(parse, t, file[t.offset..t.offset + k])
  }

  ghost predicate RunsFrom(parse: Parse, file: seq<Byte>, t: Tail, steps: seq<Step>)
    decreases |steps|
  {
    steps == [] || (Enabled(file, t, steps[0]) &&
      if steps[0].Append? then RunsFrom(parse, file + steps[0].more, t, steps[1..])
      else RunsFrom(parse, file, AfterRead(parse, file, t, steps[0].count, steps[0].fails), steps[1..]))
  }

  ghost function After(parse: Parse, file: seq<Byte>, t: Tail, steps: seq<Step>): (seq<Byte>, Tail)
    requires RunsFrom(parse, file, t, steps)
    decreases |steps|
  {
    if steps == [] then (file, t)
    else if steps[0].Append? then After(parse, file + steps[0].more, t, steps[1..])
    else After(parse, file, AfterRead(parse, file, t, steps[0].count, steps[0].fails), steps[1..])
  }

  lemma ReadKeeps(parse: Parse, file: seq<Byte>, base: nat, t: Tail, count: nat, fails: bool)
    requires Faithful(parse, file, base, t) && t.offset + count <= |file|
    ensures Faithful(parse, file, base, AfterRead(parse, file, t, count, fails))
  {
    hide Faithful, Rows, Aligned, Consumed;
    KeptAligned(file, t.offset, count);
    var k := Kept(file[t.offset..t.offset + count], count);
    if !fails && k > 0 {
      ConsumeKeeps(parse, file, base, t, k);
    }
  }

  /** Over every schedule of appends and bounded reads. */
  lemma {:induction false} RunStaysFaithful(parse: Parse, file: seq<Byte>, base: nat, t: Tail, steps: seq<Step>)
    requires Faithful(parse, file, base, t) && RunsFrom(parse, file, t, steps)
    ensures Faithful(parse, After(parse, file, t, steps).0, base, After(parse, file, t, steps).1)
    decreases |steps|
  {
    hide Faithful, AfterRead;
    if steps != [] {
      if steps[0].Append? {
        AppendKeeps(parse, file, steps[0].more, base, t);
        RunStaysFaithful(parse, file + steps[0].more, base, t, steps[1..]);
      } else {
        ReadKeeps(parse, file, base, t, steps[0].count, steps[0].fails);
        RunStaysFaithful(parse, file, base, AfterRead(parse, file, t, steps[0].count, steps[0].fails), steps[1..]);
      }
    }
  }

  /** A full read moves the checkpoint exactly when a line ends within the read bound, and then
      to the last line end in it. */
  lemma FullReadAdvances(parse: Parse, file: seq<Byte>, t: Tail)
    requires t.offset <= |file|
    ensures var left := |file| - t.offset;
      var count := if left < MAX_READ + 1 then left else MAX_READ + 1;
      var after := AfterRead(parse, file, t, count, false);
      && (after.offset > t.offset <==> exists p | t.offset <= p < t.offset + count :: file[p] == NL)
      && forall p | after.offset <= p < t.offset + count :: file[p] != NL
  {
    var left := |file| - t.offset;
    var count := if left < MAX_READ + 1 then left else MAX_READ + 1;
    var k := Kept(file[t.offset..t.offset + count], count);
    ReadMoves(parse, file, t, count, k);
    KeptInFile(file, t.offset, count, k);
  }

  lemma ReadMoves(parse: Parse, file: seq<Byte>, t: Tail, count: nat, k: nat)
    requires t.offset + count <= |file| && k == Kept(file[t.offset..t.offset + count], count)
    ensures AfterRead(parse, file, t, count, false).offset == t.offset + k
  {
    hide Rows;
  }

  /** The kept part ends at the last line end of the read. */
  lemma KeptInFile(file: seq<Byte>, offset: nat, count: nat, k: nat)
    requires offset + count <= |file| && k == Kept(file[offset..offset + count], count)
    ensures k > 0 <==> exists p | offset <= p < offset + count :: file[p] == NL
    ensures forall p | offset + k <= p < offset + count :: file[p] != NL
  {
    var raw := file[offset..offset + count];
    assert forall p | offset <= p < offset + count :: file[p] == raw[p - offset];
    if k > 0 {
      assert file[offset + k - 1] == NL;
    }
  }

  // ----- the tailer, updated in place -----

  class Tailer {
    var tail: Tail

    constructor (ghost parse: Parse, ghost file: seq<Byte>, base: nat)
      requires base <= |file|
      ensures tail == Tail(base, 0, [], []) && Faithful(parse, file, base, tail)
    {
      tail := Tail(base, 0, [], []);
    }

    /** One bounded read of `count` bytes, as the system returns them. */
    method Ingest(parse: Parse, file: seq<Byte>, ghost base: nat, count: nat, rotated: bool, recordFails: bool) returns (status: Status)
      requires Faithful(parse, file, base, tail) && tail.offset + count <= |file| && count <= MAX_READ + 1
      modifies this
      ensures Faithful(parse, file, base, tail)
      ensures tail == AfterRead(parse, file, old(tail), count, status.Raised?)
      ensures var segment := Segment(file, old(tail).offset, count);
        && (status.Raised? <==> Raises(count, |segment|, rotated, recordFails))
        && (!status.Raised? ==>
            && (status.Current? <==> count == 0) && (status.PartialLine? <==> count > 0 && segment == [])
            && (status.Complete? <==> segment != [] && AllRead(parse, segment)))
    {
      hide Faithful, Rows, AfterRead, Raises, Segment, AllRead;
      ReadKeeps(parse, file, base, tail, count, false);
      ReadKeeps(parse, file, base, tail, count, true);
      ReadOutcome(parse, file, tail, count, rotated, recordFails);
      if rotated {
        return Raised;
      }
      if count == 0 {
        return Current;
      }
      var raw := Segment(file, tail.offset, count);
      if raw == [] {
        return if count > MAX_READ then Raised else PartialLine;
      }
      var parsed, failed := RssRows(parse, raw);
      if recordFails {
        return Raised;
      }
      FailuresAre(parse, raw, failed);
      tail := Tail(tail.offset + |raw|, tail.lineCount + |parsed|, tail.rows + parsed, tail.segments + [raw]);
      status := if failed > 0 then PartialInvalid else Complete;
    }
  }

  lemma FailuresAre(parse: Parse, body: seq<Byte>, failed: nat)
    requires |Rows(parse, body)| + failed == NonBlank(SplitLines(body))
    ensures AllRead(parse, body) <==> failed == 0
  {
  }

  /** A read raises when the file was replaced, when no line ends within the bound, or when
      recording a complete segment fails. */
  predicate Raises(count: nat, kept: nat, rotated: bool, recordFails: bool) {
    rotated || (kept == 0 && count > MAX_READ) || (kept > 0 && recordFails)
  }

  lemma ReadOutcome(parse: Parse, file: seq<Byte>, t: Tail, count: nat, rotated: bool, recordFails: bool)
    requires t.offset + count <= |file|
    ensures var segment := Segment(file, t.offset, count);
      && AfterRead(parse, file, t, count, true) == t
      && AfterRead(parse, file, t, count, false) == (if segment == [] then t else Consumed(parse, t, segment))
      && (count == 0 ==> segment == [])
      && (Raises(count, |segment|, rotated, recordFails) <==> rotated || (segment == [] && count > MAX_READ) || (segment != [] && recordFails))
  {
    hide Rows;
    var raw := file[t.offset..t.offset + count];
    assert raw[..Kept(raw, count)] == file[t.offset..t.offset + Kept(raw, count)];
  }
}

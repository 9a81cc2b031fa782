/** The chunked scan of a process's memory map refines a left-to-right fold over its lines. */
module MapsScan {
  import opened Outcomes

  newtype byte = x: int | 0 <= x < 256

  type Line = seq<byte>

  const NL: byte := 10

  /** The most one read returns, and the longest record that is looked at. */
  const READ_SIZE: nat := 0x1_0000
  const LINE_LIMIT: nat := 0x1_0000

  /** What one read returns before the end of the file. */
  type Chunk = c: seq<byte> | 0 < |c| <= READ_SIZE witness [0]

  datatype Problem = TooLarge | EmptyRecord | OverlongRecord | TooManyInspections | BadRecord(why: string) | CannotRead

  /** What one record says: does it map an NVIDIA object, how many files were inspected for it, and
      is it in error? How the fields of a record are read is a parameter of the scan. */
  datatype Reading = Reading(mapped: bool, inspected: nat, error: Option<Problem>)

  datatype Limits = Limits(bytes: nat, inspections: nat)

  datatype Answer = Answer(mapped: bool, inspected: nat, problem: Option<Problem>)

  /** The answer, and the number of bytes read for it. */
  datatype Scan = Scan(answer: Answer, read: nat)

  /** How a sequence of reads ends: at end of file, because the process went away, or in error. */
  datatype Ending = EndOfFile | ProcessGone | ReadError

  // ----- the reference: split the whole file, then fold

  /** bytes.split(b"\n"), with its last part, the unterminated rest, taken off. */
  datatype Cut = Cut(terminated: seq<Line>, rest: Line)

  function Split(b: seq<byte>): Cut {
    if b == [] then Cut([], [])
    else
      var c := Split(b[..|b| - 1]);
      var x := b[|b| - 1];
      if x == NL then Cut(c.terminated + [c.rest], []) else Cut(c.terminated, c.rest + [x])
  }

  /** The records of a file that was read to the given ending. An unterminated one counts at the end
      of the file, or if it is too long already. */
  function Records(b: seq<byte>, ending: Ending): seq<Line> {
    var c := Split(b);
    if (ending == EndOfFile && c.rest != []) || |c.rest| > LINE_LIMIT then c.terminated + [c.rest] else c.terminated
  }

  function ReadLine(parse: Line -> Reading, line: Line): Reading {
    if line == [] then Reading(false, 0, Some(EmptyRecord))
    else if |line| > LINE_LIMIT then Reading(false, 0, Some(OverlongRecord))
    else parse(line)
  }

  datatype Progress = Going(inspected: nat) | Stopped(answer: Answer)

  function ReadRecord(parse: Line -> Reading, limits: Limits, line: Line, inspected: nat): Progress {
    var r := ReadLine(parse, line);
    var total := inspected + r.inspected;
    if total > limits.inspections then Stopped(Answer(false, total, Some(TooManyInspections)))
    else if r.error.Some? || r.mapped then Stopped(Answer(r.mapped, total, r.error))
    else Going(total)
  }

  /** Left to right, stopping at the first record that decides. */
  function Fold(parse: Line -> Reading, limits: Limits, lines: seq<Line>, inspected: nat): Progress {
    if lines == [] then Going(inspected)
    else
      match ReadRecord(parse, limits, lines[0], inspected)
      case Going(total) => Fold(parse, limits, lines[1..], total)
      case Stopped(a) => Stopped(a)
  }

  function Finish(p: Progress, ending: Ending): Answer {
    match p
    case Stopped(a) => a
    case Going(inspected) => Answer(false, inspected, if ending == ReadError then Some(CannotRead) else None)
  }

  function WholeFileScan(parse: Line -> Reading, limits: Limits, b: seq<byte>, ending: Ending): Answer {
    Finish(Fold(parse, limits, Records(b, ending), 0), ending)
  }

  function Concat(chunks: seq<Chunk>): seq<byte> {
    if chunks == [] then [] else chunks[0] + Concat(chunks[1..])
  }

  // ----- splitting and folding piece by piece

  /** One more byte. */
  lemma SplitSnoc(b: seq<byte>, x: byte)
    ensures Split(b + [x]) == var c := Split(b); if x == NL then Cut(c.terminated + [c.rest], [])
            else Cut(c.terminated, c.rest + [x])
  {
  }

  lemma {:induction false} SplitConcat(a: seq<byte>, b: seq<byte>)
    ensures Split(a + b) == var c, d := Split(a), Split(Split(a).rest + b); Cut(c.terminated + d.terminated, d.rest)
    decreases |b|
  {
    var rest := Split(a).rest;
    if b == [] {
      RestIsPlain(a);
      SplitPlain(rest);
      assert a + b == a && rest + b == rest;
    } else {
      var init, x := b[..|b| - 1], b[|b| - 1];
      SplitConcat(a, init);
      assert a + b == (a + init) + [x] && rest + b == (rest + init) + [x];
      SplitSnoc(a + init, x);
      SplitSnoc(rest + init, x);
    }
  }

  lemma {:induction false} RestIsPlain(b: seq<byte>)
    ensures NL !in Split(b).rest
  {
    if b != [] { RestIsPlain(b[..|b| - 1]); }
  }

  lemma {:induction false} SplitPlain(t: seq<byte>)
    requires NL !in t
    ensures Split(t) == Cut([], t)
  {
    if t != [] { SplitPlain(t[..|t| - 1]); }
  }

  /** A read that completes a record leaves less than itself over. */
  lemma {:induction false} RestIsOfTheRead(rest: Line, chunk: seq<byte>)
    requires NL !in rest
    ensures var c := Split(rest + chunk); c.terminated == [] || |c.rest| < |chunk|
  {
    if chunk == [] {
      assert rest + chunk == rest;
      SplitPlain(rest);
    } else {
      var init, x := chunk[..|chunk| - 1], chunk[|chunk| - 1];
      RestIsOfTheRead(rest, init);
      assert rest + chunk == (rest + init) + [x];
      SplitSnoc(rest + init, x);
    }
  }

  /** An unterminated record that is too long is the start of the next record, whatever follows. */
  lemma {:induction false} OverlongStays(rest: Line, later: seq<byte>)
    requires NL !in rest && |rest| > LINE_LIMIT
    ensures var c := Split(rest + later);
            if c.terminated == [] then |c.rest| > LINE_LIMIT else |c.terminated[0]| > LINE_LIMIT
  {
    if later == [] {
      assert rest + later == rest;
      SplitPlain(rest);
    } else {
      var init, x := later[..|later| - 1], later[|later| - 1];
      OverlongStays(rest, init);
      assert rest + later == (rest + init) + [x];
      SplitSnoc(rest + init, x);
    }
  }

  lemma {:induction false} FoldConcat(parse: Line -> Reading, limits: Limits, a: seq<Line>, b: seq<Line>,
                                      inspected: nat)
    ensures Fold(parse, limits, a + b, inspected)
         == match Fold(parse, limits, a, inspected)
            case Going(total) => Fold(parse, limits, b, total)
            case Stopped(answer) => Stopped(answer)
  {
    if a == [] {
      assert a + b == b;
    } else {
      assert (a + b)[1..] == a[1..] + b;
      var p := ReadRecord(parse, limits, a[0], inspected);
      if p.Going? { FoldConcat(parse, limits, a[1..], b, p.inspected); }
    }
  }

  /** The records that are complete in a part of the file are the first ones of the whole. */
  lemma RecordsExtend(a: seq<byte>, b: seq<byte>, ending: Ending) returns (more: seq<Line>)
    ensures Records(a + b, ending) == Split(a).terminated + more
  {
    SplitConcat(a, b);
    more := Records(a + b, ending)[|Split(a).terminated|..];
  }

  /** A decision on the first records is the decision on the whole file. */
  lemma DecidedEarly(parse: Line -> Reading, limits: Limits, a: seq<byte>, b: seq<byte>, ending: Ending)
    requires Fold(parse, limits, Split(a).terminated, 0).Stopped?
    ensures WholeFileScan(parse, limits, a + b, ending) == Fold(parse, limits, Split(a).terminated, 0).answer
  {
    var more := RecordsExtend(a, b, ending);
    FoldConcat(parse, limits, Split(a).terminated, more, 0);
  }

  /** An overlong unterminated record is the next record of the whole file. */
  lemma OverlongIsNext(a: seq<byte>, b: seq<byte>, ending: Ending) returns (next: Line, more: seq<Line>)
    requires |Split(a).rest| > LINE_LIMIT
    ensures Records(a + b, ending) == Split(a).terminated + [next] + more && |next| > LINE_LIMIT
  {
    RestIsPlain(a);
    SplitConcat(a, b);
    OverlongStays(Split(a).rest, b);
    var tail := Records(a + b, ending)[|Split(a).terminated|..];
    next, more := tail[0], tail[1..];
  }

  lemma OverlongStops(parse: Line -> Reading, limits: Limits, first: seq<Line>, next: Line, more: seq<Line>,
                      inspected: nat)
    requires Fold(parse, limits, first, 0) == Going(inspected) && inspected <= limits.inspections && |next| > LINE_LIMIT
    ensures Fold(parse, limits, first + [next] + more, 0)
         == Stopped(Answer(false, inspected, Some(OverlongRecord)))
  {
    assert first + [next] + more == first + ([next] + more);
    FoldConcat(parse, limits, first, [next] + more, 0);
  }

  /** So it decides the file that was undecided before it. */
  lemma DecidedByOverlong(parse: Line -> Reading, limits: Limits, a: seq<byte>, b: seq<byte>, ending: Ending,
                          inspected: nat)
    requires Fold(parse, limits, Split(a).terminated, 0) == Going(inspected) && inspected <= limits.inspections
    requires |Split(a).rest| > LINE_LIMIT
    ensures WholeFileScan(parse, limits, a + b, ending) == Answer(false, inspected, Some(OverlongRecord))
  {
    var next, more := OverlongIsNext(a, b, ending);
    OverlongStops(parse, limits, Split(a).terminated, next, more, inspected);
  }

  lemma {:induction false} InspectionsFit(parse: Line -> Reading, limits: Limits, lines: seq<Line>, inspected: nat)
    requires inspected <= limits.inspections
    ensures var p := Fold(parse, limits, lines, inspected); p.Going? ==> p.inspected <= limits.inspections
  {
    if lines != [] {
      var p := ReadRecord(parse, limits, lines[0], inspected);
      if p.Going? { InspectionsFit(parse, limits, lines[1..], p.inspected); }
    }
  }

  // ----- the scan

  /** Between two reads: the unfinished record, the files inspected, the bytes taken; or the end. */
  datatype Point = Point(buffered: Line, inspected: nat, read: nat) | Decided(scan: Scan)

  function TakeChunk(parse: Line -> Reading, limits: Limits, chunk: Chunk, at: Point): Point
    requires at.Point?
  {
    var total := at.read + |chunk|;
    if total > limits.bytes then Decided(Scan(Answer(false, at.inspected, Some(TooLarge)), total))
    else
      var c := Split(at.buffered + chunk);
      if |c.rest| > LINE_LIMIT then Decided(Scan(Answer(false, at.inspected, Some(OverlongRecord)), total))
      else
        match Fold(parse, limits, c.terminated, at.inspected)
        case Stopped(a) => Decided(Scan(a, total))
        case Going(n) => Point(c.rest, n, total)
  }

  function TakeEnd(parse: Line -> Reading, limits: Limits, ending: Ending, at: Point): Scan
    requires at.Point?
  {
    var last := ending == EndOfFile && at.buffered != [];
    Scan(Finish(if last then ReadRecord(parse, limits, at.buffered, at.inspected) else Going(at.inspected), ending),
         at.read)
  }

  function ScanFrom(parse: Line -> Reading, limits: Limits, chunks: seq<Chunk>, ending: Ending, at: Point): Scan
    decreases |chunks|
  {
    if at.Decided? then at.scan
    else if chunks == [] then TakeEnd(parse, limits, ending, at)
    else ScanFrom(parse, limits, chunks[1..], ending, TakeChunk(parse, limits, chunks[0], at))
  }

  function ScanMaps(parse: Line -> Reading, limits: Limits, chunks: seq<Chunk>, ending: Ending): Scan {
    ScanFrom(parse, limits, chunks, ending, Point([], 0, 0))
  }

  method ScanLines(parse: Line -> Reading, limits: Limits, lines: seq<Line>, inspected: nat) returns (p: Progress)
    ensures p == Fold(parse, limits, lines, inspected)
  {
    var i, total := 0, inspected;
    while i < |lines|
      invariant 0 <= i <= |lines|
      invariant Fold(parse, limits, lines, inspected) == Fold(parse, limits, lines[i..], total)
    {
      p := ReadRecord(parse, limits, lines[i], total);
      assert lines[i..][1..] == lines[i + 1..];
      if p.Stopped? { return; }
      total := p.inspected;
      i := i + 1;
    }
    return Going(total);
  }

  /** Read, buffer, cut into lines, decide; chunk by chunk. */
  method ProcessMapsUseNvidia(parse: Line -> Reading, limits: Limits, chunks: seq<Chunk>, ending: Ending)
    returns (r: Answer, read: nat)
    ensures Scan(r, read) == ScanMaps(parse, limits, chunks, ending)
  {
    var buffered: seq<byte> := [];
    var inspected := 0;
    read := 0;
    var k := 0;
    while k < |chunks|
      invariant 0 <= k <= |chunks|
      invariant ScanMaps(parse, limits, chunks, ending)
             == ScanFrom(parse, limits, chunks[k..], ending, Point(buffered, inspected, read))
    {
      var chunk := chunks[k];
      assert chunks[k..][0] == chunk && chunks[k..][1..] == chunks[k + 1..];
      read := read + |chunk|;
      if read > limits.bytes { return Answer(false, inspected, Some(TooLarge)), read; }
      var lines := Split(buffered + chunk);
      buffered := lines.rest;
      if |buffered| > LINE_LIMIT { return Answer(false, inspected, Some(OverlongRecord)), read; }
      var p := ScanLines(parse, limits, lines.terminated, inspected);
      if p.Stopped? { return p.answer, read; }
      inspected := p.inspected;
      k := k + 1;
    }
    var p := Going(inspected);
    if ending == EndOfFile && buffered != [] {
      p := ReadRecord(parse, limits, buffered, inspected);
    }
    return Finish(p, ending), read;
  }

  /** The answer on the bytes that were read: that of the whole file, or a refusal of its size. */
  ghost predicate Refines(parse: Line -> Reading, limits: Limits, b: seq<byte>, ending: Ending, r: Answer) {
    || r == WholeFileScan(parse, limits, b, ending)
    || (|b| > limits.bytes && !r.mapped && r.problem == Some(TooLarge))
  }

  /** One more read after a prefix that did not decide: the records it completes go on with the fold,
      and if it leaves an overlong rest it completes none. */
  lemma ReadExtends(parse: Line -> Reading, limits: Limits, done: seq<byte>, chunk: Chunk, inspected: nat)
    requires Fold(parse, limits, Split(done).terminated, 0) == Going(inspected) && inspected <= limits.inspections
    requires |Split(done).rest| <= LINE_LIMIT
    ensures var c, now := Split(Split(done).rest + chunk), Split(done + chunk);
            var p := Fold(parse, limits, c.terminated, inspected);
            && now.rest == c.rest
            && Fold(parse, limits, now.terminated, 0) == p
            && (p.Going? ==> p.inspected <= limits.inspections)
            && (|c.rest| > LINE_LIMIT ==> p == Going(inspected))
  {
    var before := Split(done);
    var c := Split(before.rest + chunk);
    RestIsPlain(done);
    SplitConcat(done, chunk);
    FoldConcat(parse, limits, before.terminated, c.terminated, 0);
    InspectionsFit(parse, limits, c.terminated, inspected);
    RestIsOfTheRead(before.rest, chunk);
  }

  /** The scan stands at the end of `done`, which did not decide. */
  ghost predicate Undecided(parse: Line -> Reading, limits: Limits, done: seq<byte>, at: Point) {
    && at.Point? && at.read == |done| && at.buffered == Split(done).rest && |at.buffered| <= LINE_LIMIT
    && at.inspected <= limits.inspections
    && Fold(parse, limits, Split(done).terminated, 0) == Going(at.inspected)
  }

  /** An unterminated last record may still decide. */
  lemma EndRefines(parse: Line -> Reading, limits: Limits, done: seq<byte>, ending: Ending, at: Point)
    requires Undecided(parse, limits, done, at)
    ensures TakeEnd(parse, limits, ending, at).answer == WholeFileScan(parse, limits, done, ending)
  {
    FoldConcat(parse, limits, Split(done).terminated, [at.buffered], 0);
    assert Fold(parse, limits, [at.buffered], at.inspected) == ReadRecord(parse, limits, at.buffered, at.inspected);
  }

  lemma ChunkRefines(parse: Line -> Reading, limits: Limits, done: seq<byte>, chunk: Chunk, later: seq<byte>,
                     ending: Ending, at: Point)
    requires Undecided(parse, limits, done, at)
    ensures var next := TakeChunk(parse, limits, chunk, at);
            if next.Decided? then Refines(parse, limits, done + chunk + later, ending, next.scan.answer)
            else Undecided(parse, limits, done + chunk, next)
  {
    ReadExtends(parse, limits, done, chunk, at.inspected);
    var c := Split(at.buffered + chunk);
    if |done| + |chunk| <= limits.bytes {
      if |c.rest| > LINE_LIMIT {
        DecidedByOverlong(parse, limits, done + chunk, later, ending, at.inspected);
      } else if Fold(parse, limits, c.terminated, at.inspected).Stopped? {
        DecidedEarly(parse, limits, done + chunk, later, ending);
      }
    }
  }

  /** After any prefix that did not decide, the rest of the scan refines the fold over the whole. */
  lemma {:induction false} ScanFromRefines(parse: Line -> Reading, limits: Limits, done: seq<byte>, chunks: seq<Chunk>,
                                           ending: Ending, at: Point)
    requires Undecided(parse, limits, done, at)
    ensures Refines(parse, limits, done + Concat(chunks), ending, ScanFrom(parse, limits, chunks, ending, at).answer)
    decreases |chunks|
  {
    if chunks == [] {
      assert done + Concat(chunks) == done;
      EndRefines(parse, limits, done, ending, at);
    } else {
      var chunk, more := chunks[0], chunks[1..];
      var next := TakeChunk(parse, limits, chunk, at);
      assert done + Concat(chunks) == done + chunk + Concat(more);
      ChunkRefines(parse, limits, done, chunk, Concat(more), ending, at);
      if next.Point? { ScanFromRefines(parse, limits, done + chunk, more, ending, next); }
    }
  }

  /** For every file, every cut of it into reads and every ending: the scan answers as the fold over
      the newline-split contents does, or refuses a file beyond the byte limit. */
  lemma ScanRefinesFold(parse: Line -> Reading, limits: Limits, chunks: seq<Chunk>, ending: Ending)
    ensures Refines(parse, limits, Concat(chunks), ending, ScanMaps(parse, limits, chunks, ending).answer)
  {
    assert [] + Concat(chunks) == Concat(chunks);
    ScanFromRefines(parse, limits, [], chunks, ending, Point([], 0, 0));
  }

  /** The bytes reported are bytes of the file, and all of them if nothing was found. */
  lemma {:induction false} ScanReads(parse: Line -> Reading, limits: Limits, chunks: seq<Chunk>, ending: Ending,
                                     at: Point)
    requires at.Point?
    ensures var s := ScanFrom(parse, limits, chunks, ending, at);
            && s.read <= at.read + |Concat(chunks)|
            && (!s.answer.mapped && s.answer.problem.None? ==> s.read == at.read + |Concat(chunks)|)
    decreases |chunks|
  {
    if chunks != [] {
      var next := TakeChunk(parse, limits, chunks[0], at);
      FoldMeans(parse, limits, Split(at.buffered + chunks[0]).terminated, at.inspected);
      if next.Point? { ScanReads(parse, limits, chunks[1..], ending, next); }
    }
  }

  /** Up to the byte limit the answer does not depend on the cut at all, even if records are overlong. */
  lemma CutsAgree(parse: Line -> Reading, limits: Limits, one: seq<Chunk>, other: seq<Chunk>, ending: Ending)
    requires Concat(one) == Concat(other) && |Concat(one)| <= limits.bytes
    ensures ScanMaps(parse, limits, one, ending).answer == ScanMaps(parse, limits, other, ending).answer
         == WholeFileScan(parse, limits, Concat(one), ending)
  {
    ScanRefinesFold(parse, limits, one, ending);
    ScanRefinesFold(parse, limits, other, ending);
  }

  // ----- what the answers mean

  ghost predicate Harmless(parse: Line -> Reading, line: Line) {
    !ReadLine(parse, line).mapped && ReadLine(parse, line).error.None?
  }

  lemma {:induction false} FoldMeans(parse: Line -> Reading, limits: Limits, lines: seq<Line>, inspected: nat)
    ensures var p := Fold(parse, limits, lines, inspected);
            && (p.Going? ==> forall l <- lines :: Harmless(parse, l))
            && (p.Stopped? ==> p.answer.mapped || p.answer.problem.Some?)
            && (p.Stopped? && p.answer.mapped ==> exists l <- lines :: ReadLine(parse, l).mapped)
  {
    if lines != [] {
      var p := ReadRecord(parse, limits, lines[0], inspected);
      if p.Going? { FoldMeans(parse, limits, lines[1..], p.inspected); }
    }
  }

  /** A process is called a user of the device only because of a record of its map, and cleared at the
      end of the file only if every record of the whole map was read and is harmless. */
  lemma AnswerMeans(parse: Line -> Reading, limits: Limits, chunks: seq<Chunk>, ending: Ending)
    ensures var s, records := ScanMaps(parse, limits, chunks, ending), Records(Concat(chunks), ending);
            && (s.answer.mapped ==> exists l <- records :: ReadLine(parse, l).mapped)
            && (!s.answer.mapped && s.answer.problem.None? ==>
                  s.read == |Concat(chunks)| && forall l <- records :: Harmless(parse, l))
  {
    ScanRefinesFold(parse, limits, chunks, ending);
    ScanReads(parse, limits, chunks, ending, Point([], 0, 0));
    FoldMeans(parse, limits, Records(Concat(chunks), ending), 0);
  }
}

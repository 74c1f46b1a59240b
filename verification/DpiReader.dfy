/** The log reader: read_new_lines and run_once (scripts/exit_dpi_reporter.py),
    and what the two halves of the pipeline give together. */
module DpiReader {
  import opened Wrappers
  import opened DpiParse
  import R = DpiRows

  newtype byte = x: int | 0 <= x < 256

  type Bytes = seq<byte>

  const NEWLINE: byte := 10

  /** A log file. When `present` is false its size cannot be read. */
  datatype File = File(present: bool, bytes: Bytes)

  predicate HasNewline(s: Bytes) {
    exists i :: 0 <= i < |s| && s[i] == NEWLINE
  }

  /** One past the last newline, or 0. */
  function LastLineEnd(s: Bytes): (n: nat)
    ensures n <= |s|
    ensures n > 0 ==> s[n - 1] == NEWLINE
    ensures forall i | n <= i < |s| :: s[i] != NEWLINE
  {
    if s == [] then 0
    else if s[|s| - 1] == NEWLINE then |s|
    else
      var n := LastLineEnd(s[..|s| - 1]);
      assert forall i | n <= i < |s| - 1 :: s[i] == s[..|s| - 1][i];
      n
  }

  /** What a read gives: whole lines, the offset behind them, and whether they
      follow on from what was read before. */
  datatype Read = Read(batch: Bytes, offset: nat, follows: bool)

  /** `cap` is MAX_CHUNK_BYTES. */
  function ReadNew(file: File, stored: Option<nat>, cap: nat): (r: Read)
    ensures file.present && r.follows ==> stored.Some? && stored.value + |r.batch| == r.offset <= |file.bytes|
  {
    var before := if stored.Some? then stored.value else 0;
    if !file.present then Read([], before, stored.Some?)
    else
      var size := |file.bytes|;
      var offset := if before > size then 0 else before;
      if size - offset > cap || stored == None then Read([], size, false)
      else
        var chunk := file.bytes[offset..];
        var n := LastLineEnd(chunk);
        Read(chunk[..n], offset + n, before <= size)
  }

  // ---- one log over time -------------------------------------------------------------------

  /** A log and its reader. Since `base` the reader has consumed `consumed`;
      `intact` says that the bytes from there on were not replaced since.
      `taken` is all it ever consumed. */
  datatype Channel = Channel(file: File, stored: Option<nat>, base: nat, consumed: Bytes, intact: bool, taken: Bytes)

  function Commit(c: Channel, r: Read): Channel {
    if r.follows then c.(stored := Some(r.offset), consumed := c.consumed + r.batch, taken := c.taken + r.batch)
    else
      c.(stored := Some(r.offset), base := if r.offset >= |r.batch| then r.offset - |r.batch| else 0,
         consumed := r.batch, intact := true, taken := c.taken + r.batch)
  }

  function Append(c: Channel, more: Bytes): Channel {
    c.(file := File(true, c.file.bytes + more))
  }

  /** Copy-and-truncate, or any other replacement of the file. */
  function Replace(c: Channel, file: File): Channel {
    c.(file := file, intact := false)
  }

  predicate EndsLine(s: Bytes) { s == [] || s[|s| - 1] == NEWLINE }

  /** What was consumed is exactly the bytes from the base to the stored
      offset, in whole lines. */
  predicate ExactlyOnce(c: Channel) {
    c.stored.Some? && c.intact ==>
      && c.base <= c.stored.value <= |c.file.bytes|
      && c.consumed == c.file.bytes[c.base..c.stored.value]
      && EndsLine(c.consumed)
  }

  /** A file that cannot be read has nothing in it here. */
  predicate Sane(c: Channel) {
    ExactlyOnce(c) && (!c.file.present ==> c.file.bytes == [])
  }

  lemma ReadCommits(c: Channel, cap: nat)
    requires Sane(c)
    ensures var r := ReadNew(c.file, c.stored, cap);
            && Sane(Commit(c, r)) && EndsLine(r.batch)
            && Commit(c, r).stored.Some? && (Commit(c, r).intact <==> c.intact || !r.follows)
  {
    var r := ReadNew(c.file, c.stored, cap);
    var before := if c.stored.Some? then c.stored.value else 0;
    if c.file.present && r.follows {
      var bytes := c.file.bytes;
      assert r.batch == bytes[before..r.offset];
      if c.intact {
        assert bytes[c.base..r.offset] == bytes[c.base..before] + bytes[before..r.offset];
      }
    }
  }

  lemma AppendKeeps(c: Channel, more: Bytes)
    requires Sane(c)
    ensures Sane(Append(c, more))
  {
    if c.stored.Some? && c.intact {
      assert (c.file.bytes + more)[c.base..c.stored.value] == c.file.bytes[c.base..c.stored.value];
    }
  }

  // ---- both logs, and the reports --------------------------------------------------------------

  /** What the lines of a batch are, and whether they give anything to say. */
  datatype Grammar = Grammar(access: Bytes -> AccessLine, rejects: Bytes -> RejectLine)

  /** A batch cut at its newlines. */
  function Split(s: Bytes): seq<Bytes> {
    if s == [] then []
    else
      var rest := Split(s[1..]);
      if s[0] == NEWLINE then [[]] + rest
      else if rest == [] then [[s[0]]]
      else [[s[0]] + rest[0]] + rest[1..]
  }

  function AccessLines(g: Grammar, lines: seq<Bytes>): (r: seq<AccessLine>)
    ensures |r| == |lines|
  {
    if lines == [] then [] else [g.access(lines[0])] + AccessLines(g, lines[1..])
  }

  function RejectLines(g: Grammar, lines: seq<Bytes>): (r: seq<RejectLine>)
    ensures |r| == |lines|
  {
    if lines == [] then [] else [g.rejects(lines[0])] + RejectLines(g, lines[1..])
  }

  datatype Report = Report(access: seq<AccessEntry>, rejects: seq<RejectEntry>, presence: Dict.Dict<string, Rec>)

  import Dict

  function ReportOf(g: Grammar, access: Bytes, errors: Bytes): Report {
    var ls := AccessLines(g, Split(access));
    Report(ParseAccess(ls), ParseRejects(RejectLines(g, Split(errors))), Presence(ls))
  }

  predicate Silent(r: Report) { r.access == [] && r.rejects == [] && r.presence == [] }

  datatype Pipe = Pipe(access: Channel, errors: Channel, posted: seq<Report>)

  datatype Event = Write(access: bool, more: Bytes) | Rotate(access: bool, file: File) | Tick(accepted: bool)

  /** One tick: with nothing to say the offsets are stored; otherwise only once
      the report was accepted. */
  function Run(p: Pipe, g: Grammar, cap: nat, accepted: bool): Pipe {
    var a, e := ReadNew(p.access.file, p.access.stored, cap), ReadNew(p.errors.file, p.errors.stored, cap);
    var report := ReportOf(g, a.batch, e.batch);
    if Silent(report) then p.(access := Commit(p.access, a), errors := Commit(p.errors, e))
    else if !accepted then p
    else Pipe(Commit(p.access, a), Commit(p.errors, e), p.posted + [report])
  }

  function Step(p: Pipe, g: Grammar, cap: nat, ev: Event): Pipe {
    match ev
    case Write(true, more) => p.(access := Append(p.access, more))
    case Write(false, more) => p.(errors := Append(p.errors, more))
    case Rotate(true, file) => p.(access := Replace(p.access, file))
    case Rotate(false, file) => p.(errors := Replace(p.errors, file))
    case Tick(accepted) => Run(p, g, cap, accepted)
  }

  function Steps(p: Pipe, g: Grammar, cap: nat, evs: seq<Event>): Pipe
    decreases |evs|
  {
    if evs == [] then p else Steps(Step(p, g, cap, evs[0]), g, cap, evs[1..])
  }

  predicate SaneEvent(ev: Event) {
    ev.Rotate? && !ev.file.present ==> ev.file.bytes == []
  }

  lemma StepIsSane(p: Pipe, g: Grammar, cap: nat, ev: Event)
    requires Sane(p.access) && Sane(p.errors) && SaneEvent(ev)
    ensures var q := Step(p, g, cap, ev); Sane(q.access) && Sane(q.errors)
  {
    hide ExactlyOnce, ReadNew, ReportOf, Commit;
    match ev
    case Write(access, more) => AppendKeeps(p.access, more); AppendKeeps(p.errors, more);
    case Rotate(access, file) => ReplacedIsSane(p.access, file); ReplacedIsSane(p.errors, file);
    case Tick(accepted) => ReadCommits(p.access, cap); ReadCommits(p.errors, cap);
  }

  lemma ReplacedIsSane(c: Channel, file: File)
    ensures ExactlyOnce(Replace(c, file))
  {
  }

  /** Exactly once: over any interleaving of writes, rotations and ticks whose
      reports are accepted or not, what was consumed since the base is exactly
      the bytes from the base to the stored offset, as long as they were not
      replaced; and it is whole lines. */
  lemma {:induction false} ConsumedExactlyOnce(p: Pipe, g: Grammar, cap: nat, evs: seq<Event>)
    requires Sane(p.access) && Sane(p.errors)
    requires forall i | 0 <= i < |evs| :: SaneEvent(evs[i])
    ensures var q := Steps(p, g, cap, evs); Sane(q.access) && Sane(q.errors)
    decreases |evs|
  {
    hide Sane, Step, SaneEvent;
    if evs != [] {
      StepIsSane(p, g, cap, evs[0]);
      ConsumedExactlyOnce(Step(p, g, cap, evs[0]), g, cap, evs[1..]);
    }
  }

  /** A truncation is noticed exactly when it leaves less than was read; then
      the whole new file is consumed from its start. */
  lemma TruncationNoticed(c: Channel, file: File, cap: nat)
    requires file.present && c.stored.Some? && |file.bytes| <= cap
    ensures var r := ReadNew(file, c.stored, cap);
            && (!r.follows <==> |file.bytes| < c.stored.value || |file.bytes| > c.stored.value + cap)
            && (|file.bytes| < c.stored.value ==>
                  r.batch == file.bytes[..LastLineEnd(file.bytes)] && r.offset == |r.batch|)
  {
    assert file.bytes[0..] == file.bytes;
  }

  /** A tick below the cap that commits leaves no whole line unread. */
  lemma NothingLeftBehind(c: Channel, cap: nat)
    requires c.stored.Some? && c.file.present && c.stored.value <= |c.file.bytes| <= c.stored.value + cap
    ensures var r := ReadNew(c.file, c.stored, cap);
            r.follows && !HasNewline(c.file.bytes[r.offset..])
  {
    var r := ReadNew(c.file, c.stored, cap);
    var chunk := c.file.bytes[c.stored.value..];
    forall i | 0 <= i < |c.file.bytes| - r.offset ensures c.file.bytes[r.offset..][i] != NEWLINE {
      assert c.file.bytes[r.offset..][i] == chunk[LastLineEnd(chunk) + i];
    }
  }

  /** One read, completely: an unreadable file gives nothing; the first read, and
      one with more than the cap to read, skip to the end; any other gives all
      whole lines there are, from the stored offset or, if the file has become
      shorter than that, from its start. */
  lemma ReadIs(file: File, stored: Option<nat>, cap: nat)
    ensures var r, before := ReadNew(file, stored, cap), if stored.Some? then stored.value else 0;
            var size := |file.bytes|;
            var from := if before <= size then before else 0;
            && (!file.present ==> r.batch == [] && r.offset == before)
            && (file.present && (stored == None || from + cap < size) ==> r.batch == [] && r.offset == size && !r.follows)
            && (file.present && stored.Some? && size <= from + cap ==>
                  && r.offset <= size && r.batch == file.bytes[from..r.offset] && (r.batch != [] ==> r.batch[|r.batch| - 1] == NEWLINE)
                  && (forall i | r.offset <= i < size :: file.bytes[i] != NEWLINE) && (r.follows <==> before == from))
  {
    if file.present && stored.Some? {
      var from := if stored.value <= |file.bytes| then stored.value else 0;
      var chunk, n := file.bytes[from..], LastLineEnd(file.bytes[from..]);
      forall i | from + n <= i < |file.bytes| ensures file.bytes[i] != NEWLINE { assert file.bytes[i] == chunk[i - from]; }
    }
  }

  /** The reporter as it runs: its two stored offsets change in place. */
  class Reporter {
    const grammar: Grammar
    const cap: nat
    var accessOffset: Option<nat>
    var errorOffset: Option<nat>

    constructor (g: Grammar, cap: nat)
      ensures grammar == g && this.cap == cap && accessOffset == None && errorOffset == None
    {
      grammar, this.cap := g, cap;
      accessOffset, errorOffset := None, None;
    }

    /** `accepted` is the answer to the report, if there is one to make. */
    method RunOnce(access: File, errors: File, accepted: bool) returns (sent: Option<Report>, code: int)
      modifies this
      ensures var a, e := ReadNew(access, old(accessOffset), cap), ReadNew(errors, old(errorOffset), cap);
              var report := ReportOf(grammar, a.batch, e.batch);
              && sent == (if Silent(report) then None else Some(report))
              && (if Silent(report) || accepted then accessOffset == Some(a.offset) && errorOffset == Some(e.offset)
                  else accessOffset == old(accessOffset) && errorOffset == old(errorOffset))
              && (code == 0 <==> Silent(report) || accepted)
    {
      hide ReadNew, ParseAccess, ParseRejects, Presence;
      var a := ReadNew(access, accessOffset, cap);
      var e := ReadNew(errors, errorOffset, cap);
      var lines := AccessLines(grammar, Split(a.batch));
      var conns := ParseAccessLines(lines);
      var users := ParsePresence(lines);
      var rejects := ParseRejectLines(RejectLines(grammar, Split(e.batch)));
      if conns == [] && rejects == [] && users == [] {
        accessOffset, errorOffset := Some(a.offset), Some(e.offset);
        return None, 0;
      }
      sent := Some(Report(conns, rejects, users));
      if !accepted {
        return sent, 1;
      }
      accessOffset, errorOffset := Some(a.offset), Some(e.offset);
      code := 0;
    }
  }
}

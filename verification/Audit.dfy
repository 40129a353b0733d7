/** The persisted audit trail: one active file, three rotated ones, and the replay. */
module Audit {
  import opened Options
  import opened Text
  import opened RingBuffers

  const MaxEntries: nat := 500
  const MaxLine: nat := 1_048_576
  const MaxFileSize: nat := 10 * 1024 * 1024
  const KeepRotated: nat := 3

  /** A character stands for a byte; a line has no line end. */
  type Line = string

  // ---------- Reading lines ----------

  /** One result of the buffered reader: part of a line, or its last part. */
  datatype Chunk = Chunk(text: string, isPrefix: bool)

  /** The complete lines a stream of chunks spells when `open` is already read. */
  function LinesFrom(open: string, chunks: seq<Chunk>): seq<Line>
    decreases |chunks|
  {
    if chunks == [] then []
    else if chunks[0].isPrefix then LinesFrom(open + chunks[0].text, chunks[1..])
    else [open + chunks[0].text] + LinesFrom("", chunks[1..])
  }

  /** What is left unfinished at the end of the stream. */
  function Rest(open: string, chunks: seq<Chunk>): string
    decreases |chunks|
  {
    if chunks == [] then open
    else Rest(if chunks[0].isPrefix then open + chunks[0].text else "", chunks[1..])
  }

  /** The lines of a file; at the end of the file an unfinished line counts too. */
  function Lines(chunks: seq<Chunk>, failed: bool): seq<Line> {
    LinesFrom("", chunks) + (if failed || Rest("", chunks) == "" then [] else [Rest("", chunks)])
  }

  /** The entry of one line: none when it is too long, blank or malformed. */
  function EntryOf<E>(decode: string -> Option<E>, line: Line): Option<E> {
    if |line| > MaxLine || Trim(line, IsSpace) == "" then None else decode(Trim(line, IsSpace))
  }

  function Entries<E>(decode: string -> Option<E>, lines: seq<Line>): seq<E> {
    if lines == [] then []
    else
      var e := EntryOf(decode, lines[|lines| - 1]);
      Entries(decode, lines[..|lines| - 1]) + (if e.Some? then [e.value] else [])
  }

  lemma {:induction false} EntriesAppend<E>(decode: string -> Option<E>, a: seq<Line>, b: seq<Line>)
    ensures Entries(decode, a + b) == Entries(decode, a) + Entries(decode, b)
  {
    if b == [] {
      assert a + b == a;
    } else {
      var c := b[..|b| - 1];
      EntriesAppend(decode, a, c);
      assert (a + b)[..|a + b| - 1] == a + c;
    }
  }

  lemma EntriesOne<E>(decode: string -> Option<E>, line: Line)
    ensures Entries(decode, [line]) ==
            (if EntryOf(decode, line).Some? then [EntryOf(decode, line).value] else [])
  {
    assert [line][..0] == [];
    assert Entries(decode, []) == [];
  }

  /** A line of blanks has no entry, whatever the decoder makes of it. */
  lemma BlankLineIsSkipped<E>(decode: string -> Option<E>, line: Line)
    requires forall c :: c in line ==> IsSpace(c)
    ensures Entries(decode, [line]) == []
  {
    TrimEmpty(line, IsSpace);
    EntriesOne(decode, line);
  }

  /** Adds the entry of one line to a tail of at most `MaxEntries`, dropping the oldest. */
  method Flush<E>(decode: string -> Option<E>, line: Line, tail: seq<E>, ghost seen: seq<E>)
      returns (next: seq<E>)
    requires |line| <= MaxLine
    requires tail == Last(seen, MaxEntries)
    ensures next == Last(seen + Entries(decode, [line]), MaxEntries)
  {
    EntriesOne(decode, line);
    var trimmed := Trim(line, IsSpace);
    if trimmed == "" {
      return tail;
    }
    var e := decode(trimmed);
    if e.None? {
      return tail;
    }
    next := tail;
    if |next| == MaxEntries {
      next := next[1..];
    }
    next := next + [e.value];
  }

  /** How the reader's buffer and its oversize mark stand for the open line. */
  predicate Buffered(open: string, buf: string, oversize: bool) {
    if oversize then |open| > MaxLine && buf == "" else buf == open && |open| <= MaxLine
  }

  /** The tail once the lines `done` have been read after the entries `seen`. */
  function TailOf<E>(decode: string -> Option<E>, seen: seq<E>, done: seq<Line>): seq<E> {
    Last(seen + Entries(decode, done), MaxEntries)
  }

  lemma SkipLine<E>(decode: string -> Option<E>, seen: seq<E>, done: seq<Line>, line: Line)
    requires |line| > MaxLine || line == ""
    ensures TailOf(decode, seen, done + [line]) == TailOf(decode, seen, done)
  {
    EntriesOne(decode, line);
    EntriesAppend(decode, done, [line]);
  }

  /** `tails` gives the tail for the lines read so far. */
  ghost predicate Tails<E>(decode: string -> Option<E>, seen: seq<E>, tails: seq<Line> -> seq<E>) {
    forall done {:trigger TailOf(decode, seen, done)} :: tails(done) == TailOf(decode, seen, done)
  }

  /** The end of a line: flushed unless it was too long or empty. */
  method EndLine<E>(decode: string -> Option<E>, buf: string, oversize: bool, tail: seq<E>, ghost seen: seq<E>,
                    ghost tails: seq<Line> -> seq<E>, ghost done: seq<Line>, ghost open: string)
      returns (next: seq<E>)
    requires Tails(decode, seen, tails) && Buffered(open, buf, oversize)
    requires tail == tails(done)
    ensures next == tails(done + [open])
  {
    assert TailOf(decode, seen, done) == tail && tails(done + [open]) == TailOf(decode, seen, done + [open]);
    if oversize {
      SkipLine(decode, seen, done, open);
      return tail;
    }
    EntriesAppend(decode, done, [open]);
    next := Flush(decode, buf, tail, seen + Entries(decode, done));
    assert (seen + Entries(decode, done)) + Entries(decode, [open])
           == seen + (Entries(decode, done) + Entries(decode, [open]));
  }

  /** The buffer and its mark after one more chunk. */
  method TakeChunk(buf: string, oversize: bool, text: string, ghost open: string)
      returns (buf': string, oversize': bool)
    requires Buffered(open, buf, oversize)
    ensures Buffered(open + text, buf', oversize')
  {
    buf', oversize' := buf, oversize;
    if !oversize {
      if |buf| + |text| > MaxLine {
        buf', oversize' := "", true;
      } else {
        buf' := buf + text;
      }
    }
  }

  lemma LinesStep(open: string, chunks: seq<Chunk>, i: nat)
    requires i < |chunks|
    ensures var c := chunks[i];
            var grown := open + c.text;
            && LinesFrom(open, chunks[i..]) ==
               (if c.isPrefix then LinesFrom(grown, chunks[i + 1..])
                else [grown] + LinesFrom("", chunks[i + 1..]))
            && Rest(open, chunks[i..]) == Rest(if c.isPrefix then grown else "", chunks[i + 1..])
  {
    assert chunks[i..][0] == chunks[i];
    assert chunks[i..][1..] == chunks[i + 1..];
  }

  /** The reading loop: the finished lines are in the tail, the unfinished one in the buffer. */
  method ReadChunks<E>(decode: string -> Option<E>, chunks: seq<Chunk>, tail: seq<E>, ghost seen: seq<E>,
                       ghost tails: seq<Line> -> seq<E>)
      returns (next: seq<E>, buf: string, oversize: bool)
    requires Tails(decode, seen, tails)
    requires tail == tails([])
    ensures next == tails(LinesFrom("", chunks))
    ensures Buffered(Rest("", chunks), buf, oversize)
  {
    next, buf, oversize := tail, "", false;
    ghost var open, done := "", [];
    var i := 0;
    while i < |chunks|
      invariant 0 <= i <= |chunks|
      invariant Buffered(open, buf, oversize)
      invariant LinesFrom("", chunks) == done + LinesFrom(open, chunks[i..])
      invariant Rest("", chunks) == Rest(open, chunks[i..])
      invariant next == tails(done)
    {
      var chunk := chunks[i];
      LinesStep(open, chunks, i);
      buf, oversize := TakeChunk(buf, oversize, chunk.text, open);
      open := open + chunk.text;
      i := i + 1;
      if !chunk.isPrefix {
        next := EndLine(decode, buf, oversize, next, seen, tails, done, open);
        done := done + [open];
        open, buf, oversize := "", "", false;
      }
    }
    assert LinesFrom("", chunks) == done && Rest("", chunks) == open;
  }

  /**
   * Reads a file chunk by chunk. Whatever the chunking, the tail becomes the
   * last entries of what was there followed by the entries of the file's
   * lines. A read error keeps every line finished before it.
   */
  method ReadAuditLines<E>(decode: string -> Option<E>, chunks: seq<Chunk>, failed: bool,
                           tail: seq<E>, ghost seen: seq<E>)
      returns (next: seq<E>, ok: bool)
    requires tail == Last(seen, MaxEntries)
    ensures next == Last(seen + Entries(decode, Lines(chunks, failed)), MaxEntries)
    ensures ok == !failed
  {
    assert seen + Entries(decode, []) == seen;
    ghost var tails := (done: seq<Line>) => TailOf(decode, seen, done);
    var buf, oversize;
    next, buf, oversize := ReadChunks(decode, chunks, tail, seen, tails);
    ghost var done, open := LinesFrom("", chunks), Rest("", chunks);
    assert Lines(chunks, failed) == done + (if failed || open == "" then [] else [open]);
    assert done + [] == done;
    if failed {
      return next, false;
    }
    if !oversize && |buf| > 0 {
      next := EndLine(decode, buf, oversize, next, seen, tails, done, open);
    } else if open != "" {
      SkipLine(decode, seen, done, open);
    }
    ok := true;
  }

  /** The text of a list of pieces. */
  function Concat(parts: seq<string>): string {
    if parts == [] then "" else parts[0] + Concat(parts[1..])
  }

  function Texts(chunks: seq<Chunk>): seq<string> {
    if chunks == [] then [] else [chunks[0].text] + Texts(chunks[1..])
  }

  lemma {:induction false} ConcatAppend(a: seq<string>, b: seq<string>)
    ensures Concat(a + b) == Concat(a) + Concat(b)
  {
    if a == [] {
      assert a + b == b;
    } else {
      ConcatAppend(a[1..], b);
      assert (a + b)[0] == a[0] && (a + b)[1..] == a[1..] + b;
    }
  }

  lemma Regroup(a: string, b: string, c: string, d: string)
    ensures ((a + b) + c) + d == a + (b + (c + d))
    ensures (a + b) + c == a + (b + c)
  {
  }

  lemma {:induction false} LinesFromKeepText(open: string, chunks: seq<Chunk>)
    ensures Concat(LinesFrom(open, chunks)) + Rest(open, chunks) == open + Concat(Texts(chunks))
    decreases |chunks|
  {
    if chunks != [] {
      var c, more := chunks[0], chunks[1..];
      var texts := Texts(chunks);
      assert texts[0] == c.text && texts[1..] == Texts(more);
      assert Concat(texts) == c.text + Concat(Texts(more));
      if c.isPrefix {
        LinesFromKeepText(open + c.text, more);
        Regroup(open, c.text, Concat(Texts(more)), "");
      } else {
        LinesFromKeepText("", more);
        var lines, rest := LinesFrom(open, chunks), Rest("", more);
        assert lines[0] == open + c.text && lines[1..] == LinesFrom("", more);
        assert "" + Concat(Texts(more)) == Concat(Texts(more));
        Regroup(open, c.text, Concat(LinesFrom("", more)), rest);
      }
    }
  }

  /** No text is lost or added: at the end of the file the lines hold all of it,
      an unfinished last line included; after a read error all but that line. */
  lemma LinesKeepText(chunks: seq<Chunk>)
    ensures Concat(Lines(chunks, false)) == Concat(Texts(chunks))
    ensures Concat(Lines(chunks, true)) + Rest("", chunks) == Concat(Texts(chunks))
  {
    var done, rest := LinesFrom("", chunks), Rest("", chunks);
    LinesFromKeepText("", chunks);
    ConcatAppend(done, [rest]);
    assert [rest][1..] == [];
    assert Concat([rest]) == rest + "" == rest;
    assert done + [] == done && Concat(done) + "" == Concat(done);
    assert "" + Concat(Texts(chunks)) == Concat(Texts(chunks));
  }

  // ---------- How a bounded reader cuts lines ----------

  /** A reader with a buffer of `size` bytes hands out full buffers and then the remainder. */
  function Cut(line: Line, size: nat): seq<Chunk>
    requires size > 0
    decreases |line|
  {
    if |line| < size then [Chunk(line, false)]
    else [Chunk(line[..size], true)] + Cut(line[size..], size)
  }

  function CutAll(lines: seq<Line>, size: nat): seq<Chunk>
    requires size > 0
  {
    if lines == [] then [] else Cut(lines[0], size) + CutAll(lines[1..], size)
  }

  lemma {:induction false} CutSpells(open: string, line: Line, size: nat, more: seq<Chunk>)
    requires size > 0
    ensures LinesFrom(open, Cut(line, size) + more) == [open + line] + LinesFrom("", more)
    ensures Rest(open, Cut(line, size) + more) == Rest("", more)
    decreases |line|
  {
    var all := Cut(line, size) + more;
    if |line| < size {
      assert all[1..] == more;
    } else {
      CutSpells(open + line[..size], line[size..], size, more);
      assert all[1..] == Cut(line[size..], size) + more;
      assert open + line[..size] + line[size..] == open + line;
    }
  }

  /** Whatever the buffer size, the chunks spell the lines of the file. */
  lemma {:induction false} CutAllSpells(lines: seq<Line>, size: nat)
    requires size > 0
    ensures Lines(CutAll(lines, size), false) == lines
    ensures Rest("", CutAll(lines, size)) == ""
    ensures LinesFrom("", CutAll(lines, size)) == lines
  {
    if lines != [] {
      CutAllSpells(lines[1..], size);
      CutSpells("", lines[0], size, CutAll(lines[1..], size));
      assert "" + lines[0] == lines[0];
    }
  }

  // ---------- The four files ----------

  /** File 0 is the active log, files 1 to 3 its rotated generations. */
  type Files = fs: seq<Option<seq<Line>>> | |fs| == 4 witness [None, None, None, None]

  const NoFiles: Files := [None, None, None, None]

  function Content(file: Option<seq<Line>>): seq<Line> {
    if file.Some? then file.value else []
  }

  /** Bytes on disk, line ends included. */
  function Size(lines: seq<Line>): nat {
    if lines == [] then 0 else Size(lines[..|lines| - 1]) + |lines[|lines| - 1]| + 1
  }

  /** A file as it stands on disk. */
  function FileText(lines: seq<Line>): string {
    if lines == [] then "" else FileText(lines[..|lines| - 1]) + lines[|lines| - 1] + "\n"
  }

  lemma {:induction false} SizeIsLength(lines: seq<Line>)
    ensures Size(lines) == |FileText(lines)|
  {
    if lines != [] {
      SizeIsLength(lines[..|lines| - 1]);
    }
  }

  function Rotated(fs: Files): Files {
    if fs[0].None? then fs else [None, fs[0], fs[1], fs[2]]
  }

  function Grown(fs: Files, line: Line): Files {
    fs[0 := Some(Content(fs[0]) + [line])]
  }

  /** One line written, and the log rolled when it has grown too large. */
  function Appended(fs: Files, line: Line): Files {
    var grown := Grown(fs, line);
    if Size(Content(grown[0])) > MaxFileSize then Rotated(grown) else grown
  }

  /** The files after a history of lines, from an empty directory. */
  function After(history: seq<Line>): Files {
    if history == [] then NoFiles
    else Appended(After(history[..|history| - 1]), history[|history| - 1])
  }

  /** What is on disk, oldest first. */
  function Retained(fs: Files): seq<Line> {
    Content(fs[3]) + Content(fs[2]) + Content(fs[1]) + Content(fs[0])
  }

  predicate Large(file: Option<seq<Line>>) {
    Size(Content(file)) > 10_485_760
  }

  /** Every rotated generation is over the limit, and they are in use in order. */
  predicate Shape(fs: Files) {
    && (fs[1].Some? ==> Large(fs[1])) && (fs[2].Some? ==> Large(fs[2])) && (fs[3].Some? ==> Large(fs[3]))
    && (fs[2].Some? ==> fs[1].Some?) && (fs[3].Some? ==> fs[2].Some?)
  }

  /**
   * The disk holds the history from line `n` on; the active file is within the
   * limit; lines are gone only once all three generations are in use.
   */
  ghost predicate Kept(fs: Files, history: seq<Line>, n: nat) {
    && Shape(fs) && !Large(fs[0])
    && n <= |history| && Retained(fs) == history[n..]
    && (n > 0 ==> fs[3].Some?)
  }

  /** A roll drops exactly the oldest generation. */
  lemma RotateRetains(fs: Files)
    requires fs[0].Some?
    ensures Retained(fs) == Content(fs[3]) + Retained(Rotated(fs))
  {
    Reorder(Content(fs[3]), Content(fs[2]), Content(fs[1]), Content(fs[0]));
  }

  lemma Reorder(a: seq<Line>, b: seq<Line>, c: seq<Line>, d: seq<Line>)
    ensures a + b + c + d == a + (b + c + d + [])
  {
  }

  lemma GrowRetains(fs: Files, line: Line)
    ensures Retained(Grown(fs, line)) == Retained(fs) + [line]
  {
    var older := Content(fs[3]) + Content(fs[2]) + Content(fs[1]);
    assert older + (Content(fs[0]) + [line]) == older + Content(fs[0]) + [line];
  }

  lemma SuffixGrows(history: seq<Line>, n: nat, line: Line)
    requires n <= |history|
    ensures history[n..] + [line] == (history + [line])[n..]
  {
  }

  lemma SuffixShrinks(h: seq<Line>, n: nat, gone: seq<Line>, left: seq<Line>)
    requires n <= |h| && h[n..] == gone + left
    ensures n + |gone| <= |h| && left == h[n + |gone|..]
  {
    assert left == h[n..][|gone|..];
  }

  lemma RollKeeps(grown: Files, h: seq<Line>, n: nat) returns (m: nat)
    requires Shape(grown) && grown[0].Some? && Large(grown[0])
    requires n <= |h| && Retained(grown) == h[n..]
    requires n > 0 ==> grown[3].Some?
    ensures Kept(Rotated(grown), h, m) && n <= m
  {
    RotateRetains(grown);
    var gone, next := Content(grown[3]), Rotated(grown);
    m := n + |gone|;
    SuffixShrinks(h, n, gone, Retained(next));
    assert Content(next[0]) == [];
  }

  lemma AppendKeeps(fs: Files, history: seq<Line>, n: nat, line: Line)
      returns (m: nat)
    requires Kept(fs, history, n)
    ensures Kept(Appended(fs, line), history + [line], m)
    ensures n <= m
  {
    var grown := Grown(fs, line);
    GrowRetains(fs, line);
    SuffixGrows(history, n, line);
    assert Shape(grown);
    if Large(grown[0]) {
      m := RollKeeps(grown, history + [line], n);
    } else {
      m := n;
    }
  }

  lemma AfterSnoc(history: seq<Line>, line: Line)
    ensures After(history + [line]) == Appended(After(history), line)
  {
    assert (history + [line])[..|history|] == history;
  }

  lemma NothingYet()
    ensures Kept(After([]), [], 0)
  {
  }

  // `== true` here keeps the verifier from proving Kept clause by clause again.
  lemma ExtendKept(before: seq<Line>, line: Line, m: nat, history: seq<Line>) returns (n: nat)
    requires Kept(After(before), before, m) && history == before + [line]
    ensures Kept(After(history), history, n) == true
  {
    n := AppendKeeps(After(before), before, m, line);
    AfterSnoc(before, line);
  }

  /** After any history the disk holds a suffix of it, within the bounds above. */
  lemma {:induction false} RetainedIsSuffix(history: seq<Line>) returns (n: nat)
    ensures Kept(After(history), history, n) == true
    decreases |history|
  {
    if history == [] {
      n := 0;
      NothingYet();
    } else {
      var before, line := history[..|history| - 1], history[|history| - 1];
      var m := RetainedIsSuffix(before);
      n := ExtendKept(before, line, m, history);
    }
  }

  lemma {:induction false} SizeAppend(a: seq<Line>, b: seq<Line>)
    ensures Size(a + b) == Size(a) + Size(b)
  {
    if b == [] {
      assert a + b == a;
    } else {
      SizeAppend(a, b[..|b| - 1]);
      assert (a + b)[..|a + b| - 1] == a + b[..|b| - 1];
    }
  }

  /** Lines are dropped only while more than three full files stay behind. */
  lemma DroppedOnlyWhenLarge(fs: Files, history: seq<Line>, n: nat)
    requires Kept(fs, history, n) && n > 0
    ensures Size(history[n..]) > 31_457_280
  {
    SizeAppend(Content(fs[3]), Content(fs[2]));
    SizeAppend(Content(fs[3]) + Content(fs[2]), Content(fs[1]));
    SizeAppend(Content(fs[3]) + Content(fs[2]) + Content(fs[1]), Content(fs[0]));
  }

  // ---------- The log as it is written and replayed ----------

  class AuditLog {
    var files: Files

    constructor ()
      ensures files == NoFiles
    {
      files := NoFiles;
    }

    /** Shifts each generation up by one, dropping the oldest; does nothing without an active file. */
    method RotateAuditLog()
      modifies this
      ensures files == Rotated(old(files))
    {
      if files[0].None? {
        return;
      }
      files := files[KeepRotated := None];
      var i := KeepRotated - 1;
      while i >= 1
        invariant 0 <= i <= 2 && files[i + 1].None?
        invariant forall j :: 0 <= j <= i ==> files[j] == old(files)[j]
        invariant forall j :: i + 2 <= j <= 3 ==> files[j] == old(files)[j - 1]
      {
        if files[i].Some? {
          files := files[i + 1 := files[i]][i := None];
        }
        i := i - 1;
      }
      files := files[1 := files[0]][0 := None];
    }

    method AppendAuditLine(line: Line)
      modifies this
      ensures files == Appended(old(files), line)
    {
      files := files[0 := Some(Content(files[0]) + [line])];
      if Size(Content(files[0])) > MaxFileSize {
        RotateAuditLog();
      }
    }
  }

  /** The lines the replay gets out of file `i`. */
  function PartRead(fs: Files, reader: nat -> seq<Chunk>, failed: nat -> bool, i: nat): seq<Line>
    requires i < 4
  {
    if fs[i].Some? then Lines(reader(i), failed(i)) else []
  }

  /** The parts of the `k` oldest generations, oldest first. */
  function Oldest<T>(parts: seq<seq<T>>, k: nat): seq<T>
    requires |parts| == 4 && k <= 4
  {
    if k == 0 then [] else Oldest(parts, k - 1) + parts[4 - k]
  }

  function Parts(fs: Files, reader: nat -> seq<Chunk>, failed: nat -> bool): (parts: seq<seq<Line>>)
    ensures |parts| == 4
    ensures forall i: nat :: i < 4 ==> parts[i] == PartRead(fs, reader, failed, i)
  {
    [PartRead(fs, reader, failed, 0), PartRead(fs, reader, failed, 1),
     PartRead(fs, reader, failed, 2), PartRead(fs, reader, failed, 3)]
  }

  /** Everything the replay reads, oldest first. */
  function LinesRead(fs: Files, reader: nat -> seq<Chunk>, failed: nat -> bool): seq<Line> {
    Oldest(Parts(fs, reader, failed), 4)
  }

  ghost function EntriesOfParts<E>(decode: string -> Option<E>, parts: seq<seq<Line>>): seq<seq<E>> {
    seq(|parts|, i requires 0 <= i < |parts| => Entries(decode, parts[i]))
  }

  lemma {:induction false} OldestEntries<E>(decode: string -> Option<E>, parts: seq<seq<Line>>, k: nat)
    requires |parts| == 4 && k <= 4
    ensures Oldest(EntriesOfParts(decode, parts), k) == Entries(decode, Oldest(parts, k))
  {
    if k > 0 {
      OldestEntries(decode, parts, k - 1);
      EntriesAppend(decode, Oldest(parts, k - 1), parts[4 - k]);
    }
  }

  /** `got` lists what each generation contributes. */
  ghost predicate Contributes<E>(fs: Files, decode: string -> Option<E>, reader: nat -> seq<Chunk>,
                                 failed: nat -> bool, got: seq<seq<E>>)
  {
    && |got| == 4
    && forall i: nat {:trigger PartRead(fs, reader, failed, i)} ::
         i < 4 ==> got[i] == Entries(decode, PartRead(fs, reader, failed, i))
  }

  /** One generation; a missing file is no error. */
  method ReadGeneration<E>(fs: Files, decode: string -> Option<E>, reader: nat -> seq<Chunk>,
                           failed: nat -> bool, i: nat, tail: seq<E>, ghost seen: seq<E>, ghost got: seq<seq<E>>)
      returns (next: seq<E>, good: bool)
    requires i < 4 && tail == Last(seen, MaxEntries)
    requires Contributes(fs, decode, reader, failed, got)
    ensures next == Last(seen + got[i], MaxEntries)
    ensures good <==> fs[i].None? || !failed(i)
  {
    ghost var part := PartRead(fs, reader, failed, i);
    if fs[i].None? {
      assert seen + Entries(decode, []) == seen;
      return tail, true;
    }
    next, good := ReadAuditLines(decode, reader(i), failed(i), tail, seen);
  }

  /** None of the `k` oldest generations failed to read. */
  predicate Sound(fs: Files, failed: nat -> bool, k: nat)
    requires k <= 4
  {
    k == 0 || (Sound(fs, failed, k - 1) && (fs[4 - k].None? || !failed(4 - k)))
  }

  /** The tail over all generations, oldest first. */
  method ReadGenerations<E>(fs: Files, decode: string -> Option<E>,
                            reader: nat -> seq<Chunk>, failed: nat -> bool, ghost got: seq<seq<E>>)
      returns (tail: seq<E>, ok: bool)
    requires Contributes(fs, decode, reader, failed, got)
    ensures tail == Last(Oldest(got, |got|), MaxEntries)
    ensures ok <==> Sound(fs, failed, |got|)
  {
    tail, ok := [], true;
    ghost var k := 0;
    var i: int := KeepRotated;
    while i >= 0
      invariant 0 <= k <= 4 && i == 3 - k
      invariant tail == Last(Oldest(got, k), MaxEntries)
      invariant ok <==> Sound(fs, failed, k)
    {
      var good;
      tail, good := ReadGeneration(fs, decode, reader, failed, i, tail, Oldest(got, k), got);
      ok := ok && good;
      i, k := i - 1, k + 1;
    }
  }

  /**
   * Reads the generations and seeds the ring with the tail. A file that fails
   * to read costs its own unread lines and no others.
   */
  method LoadAuditLog<E(0)>(fs: Files, decode: string -> Option<E>,
                            reader: nat -> seq<Chunk>, failed: nat -> bool)
      returns (ring: RingBuffer<E>, ok: bool)
    ensures fresh(ring) && fresh(ring.entries) && ring.Valid() && ring.cap == MaxEntries
    ensures ring.log == Last(Entries(decode, LinesRead(fs, reader, failed)), MaxEntries)
    ensures ok <==> Sound(fs, failed, 4)
  {
    ghost var parts := Parts(fs, reader, failed);
    OldestEntries(decode, parts, 4);
    var tail;
    tail, ok := ReadGenerations(fs, decode, reader, failed, EntriesOfParts(decode, parts));
    ring := new RingBuffer(MaxEntries);
    ring.Seed(tail);
    LastOfLast(Entries(decode, LinesRead(fs, reader, failed)), MaxEntries, MaxEntries);
  }

  /** Start-up followed by a look at the trail. */
  method Replay<E(0)>(fs: Files, decode: string -> Option<E>,
                      reader: nat -> seq<Chunk>, failed: nat -> bool)
      returns (trail: seq<E>)
    ensures trail == Last(Entries(decode, LinesRead(fs, reader, failed)), 500)
  {
    var ring, ok := LoadAuditLog(fs, decode, reader, failed);
    trail := ring.Snapshot();
    LastOfLast(Entries(decode, LinesRead(fs, reader, failed)), MaxEntries, MaxEntries);
  }

  // ---------- The replay shows the recent history ----------

  /** Every present file is read to its end. */
  ghost predicate ReadsAll(fs: Files, reader: nat -> seq<Chunk>, failed: nat -> bool) {
    forall i: nat :: i < 4 && fs[i].Some? ==> !failed(i) && Lines(reader(i), false) == fs[i].value
  }

  lemma AllIsRead(fs: Files, reader: nat -> seq<Chunk>, failed: nat -> bool)
    requires ReadsAll(fs, reader, failed)
    ensures LinesRead(fs, reader, failed) == Retained(fs)
  {
    var parts := Parts(fs, reader, failed);
    forall i: nat | i < 4 ensures parts[i] == Content(fs[i]) {
    }
    assert Oldest(parts, 1) == parts[3];
    assert Oldest(parts, 2) == parts[3] + parts[2];
    assert Oldest(parts, 3) == parts[3] + parts[2] + parts[1];
  }

  /** Encoding an entry as one line can be undone. */
  ghost predicate Codec<E(!new)>(encode: E -> string, decode: string -> Option<E>) {
    forall e :: encode(e) != "" && Trim(encode(e), IsSpace) == encode(e) && decode(encode(e)) == Some(e)
  }

  function Encoded<E>(encode: E -> string, es: seq<E>): (lines: seq<Line>)
    ensures |lines| == |es|
    ensures forall i :: 0 <= i < |es| ==> lines[i] == encode(es[i])
  {
    if es == [] then [] else Encoded(encode, es[..|es| - 1]) + [encode(es[|es| - 1])]
  }

  /** The entries whose line is short enough to be read back. */
  function Readable<E>(encode: E -> string, es: seq<E>): seq<E> {
    if es == [] then []
    else
      Readable(encode, es[..|es| - 1])
      + (if |encode(es[|es| - 1])| <= 1_048_576 then [es[|es| - 1]] else [])
  }

  lemma {:induction false} EntriesOfEncoded<E(!new)>(encode: E -> string, decode: string -> Option<E>, es: seq<E>)
    requires Codec(encode, decode)
    ensures Entries(decode, Encoded(encode, es)) == Readable(encode, es)
  {
    if es != [] {
      var e := es[|es| - 1];
      EntriesOfEncoded(encode, decode, es[..|es| - 1]);
      var lines := Encoded(encode, es);
      assert lines[..|lines| - 1] == Encoded(encode, es[..|es| - 1]);
      assert lines[|lines| - 1] == encode(e);
    }
  }

  /**
   * Whatever was appended and however often the log rolled, the trail after a
   * restart is, in order, the last 500 readable entries of a suffix of the
   * history, the part still on disk.
   */
  lemma ReplayShowsRecentHistory<E(!new)>(encode: E -> string, decode: string -> Option<E>, es: seq<E>,
                                          reader: nat -> seq<Chunk>, failed: nat -> bool)
      returns (n: nat)
    requires Codec(encode, decode)
    requires ReadsAll(After(Encoded(encode, es)), reader, failed)
    ensures n <= |es| && Kept(After(Encoded(encode, es)), Encoded(encode, es), n)
    ensures Last(Entries(decode, LinesRead(After(Encoded(encode, es)), reader, failed)), MaxEntries)
            == Last(Readable(encode, es[n..]), 500)
  {
    var lines := Encoded(encode, es);
    n := RetainedIsSuffix(lines);
    AllIsRead(After(lines), reader, failed);
    assert lines[n..] == Encoded(encode, es[n..]);
    EntriesOfEncoded(encode, decode, es[n..]);
  }

  lemma {:induction false} ShortEntriesAreReadable<E>(encode: E -> string, es: seq<E>)
    requires forall i :: 0 <= i < |es| ==> |encode(es[i])| <= MaxLine
    ensures Readable(encode, es) == es
  {
    if es != [] {
      ShortEntriesAreReadable(encode, es[..|es| - 1]);
      assert es == es[..|es| - 1] + [es[|es| - 1]];
    }
  }
}

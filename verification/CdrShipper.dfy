/**
 * The edge agent's CDR shipping: rows of an append-only file are posted to
 * central from a byte offset on, and the offset is kept in a state file that
 * survives crashes. Posts and saves may fail, and a post may fail after it has
 * been received.
 */
module CdrShipper {
  import opened Common

  // ----- lines of a file -----

  /** White space as Unicode counts it. */
  predicate IsSpace(c: char) {
    var n := c as int;
    || 9 <= n <= 13 || n == 32 || n == 0x85 || n == 0xA0 || n == 0x1680 || 0x2000 <= n <= 0x200A
    || n == 0x2028 || n == 0x2029 || n == 0x202F || n == 0x205F || n == 0x3000
  }

  predicate Blank(line: string) {
    forall i :: 0 <= i < |line| ==> IsSpace(line[i])
  }

  /** One more character after the pieces: a line feed opens a new piece, anything else extends the last. */
  function Extended(pieces: seq<string>, c: char): (more: seq<string>)
    requires |pieces| >= 1
    ensures |more| >= 1
  {
    if c == '\n' then pieces + [""]
    else pieces[..|pieces| - 1] + [pieces[|pieces| - 1] + [c]]
  }

  /** The pieces between line feeds; there is always a last piece, possibly empty. */
  function Split(text: string): (pieces: seq<string>)
    ensures |pieces| >= 1
  {
    if text == "" then [""] else Extended(Split(text[..|text| - 1]), text[|text| - 1])
  }

  function NotBlank(lines: seq<string>): seq<string> {
    if lines == [] then []
    else
      var n := |lines| - 1;
      NotBlank(lines[..n]) + (if Blank(lines[n]) then [] else [lines[n]])
  }

  /** The rows of a text: its lines that are not blank. */
  function Rows(text: string): seq<string> {
    NotBlank(Split(text))
  }

  function Last(text: string): string {
    var pieces := Split(text);
    pieces[|pieces| - 1]
  }

  function First(text: string): string {
    Split(text)[0]
  }

  /** Two lists of pieces, with the last of one and the first of the other joined. */
  function Glued(x: seq<string>, y: seq<string>): (z: seq<string>)
    requires |x| >= 1 && |y| >= 1
    ensures |z| >= 1
  {
    x[..|x| - 1] + [x[|x| - 1] + y[0]] + y[1..]
  }

  lemma ExtendGlued(x: seq<string>, y: seq<string>, c: char)
    requires |x| >= 1 && |y| >= 1
    ensures Extended(Glued(x, y), c) == Glued(x, Extended(y, c))
  {
    var u, v := Extended(Glued(x, y), c), Glued(x, Extended(y, c));
    assert |u| == |v|;
    if c != '\n' && |y| == 1 {
      assert (x[|x| - 1] + y[0]) + [c] == x[|x| - 1] + (y[0] + [c]);
    }
    forall i | 0 <= i < |u| ensures u[i] == v[i] {
    }
  }

  /** Splitting a text at any point: the two pieces at the cut are one. */
  lemma {:induction false} SplitConcat(a: string, b: string)
    ensures Split(a + b) == Glued(Split(a), Split(b))
  {
    if b == "" {
      var x := Split(a);
      assert a + b == a && x[|x| - 1] + "" == x[|x| - 1];
    } else {
      var n := |b| - 1;
      SplitConcat(a, b[..n]);
      assert (a + b)[..|a + b| - 1] == a + b[..n];
      ExtendGlued(Split(a), Split(b[..n]), b[n]);
    }
  }

  lemma {:induction false} NotBlankConcat(a: seq<string>, b: seq<string>)
    ensures NotBlank(a + b) == NotBlank(a) + NotBlank(b)
  {
    if b == [] {
      assert a + b == a;
    } else {
      var n := |b| - 1;
      NotBlankConcat(a, b[..n]);
      assert (a + b)[..|a + b| - 1] == a + b[..n];
    }
  }

  lemma BlankConcat(a: string, b: string)
    ensures Blank(a + b) <==> Blank(a) && Blank(b)
  {
    assert Blank(a + b) ==> (forall i :: 0 <= i < |a| ==> a[i] == (a + b)[i]) && (forall i :: 0 <= i < |b| ==> b[i] == (a + b)[|a| + i]);
  }

  /** The rows around a cut, with what the cut makes of the piece it falls into. */
  lemma RowsAroundCut(x: seq<string>, y: seq<string>)
    requires |x| >= 1 && |y| >= 1
    ensures var left, right := NotBlank(x[..|x| - 1]), NotBlank(y[1..]);
      && NotBlank(x) == left + NotBlank([x[|x| - 1]])
      && NotBlank(y) == NotBlank([y[0]]) + right
      && NotBlank(Glued(x, y)) == left + NotBlank([x[|x| - 1] + y[0]]) + right
  {
    var init, t, h, rest := x[..|x| - 1], x[|x| - 1], y[0], y[1..];
    assert x == init + [t] && y == [h] + rest;
    NotBlankConcat(init, [t]);
    NotBlankConcat([h], rest);
    NotBlankConcat(init, [t + h]);
    NotBlankConcat(init + [t + h], rest);
  }

  lemma MiddleIff(left: seq<string>, m: seq<string>, t: seq<string>, h: seq<string>, right: seq<string>)
    ensures left + m + right == (left + t) + (h + right) <==> m == t + h
  {
    var x, y := left + m + right, left + (t + h) + right;
    assert (left + t) + (h + right) == y;
    if x == y {
      assert |m| == |t + h|;
      assert m == x[|left|..|left| + |m|] && t + h == y[|left|..|left| + |t + h|];
    }
  }

  lemma OneLine(line: string)
    ensures NotBlank([line]) == if Blank(line) then [] else [line]
  {
    assert [line][..0] == [];
  }

  /** When one piece and two pieces amount to the same rows. */
  lemma OnePieceOrTwo(t: string, h: string)
    ensures NotBlank([t + h]) == NotBlank([t]) + NotBlank([h])
      <==> t == "" || h == "" || (Blank(t) && Blank(h))
  {
    BlankConcat(t, h);
    assert t + "" == t && "" + h == h;
    assert NotBlank([t]) == if Blank(t) then [] else [t];
    assert NotBlank([h]) == if Blank(h) then [] else [h];
    assert NotBlank([t + h]) == if Blank(t + h) then [] else [t + h];
    assert |t + h| == |t| + |h|;
  }

  lemma GluedRowsIff(x: seq<string>, y: seq<string>)
    requires |x| >= 1 && |y| >= 1
    ensures NotBlank(Glued(x, y)) == NotBlank(x) + NotBlank(y)
      <==> x[|x| - 1] == "" || y[0] == "" || (Blank(x[|x| - 1]) && Blank(y[0]))
  {
    RowsAroundCut(x, y);
    OnePieceOrTwo(x[|x| - 1], y[0]);
    MiddleIff(NotBlank(x[..|x| - 1]), NotBlank([x[|x| - 1] + y[0]]), NotBlank([x[|x| - 1]]), NotBlank([y[0]]), NotBlank(y[1..]));
  }

  /**
   * Shipping a text in two parts ships exactly its rows if and only if the cut
   * does not fall inside a line: one of the two pieces at the cut is empty, or
   * both are blank.
   */
  lemma ShippedInPartsIff(a: string, b: string)
    ensures Rows(a + b) == Rows(a) + Rows(b)
      <==> Last(a) == "" || First(b) == "" || (Blank(Last(a)) && Blank(First(b)))
  {
    SplitConcat(a, b);
    GluedRowsIff(Split(a), Split(b));
  }

  // ----- what a row is -----

  lemma {:induction false} OneUnbrokenPiece(line: string)
    requires '\n' !in line
    ensures Split(line) == [line]
  {
    if line != "" {
      OneUnbrokenPiece(line[..|line| - 1]);
      assert line == line[..|line| - 1] + [line[|line| - 1]];
    }
  }

  lemma LineThenBreak(line: string)
    requires '\n' !in line
    ensures Rows(line + "\n") == NotBlank([line])
  {
    OneUnbrokenPiece(line);
    assert (line + "\n")[..|line|] == line;
    assert Split(line + "\n") == [line, ""];
    assert [line, ""] == [line] + [""];
    NotBlankConcat([line], [""]);
    OneLine("");
  }

  /** A line with any visible ASCII character is a row, and is shipped as it is. */
  lemma VisibleLineIsARow(line: string, i: nat)
    requires '\n' !in line && i < |line| && '!' <= line[i] <= '~'
    ensures Rows(line + "\n") == [line]
  {
    LineThenBreak(line);
    OneLine(line);
    assert !IsSpace(line[i]);
  }

  /** A line of spaces, tabs and carriage returns is none. */
  lemma BlankLineIsNoRow(line: string)
    requires forall i :: 0 <= i < |line| ==> line[i] in {' ', '\t', '\r'}
    ensures Rows(line + "\n") == []
  {
    LineThenBreak(line);
    OneLine(line);
  }

  lemma LeftPart(left: seq<string>, m: seq<string>, t: seq<string>, right: seq<string>)
    ensures left + m + right == left + t <==> m + right == t
  {
    var x, y := left + m + right, left + t;
    assert x == left + (m + right);
    if x == y {
      assert m + right == x[|left|..] && t == y[|left|..];
    }
  }

  lemma GluedCutOffIff(x: seq<string>, y: seq<string>)
    requires |x| >= 1 && |y| >= 1
    ensures NotBlank(Glued(x, y)) == NotBlank(x) <==> NotBlank(y) == [] && (y[0] == "" || Blank(x[|x| - 1]))
  {
    RowsAroundCut(x, y);
    var t, h := x[|x| - 1], y[0];
    LeftPart(NotBlank(x[..|x| - 1]), NotBlank([t + h]), NotBlank([t]), NotBlank(y[1..]));
    BlankConcat(t, h);
    OneLine(t);
    OneLine(h);
    OneLine(t + h);
    assert |t + h| == |t| + |h| && (h == "" ==> t + h == t);
  }

  /**
   * Dropping the end of a text drops no row if and only if there is none in it
   * and the cut does not fall inside one.
   */
  lemma CutOffIff(a: string, b: string)
    ensures Rows(a + b) == Rows(a) <==> Rows(b) == [] && (First(b) == "" || Blank(Last(a)))
  {
    SplitConcat(a, b);
    GluedCutOffIff(Split(a), Split(b));
  }

  /** The text is empty or ends with a line feed. */
  predicate WholeLines(text: string) {
    text == "" || text[|text| - 1] == '\n'
  }

  lemma WholeLinesConcat(a: string, b: string)
    requires WholeLines(a)
    ensures Rows(a + b) == Rows(a) + Rows(b)
    ensures WholeLines(b) ==> WholeLines(a + b)
  {
    assert Last(a) == "";
    ShippedInPartsIff(a, b);
  }

  // ----- shipping -----

  /** The file cannot be examined, cannot be opened, is read whole, or is read only so far. */
  datatype Read = Missing | Unopened | Whole | Short(n: nat)

  /** A post is received and confirmed, received without the agent learning of it, or not received. */
  datatype Post = Confirmed | Unconfirmed | NotReceived

  /** A save succeeds, leaves the state file as it was, or leaves it unreadable (which loads as zero). */
  datatype Save = Saved | NotSaved | Corrupted

  /** `offset` is in memory, `saved` is what a restart would load, `received` is what central has, in order. */
  datatype State = State(offset: nat, saved: nat, received: seq<string>)

  function AfterSave(s: State, save: Save): State {
    match save
    case Saved => s.(saved := s.offset)
    case NotSaved => s
    case Corrupted => s.(saved := 0)
  }

  /** What was read of the text. */
  function Got(text: string, read: Read): string {
    if read.Short? && read.n < |text| then text[..read.n] else text
  }

  /** Posting the rows found up to `size`, and moving the offset there unless the post fails. */
  function Posted(s: State, rows: seq<string>, size: nat, post: Post, save: Save): State {
    var posted := if rows != [] && !post.NotReceived? then s.(received := s.received + rows) else s;
    if rows != [] && !post.Confirmed? then posted else AfterSave(posted.(offset := size), save)
  }

  function Flushed(s: State, file: string, read: Read, post: Post, save: Save): State {
    var from := if |file| < s.offset then 0 else s.offset;
    if read.Missing? then s
    else if |file| == from || read.Unopened? then s.(offset := from)
    else Posted(s.(offset := from), Rows(Got(file[from..], read)), |file|, post, save)
  }

  class EdgeAgent {
    var cdrOffset: nat
    var stateFile: nat
    var central: seq<string>

    ghost function Model(): State
      reads this
    {
      State(cdrOffset, stateFile, central)
    }

    constructor ()
      ensures Model() == State(0, 0, [])
    {
      cdrOffset, stateFile, central := 0, 0, [];
    }

    method SaveState(save: Save)
      modifies this`stateFile
      ensures Model() == AfterSave(old(Model()), save)
    {
      match save
      case Saved => stateFile := cdrOffset;
      case NotSaved =>
      case Corrupted => stateFile := 0;
    }

    /** The loop over the lines that were read. */
    method CollectRows(lines: seq<string>) returns (rows: seq<string>)
      ensures rows == NotBlank(lines)
    {
      rows := [];
      for i := 0 to |lines|
        invariant rows == NotBlank(lines[..i])
      {
        assert lines[..i + 1][..i] == lines[..i];
        if !Blank(lines[i]) {
          rows := rows + [lines[i]];
        }
      }
      assert lines[..|lines|] == lines;
    }

    method FlushCDR(file: string, read: Read, post: Post, save: Save)
      modifies this
      ensures Model() == Flushed(old(Model()), file, read, post, save)
    {
      if read.Missing? {
        return;
      }
      if |file| < cdrOffset {
        cdrOffset := 0;
      }
      if |file| == cdrOffset {
        return;
      }
      if read.Unopened? {
        return;
      }
      var text := Got(file[cdrOffset..], read);
      var rows := CollectRows(Split(text));
      assert rows == Rows(text);
      if |rows| > 0 {
        if !post.NotReceived? {
          central := central + rows;
        }
        if !post.Confirmed? {
          return;
        }
      }
      cdrOffset := |file|;
      SaveState(save);
    }

    /** A crash and restart: the state file is read again. */
    method Restart()
      modifies this`cdrOffset
      ensures Model() == old(Model()).(offset := old(stateFile))
    {
      cdrOffset := stateFile;
    }
  }

  // ----- whole runs -----

  /** `Persist` is any other save of the agent's state, such as the one after a voicemail upload. */
  datatype Event =
    | Append(text: string)
    | Flush(read: Read, post: Post, save: Save)
    | Persist(save: Save)
    | Crash

  /** The file so far: the writer appends, nothing else touches it. */
  ghost function File(run: Run<Event>): string {
    match run
    case Start => ""
    case Then(before, Append(text)) => File(before) + text
    case Then(before, _) => File(before)
  }

  ghost function After(run: Run<Event>): State {
    match run
    case Start => State(0, 0, [])
    case Then(before, Append(_)) => After(before)
    case Then(before, Flush(read, post, save)) => Flushed(After(before), File(before), read, post, save)
    case Then(before, Persist(save)) => AfterSave(After(before), save)
    case Then(before, Crash) => After(before).(offset := After(before).saved)
  }

  /** Every append is made of whole lines. */
  ghost predicate WholeAppends(run: Run<Event>) {
    run.Then? ==> WholeAppends(run.before) && (run.last.Append? ==> WholeLines(run.last.text))
  }

  /** No flush reads only a part of what there is. */
  ghost predicate WholeReads(run: Run<Event>) {
    run.Then? ==> WholeReads(run.before) && !(run.last.Flush? && run.last.read.Short?)
  }

  /** Both offsets stand at line ends, the saved one not ahead, and everything before them has arrived, in order. */
  ghost predicate Safe(s: State, file: string) {
    && WholeLines(file)
    && s.saved <= s.offset <= |file|
    && WholeLines(file[..s.offset]) && WholeLines(file[..s.saved])
    && Subsequence(Rows(file[..s.offset]), s.received)
  }

  /** Rows before an earlier line end are a prefix of the rows before a later one. */
  lemma RowsPrefix(file: string, a: nat, b: nat)
    requires a <= b <= |file| && WholeLines(file[..a])
    ensures Rows(file[..a]) <= Rows(file[..b])
  {
    assert file[..b] == file[..a] + file[a..b];
    WholeLinesConcat(file[..a], file[a..b]);
  }

  lemma SafeAfterRestart(s: State, file: string)
    requires Safe(s, file)
    ensures Safe(s.(offset := s.saved), file)
  {
    RowsPrefix(file, s.saved, s.offset);
    var all := Rows(file[..s.offset]);
    SubsequencePrefix(all, s.received, |Rows(file[..s.saved])|);
    assert all[..|Rows(file[..s.saved])|] == Rows(file[..s.saved]);
  }

  /** What one post does for the rows before and after the offset. */
  lemma PostedRows(s: State, file: string)
    requires Safe(s, file)
    ensures var rows := Rows(file[s.offset..]);
      && Subsequence(Rows(file), s.received + rows)
      && Subsequence(Rows(file[..s.offset]), s.received + rows)
      && (rows == [] ==> Rows(file) == Rows(file[..s.offset]))
  {
    var tail := file[s.offset..];
    assert file == file[..s.offset] + tail;
    WholeLinesConcat(file[..s.offset], tail);
    SubsequenceGrow(Rows(file[..s.offset]), s.received, Rows(tail));
    SubsequenceAppend(Rows(file[..s.offset]), s.received, Rows(tail));
  }

  lemma SafeAfterSave(s: State, file: string, save: Save)
    requires Safe(s, file)
    ensures Safe(AfterSave(s, save), file)
  {
    assert file[..0] == "";
  }

  lemma SafeAfterPost(s: State, file: string, rows: seq<string>, post: Post, save: Save)
    requires Safe(s, file)
    requires Subsequence(Rows(file), s.received + rows) && Subsequence(Rows(file[..s.offset]), s.received + rows)
    requires rows == [] ==> Rows(file) == Rows(file[..s.offset])
    ensures Safe(Posted(s, rows, |file|, post, save), file)
  {
    if rows == [] || post.Confirmed? {
      assert file[..|file|] == file;
      var posted := if rows != [] then s.(received := s.received + rows) else s;
      SafeAfterSave(posted.(offset := |file|), file, save);
    }
  }

  lemma SafeAfterFlush(s: State, file: string, read: Read, post: Post, save: Save)
    requires Safe(s, file) && !read.Short?
    ensures Safe(Flushed(s, file, read, post, save), file)
  {
    PostedRows(s, file);
    SafeAfterPost(s, file, Rows(file[s.offset..]), post, save);
  }

  lemma SafeAfterAppend(s: State, file: string, text: string)
    requires Safe(s, file) && WholeLines(text)
    ensures Safe(s, file + text)
  {
    WholeLinesConcat(file, text);
    assert (file + text)[..s.offset] == file[..s.offset] && (file + text)[..s.saved] == file[..s.saved];
  }

  /**
   * No row is ever lost: on every run, whatever posts and saves fail and
   * whenever the agent crashes, all rows before the offset have been received
   * by central, in the order of the file.
   */
  lemma {:induction false} NoRowLost(run: Run<Event>)
    requires WholeAppends(run) && WholeReads(run)
    ensures Safe(After(run), File(run))
  {
    match run
    case Start =>
    case Then(before, Append(text)) =>
      NoRowLost(before);
      SafeAfterAppend(After(before), File(before), text);
    case Then(before, Flush(read, post, save)) =>
      NoRowLost(before);
      SafeAfterFlush(After(before), File(before), read, post, save);
    case Then(before, Persist(save)) =>
      NoRowLost(before);
      SafeAfterSave(After(before), File(before), save);
    case Then(before, Crash) =>
      NoRowLost(before);
      SafeAfterRestart(After(before), File(before));
  }

  /** No post failed and no crash happened. */
  ghost predicate Smooth(run: Run<Event>) {
    run.Then? ==> Smooth(run.before) && !run.last.Crash? && (run.last.Flush? ==> run.last.post.Confirmed?)
  }

  /** Central has every row before the offset exactly once, and nothing else. */
  ghost predicate Exact(s: State, file: string) {
    s.offset <= |file| && s.received == Rows(file[..s.offset])
  }

  lemma ExactAfterFlush(s: State, file: string, read: Read, save: Save)
    requires Safe(s, file) && Exact(s, file) && !read.Short?
    ensures Exact(Flushed(s, file, read, Confirmed, save), file)
  {
    assert file == file[..s.offset] + file[s.offset..] && file[..|file|] == file;
    WholeLinesConcat(file[..s.offset], file[s.offset..]);
  }

  lemma ExactAfterAppend(s: State, file: string, text: string)
    requires Exact(s, file)
    ensures Exact(s, file + text)
  {
    assert (file + text)[..s.offset] == file[..s.offset];
  }

  /** Without failed posts and crashes every row before the offset arrives exactly once. */
  lemma {:induction false} ExactlyOnce(run: Run<Event>)
    requires WholeAppends(run) && WholeReads(run) && Smooth(run)
    ensures Exact(After(run), File(run))
  {
    match run
    case Start =>
    case Then(before, Append(text)) =>
      ExactlyOnce(before);
      ExactAfterAppend(After(before), File(before), text);
    case Then(before, Flush(read, _, save)) =>
      ExactlyOnce(before);
      NoRowLost(before);
      ExactAfterFlush(After(before), File(before), read, save);
    case Then(before, Persist(_)) =>
      ExactlyOnce(before);
    case Then(_, Crash) =>
  }

  /** A confirmed flush leaves nothing unshipped. */
  lemma ConfirmedFlushCatchesUp(run: Run<Event>, save: Save)
    requires WholeAppends(run) && WholeReads(run)
    ensures var run' := Then(run, Flush(Whole, Confirmed, save)); After(run').offset == |File(run')|
  {
    NoRowLost(run);
  }

  lemma PostedShort(s: State, rows: seq<string>, size: nat, save: Save)
    ensures var after := Posted(s, rows, size, Confirmed, save);
      after.received == s.received + rows && after.offset == size
  {
  }

  /** What has been shipped and saved is not shipped again after a crash. */
  lemma {:induction false} SavedFlushSurvivesCrash(run: Run<Event>)
    requires WholeAppends(run) && WholeReads(run) && After(run).offset < |File(run)|
    ensures var run' := Then(Then(run, Flush(Whole, Confirmed, Saved)), Crash);
      After(run').offset == |File(run')|
  {
    var flushed := Then(run, Flush(Whole, Confirmed, Saved));
    assert After(flushed) == Flushed(After(run), File(run), Whole, Confirmed, Saved) && File(flushed) == File(run);
  }

  /** A file shorter than the offset has been replaced, and is shipped from its start. */
  lemma ReplacedFileFromStart(s: State, file: string, save: Save)
    requires |file| < s.offset
    ensures var after := Flushed(s, file, Whole, Confirmed, save);
      after.offset == |file| && after.received == s.received + Rows(file)
  {
    assert file[0..] == file;
    assert Rows("") == [] by {
      OneLine("");
    }
    if |file| == 0 {
      assert file == "" && s.received + [] == s.received;
    } else {
      PostedShort(s.(offset := 0), Rows(file), |file|, save);
    }
  }

  lemma TailOfWholeLines(file: string, n: nat)
    requires WholeLines(file) && n <= |file|
    ensures WholeLines(file[n..])
  {
  }

  lemma RowsOfTail(file: string, n: nat, line: string, i: nat)
    requires WholeLines(file) && n <= |file| && '\n' !in line && i < |line| && '!' <= line[i] <= '~'
    ensures Rows((file + (line + "\n"))[n..]) == Rows(file[n..]) + [line]
  {
    TailOfWholeLines(file, n);
    VisibleLineIsARow(line, i);
    WholeLinesConcat(file[n..], line + "\n");
    assert (file + (line + "\n"))[n..] == file[n..] + (line + "\n");
  }

  lemma LastPosted(s: State, rows: seq<string>, line: string, size: nat, save: Save)
    ensures var received := Posted(s, rows + [line], size, Confirmed, save).received;
      received != [] && received[|received| - 1] == line
  {
  }

  /** A confirmed flush of the whole file ends with this row. */
  ghost predicate Delivers(s: State, file: string, line: string, save: Save) {
    var received := Flushed(s, file, Whole, Confirmed, save).received;
    received != [] && received[|received| - 1] == line
  }

  lemma LineArrives(s: State, file: string, line: string, i: nat, save: Save)
    requires Safe(s, file) && '\n' !in line && i < |line| && '!' <= line[i] <= '~'
    ensures Delivers(s, file + (line + "\n"), line, save)
  {
    var all := file + (line + "\n");
    var rows := Rows(file[s.offset..]);
    RowsOfTail(file, s.offset, line, i);
    LastPosted(s, rows, line, |all|, save);
    assert Flushed(s, all, Whole, Confirmed, save) == Posted(s, rows + [line], |all|, Confirmed, save);
  }

  lemma {:induction false} LineArrivesAfter(run: Run<Event>, line: string, i: nat, save: Save)
    requires WholeAppends(run) && WholeReads(run)
    requires '\n' !in line && i < |line| && '!' <= line[i] <= '~'
    ensures Delivers(After(run), File(run) + (line + "\n"), line, save)
  {
    NoRowLost(run);
    LineArrives(After(run), File(run), line, i, save);
  }

  lemma {:induction false} AppendThenFlush(run: Run<Event>, text: string, save: Save)
    ensures After(Then(Then(run, Append(text)), Flush(Whole, Confirmed, save)))
         == Flushed(After(run), File(run) + text, Whole, Confirmed, save)
  {
    var appended := Then(run, Append(text));
    assert After(appended) == After(run) && File(appended) == File(run) + text;
  }

  /**
   * On every run a visible line that has been appended is, after a confirmed
   * flush, the last row that central has received.
   */
  lemma {:induction false} AppendedLineArrives(run: Run<Event>, line: string, i: nat, save: Save)
    requires WholeAppends(run) && WholeReads(run)
    requires '\n' !in line && i < |line| && '!' <= line[i] <= '~'
    ensures var run' := Then(Then(run, Append(line + "\n")), Flush(Whole, Confirmed, save));
      var received := After(run').received;
      received != [] && received[|received| - 1] == line
  {
    AppendThenFlush(run, line + "\n", save);
    LineArrivesAfter(run, line, i, save);
  }

  lemma SameEnds(a: seq<string>, x: seq<string>, y: seq<string>)
    ensures a + x == a + y <==> x == y
  {
    assert x == (a + x)[|a|..] && y == (a + y)[|a|..];
  }

  /**
   * The offset moves to the end of the file however little was read. A short
   * read that is posted and confirmed loses nothing if and only if what it left
   * unread holds no row and does not belong to the last line that was read.
   */
  lemma ShortReadIff(s: State, file: string, n: nat, save: Save)
    requires Safe(s, file) && Exact(s, file) && n < |file| - s.offset
    ensures var part, rest := file[s.offset..][..n], file[s.offset..][n..];
      Exact(Flushed(s, file, Short(n), Confirmed, save), file) <==>
      Rows(rest) == [] && (First(rest) == "" || Blank(Last(part)))
  {
    var tail := file[s.offset..];
    var part, rest := tail[..n], tail[n..];
    assert file == file[..s.offset] + tail && file[..|file|] == file && tail == part + rest;
    WholeLinesConcat(file[..s.offset], tail);
    CutOffIff(part, rest);
    SameEnds(Rows(file[..s.offset]), Rows(part), Rows(tail));
    PostedShort(s, Rows(part), |file|, save);
    assert Flushed(s, file, Short(n), Confirmed, save) == Posted(s, Rows(part), |file|, Confirmed, save);
  }
}

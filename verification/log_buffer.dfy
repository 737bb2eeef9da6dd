/**
 The formatting and append logic shared by the node's two log buffers: the
 self-log (`log`) and the listen-log (`log_listen`) differ only in which buffer
 they grow, so both are modelled by the one `Append` over an immutable `seq`.
 A buffer is append-only; each row is a severity tag, a timestamp and a message.
 */
module LogBuffer {
  import opened Options
  import opened CStrings
  import opened SeqFacts

  datatype LogLevel = Debug | Info | Warn | Error | Fatal

  /** Level name on the diagnostic stream (the `ROS_<NAME>_STREAM` macro each case uses). */
  function DiagnosticName(level: LogLevel): string {
    match level
    case Debug => "DEBUG"
    case Info => "INFO"
    case Warn => "WARN"
    case Error => "ERROR"
    case Fatal => "FATAL"
  }

  /** The tag written at the head of a row. `Warn` rows are tagged `[INFO]`. */
  function Tag(level: LogLevel): (t: string)
    ensures |t| > 2 && t[0] == '[' && t[|t| - 1] == ']'
    ensures forall i :: 0 <= i < |t| ==> t[i] != ' ' && t[i] != NUL
  {
    match level
    case Debug => "[DEBUG]"
    case Info => "[INFO]"
    case Warn => "[INFO]"
    case Error => "[ERROR]"
    case Fatal => "[FATAL]"
  }

  /**
   The tag is the bracketed diagnostic level for every level except `Warn`,
   which shares the `[INFO]` tag while its diagnostic output stays at warn level.
   */
  lemma TagQuirk(level: LogLevel)
    ensures Tag(level) == "[" + DiagnosticName(level) + "]" <==> level != Warn
    ensures level == Warn ==> Tag(level) == Tag(Info) && DiagnosticName(level) == "WARN"
  {
    if level == Warn {
      assert Tag(level)[1] != ("[" + DiagnosticName(level) + "]")[1];
    }
  }

  /** Two levels share a tag only when they are `Warn` and `Info`. */
  lemma TagCollisions(a: LogLevel, b: LogLevel)
    ensures Tag(a) == Tag(b) <==> a == b || {a, b} == {Info, Warn}
  {
    if Tag(a) == Tag(b) && a != b {
      assert Tag(a)[1] == Tag(b)[1];
    }
  }

  /** The row layout before C-string truncation. */
  function Compose(tag: string, ts: string, msg: string): string {
    tag + " [" + ts + "]: " + msg
  }

  /**
   The text of one new row: the tag, then the rest of the row as a C string
   would carry it, that is cut at its first NUL.
   */
  function FormatRow(level: LogLevel, ts: string, msg: string): (row: string)
    ensures NUL !in row
  {
    Tag(level) + " [" + CStr(ts + "]: " + msg)
  }

  /**
   The row is exactly what the node stores: the composed line passed through
   `c_str()`, which keeps it up to its first NUL.
   */
  lemma FormatRowIsCString(level: LogLevel, ts: string, msg: string)
    ensures FormatRow(level, ts, msg) == CStr(Compose(Tag(level), ts, msg))
  {
    var head := Tag(level) + " [";
    assert NUL !in head;
    assert Compose(Tag(level), ts, msg) == head + (ts + "]: " + msg);
    CStrAppend(head, ts + "]: " + msg);
  }

  /**
   With a NUL-free timestamp the row is tag, timestamp and the message up to its
   first NUL; with a NUL-free message too, the whole message ends the row.
   */
  lemma RowShape(level: LogLevel, ts: string, msg: string)
    requires NUL !in ts
    ensures FormatRow(level, ts, msg) == Compose(Tag(level), ts, CStr(msg))
    ensures NUL !in msg ==> FormatRow(level, ts, msg) == Compose(Tag(level), ts, msg)
    ensures NUL !in msg ==> var row := FormatRow(level, ts, msg);
      |row| >= |msg| && row[|row| - |msg|..] == msg
  {
    var head := Tag(level) + " [";
    var mid := ts + "]: ";
    assert NUL !in mid;
    CStrAppend(mid, msg);
    CStrIdentity(msg);
    var m := CStr(msg);
    ConcatAssoc(head, ts, "]: " + m);
    ConcatAssoc(ts, "]: ", m);
    ConcatAssoc(head + ts, "]: ", m);
  }

  /** One `log`/`log_listen` call on its buffer: a single new row at the end. */
  function Append(buf: seq<string>, level: LogLevel, ts: string, msg: string): (r: seq<string>)
    ensures |r| == |buf| + 1
    ensures r[..|buf|] == buf
    ensures r[|buf|] == FormatRow(level, ts, msg)
  {
    buf + [FormatRow(level, ts, msg)]
  }

  datatype Entry = Entry(level: LogLevel, ts: string, msg: string)

  /** A run of `log` calls on one buffer, in call order. */
  function AppendAll(buf: seq<string>, entries: seq<Entry>): (r: seq<string>)
    ensures |r| == |buf| + |entries|
    ensures r[..|buf|] == buf
    ensures forall i :: 0 <= i < |entries| ==>
      r[|buf| + i] == FormatRow(entries[i].level, entries[i].ts, entries[i].msg)
    decreases |entries|
  {
    if |entries| == 0 then buf
    else
      var e := entries[|entries| - 1];
      var prev := AppendAll(buf, entries[..|entries| - 1]);
      var r := Append(prev, e.level, e.ts, e.msg);
      ExtendsAgrees(prev, r);
      assert forall i :: 0 <= i < |entries| - 1 ==> entries[..|entries| - 1][i] == entries[i];
      r
  }

  datatype RowParts = RowParts(tag: string, ts: string, msg: string)

  /**
   How an observer reads a row back: the tag runs to the first space, the
   timestamp sits between " [" and the first "]", the message follows "]: ".
   */
  function ParseRow(row: string): Option<RowParts> {
    var i := IndexOf(row, ' ');
    if i + 2 > |row| || row[i + 1] != '[' then None
    else
      var rest := row[i + 2..];
      var j := IndexOf(rest, ']');
      if j + 3 > |rest| || rest[j + 1..j + 3] != ": " then None
      else Some(RowParts(row[..i], rest[..j], rest[j + 3..]))
  }

  /** The level a reader infers from a tag. */
  function LevelOfTag(tag: string): Option<LogLevel> {
    if tag == "[DEBUG]" then Some(Debug)
    else if tag == "[INFO]" then Some(Info)
    else if tag == "[ERROR]" then Some(Error)
    else if tag == "[FATAL]" then Some(Fatal)
    else None
  }

  /** The composed row, regrouped around the space after the tag and the `]` after the timestamp. */
  lemma ComposeRegrouped(tag: string, ts: string, msg: string)
    ensures Compose(tag, ts, msg) == tag + [' '] + (['['] + (ts + [']'] + (": " + msg)))
  {
    var r2 := ": " + msg;
    assert "]: " + msg == [']'] + r2;
    assert " [" + ts == [' '] + (['['] + ts);
  }

  /** `ParseRow` unfolded at the positions of the first space and the first `]` after it. */
  lemma ParseRowAt(row: string, i: nat, rest: string, j: nat)
    requires IndexOf(row, ' ') == i && i + 2 <= |row| && row[i + 1] == '['
    requires rest == row[i + 2..] && IndexOf(rest, ']') == j
    requires j + 3 <= |rest| && rest[j + 1..j + 3] == ": "
    ensures ParseRow(row) == Some(RowParts(row[..i], rest[..j], rest[j + 3..]))
  {
  }

  /** Reading a composed row gives back its three parts, provided the parts keep to the layout. */
  lemma ParseCompose(tag: string, ts: string, msg: string)
    requires ' ' !in tag && ']' !in ts
    ensures ParseRow(Compose(tag, ts, msg)) == Some(RowParts(tag, ts, msg))
  {
    var r2 := ": " + msg;
    var rest := ts + [']'] + r2;
    var r1 := ['['] + rest;
    var row := tag + [' '] + r1;
    ComposeRegrouped(tag, ts, msg);
    SplitAtFirst(tag, ' ', r1);
    assert row[|tag| + 1] == r1[0] == '[';
    assert row[|tag| + 2..] == r1[1..] == rest;
    SplitAtFirst(ts, ']', r2);
    SuffixSlices(rest, |ts| + 1, 2);
    assert r2[..2] == ": " && r2[2..] == msg;
    ParseRowAt(row, |tag|, rest, |ts|);
  }

  /** The level read from a tag is the level it was written for, except that `Warn` reads as `Info`. */
  lemma TagReadsBack(level: LogLevel)
    ensures LevelOfTag(Tag(level)) == Some(if level == Warn then Info else level)
    ensures LevelOfTag(Tag(level)) == Some(level) <==> level != Warn
  {
    match level
    case Debug =>
    case Info =>
    case Warn =>
    case Error =>
      assert Tag(level) != "[DEBUG]" by { assert Tag(level)[1] != "[DEBUG]"[1]; }
      assert Tag(level) != "[INFO]" by { assert Tag(level)[1] != "[INFO]"[1]; }
    case Fatal =>
      assert Tag(level) != "[DEBUG]" by { assert Tag(level)[1] != "[DEBUG]"[1]; }
      assert Tag(level) != "[INFO]" by { assert Tag(level)[1] != "[INFO]"[1]; }
      assert Tag(level) != "[ERROR]" by { assert Tag(level)[1] != "[ERROR]"[1]; }
  }

  /**
   A row read back yields the timestamp, the C-string view of the message and
   the level, except that a `Warn` row reads as `Info`.
   */
  lemma ReadRow(level: LogLevel, ts: string, msg: string)
    requires NUL !in ts && ']' !in ts
    ensures ParseRow(FormatRow(level, ts, msg)) == Some(RowParts(Tag(level), ts, CStr(msg)))
    ensures LevelOfTag(Tag(level)) == Some(level) <==> level != Warn
    ensures LevelOfTag(Tag(level)) == Some(if level == Warn then Info else level)
  {
    RowShape(level, ts, msg);
    ParseCompose(Tag(level), ts, CStr(msg));
    TagReadsBack(level);
  }

}

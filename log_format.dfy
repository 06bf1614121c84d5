/**
 * The record formatting of the console's `out` routine (LogCatConsole.py).
 *
 * `out` looks the record's severity up in the colour table, rewrites three
 * fields of the record (logger name, level name, message) and writes one
 * line `asctime | levelname | name | msg` behind a colour prefix. The colour
 * prefix is terminal I/O; here it is kept abstract as the colour pair it
 * encodes.
 */
module LogFormat {

  datatype Result<T, E> = Success(value: T) | Failure(error: E)

  /** Width of the logger-name column (NAME_LENGTH). */
  const NameLength: nat := 20
  /** Width of the level-name column. */
  const LevelNameLength: nat := 8
  /** What is written between two columns of a line. */
  const Separator: string := " | "
  /** What every newline of a message is replaced by. */
  const NewlineReplacement: string := " | "

  /** The terminal colours the colour table uses. */
  datatype Color = White | Black | LightGreen | LightCyan | Yellow | LightRed | Red

  /** The `highlight` table: severity level to (foreground, background). */
  const Highlight: map<int, (Color, Color)> :=
    map[0 := (White, Black),
        10 := (LightGreen, Black),
        20 := (LightCyan, Black),
        30 := (Yellow, Black),
        40 := (LightRed, Black),
        50 := (Yellow, Red)]

  /** The fields of a log record dict that `out` reads. */
  datatype Record = Record(asctime: string, levelno: int, levelname: string, name: string, msg: string)

  /** One terminal line: the colour pair its prefix selects, and the text after the prefix. */
  datatype Line = Line(fg: Color, bg: Color, text: string)

  /** The lookup failure `out` raises for a severity missing from the table. */
  datatype OutError = KeyError(key: int)

  /** What one successful `out` leaves behind: the rewritten record and the line it printed. */
  datatype Rendered = Rendered(record: Record, line: Line)

  function Spaces(n: nat): string
  {
    seq(n, _ => ' ')
  }

  function Min(a: int, b: int): int { if a <= b then a else b }

  function Max(a: int, b: int): int { if a <= b then b else a }

  /** Python's slice `s[-n:]`; for n == 0 it is `s[0:]`, the whole string. */
  function TailSlice(s: string, n: nat): (r: string)
    ensures |r| <= |s|
    ensures n > 0 ==> |r| == Min(|s|, n)
  {
    if n == 0 || |s| <= n then s else s[|s| - n..]
  }

  /** Python's `format(s, "<width")`: left-aligned, right-padded with spaces, never truncated. */
  function PadRight(s: string, width: nat): (r: string)
    ensures |r| == Max(|s|, width)
  {
    if |s| < width then s + Spaces(width - |s|) else s
  }

  /** The last `width` characters of `s`, left-aligned in a column of exactly `width`. */
  function FormatField(s: string, width: nat): (r: string)
    ensures width > 0 ==> |r| == width
  {
    PadRight(TailSlice(s, width), width)
  }

  /** `f"{name[-NAME_LENGTH:]:<{NAME_LENGTH}}"` */
  function FormatName(name: string): (r: string)
    ensures |r| == NameLength
  {
    FormatField(name, NameLength)
  }

  /** `f"{levelname[-8:]: <8}"` */
  function FormatLevelName(levelname: string): (r: string)
    ensures |r| == LevelNameLength
  {
    FormatField(levelname, LevelNameLength)
  }

  /**
   * Python's `s[-n:]` keeps the last `n` characters (all of `s` when it is
   * shorter), and `s[-0:]` is all of `s`.
   */
  lemma TailSliceShape(s: string, n: nat)
    ensures var r := TailSlice(s, n);
            |r| <= |s| && r == s[|s| - |r|..] &&
            (n == 0 ==> r == s) &&
            (n > 0 ==> |r| == Min(|s|, n))
  {
  }

  /** Padding keeps the text in front and fills with spaces up to the width, never cutting. */
  lemma PadRightShape(s: string, width: nat)
    ensures var r := PadRight(s, width);
            |r| == Max(|s|, width) && r[..|s|] == s &&
            forall i :: |s| <= i < |r| ==> r[i] == ' '
  {
  }

  /**
   * A field of positive width is exactly `width` characters: the last `width`
   * characters of a long value, or a short value followed by spaces.
   */
  lemma FormatFieldShape(s: string, width: nat)
    requires width > 0
    ensures |FormatField(s, width)| == width
    ensures |s| >= width ==> FormatField(s, width) == s[|s| - width..]
    ensures |s| < width ==>
              FormatField(s, width)[..|s|] == s &&
              forall i :: |s| <= i < width ==> FormatField(s, width)[i] == ' '
  {
    TailSliceShape(s, width);
    PadRightShape(TailSlice(s, width), width);
  }

  /** The logger-name column is `NAME_LENGTH` wide and keeps the end of a long name. */
  lemma FormatNameShape(name: string)
    ensures |FormatName(name)| == NameLength
    ensures |name| >= NameLength ==> FormatName(name) == name[|name| - NameLength..]
    ensures |name| < NameLength ==>
              FormatName(name)[..|name|] == name &&
              forall i :: |name| <= i < NameLength ==> FormatName(name)[i] == ' '
  {
    FormatFieldShape(name, NameLength);
  }

  /** The level-name column is 8 wide and keeps the end of a long level name. */
  lemma FormatLevelNameShape(levelname: string)
    ensures |FormatLevelName(levelname)| == LevelNameLength
    ensures |levelname| >= LevelNameLength ==>
              FormatLevelName(levelname) == levelname[|levelname| - LevelNameLength..]
    ensures |levelname| < LevelNameLength ==>
              FormatLevelName(levelname)[..|levelname|] == levelname &&
              forall i :: |levelname| <= i < LevelNameLength ==> FormatLevelName(levelname)[i] == ' '
  {
    FormatFieldShape(levelname, LevelNameLength);
  }

  /** Reformatting a field that is already formatted to the same width changes nothing. */
  lemma FormatFieldIdempotent(s: string, width: nat)
    requires width > 0
    ensures FormatField(FormatField(s, width), width) == FormatField(s, width)
  {
    var r := FormatField(s, width);
    FormatFieldShape(s, width);
    FormatFieldShape(r, width);
    assert r[|r| - width..] == r;
  }

  /** The number of occurrences of `c` in `s`. */
  function CountChar(s: string, c: char): (n: nat)
    ensures n <= |s|
    ensures n == 0 <==> c !in s
  {
    if s == [] then 0 else (if s[0] == c then 1 else 0) + CountChar(s[1..], c)
  }

  /** `msg.replace("\n", " | ")`, one character at a time. */
  function ReplaceNewlines(s: string): (r: string)
    ensures |s| <= |r|
  {
    if s == [] then []
    else (if s[0] == '\n' then NewlineReplacement else [s[0]]) + ReplaceNewlines(s[1..])
  }

  /**
   * The rewritten message holds no newline, equals the original when that had
   * none, and grows by two characters per replaced newline.
   */
  lemma {:induction false} ReplaceNewlinesShape(s: string)
    ensures '\n' !in ReplaceNewlines(s)
    ensures '\n' !in s ==> ReplaceNewlines(s) == s
    ensures |ReplaceNewlines(s)| == |s| + 2 * CountChar(s, '\n')
  {
    if s != [] {
      ReplaceNewlinesShape(s[1..]);
      var h := if s[0] == '\n' then NewlineReplacement else [s[0]];
      assert ReplaceNewlines(s) == h + ReplaceNewlines(s[1..]);
      assert '\n' !in h;
      assert s == [s[0]] + s[1..];
    }
  }

  /** Python's `s.split(sep)` for a one-character separator. */
  function Split(s: string, sep: char): (parts: seq<string>)
    ensures |parts| == CountChar(s, sep) + 1
    ensures forall i :: 0 <= i < |parts| ==> sep !in parts[i]
  {
    if s == [] then [[]]
    else if s[0] == sep then [[]] + Split(s[1..], sep)
    else
      var p := Split(s[1..], sep);
      [[s[0]] + p[0]] + p[1..]
  }

  /** Python's `sep.join(parts)`. */
  function Join(parts: seq<string>, sep: string): string
    requires |parts| > 0
  {
    if |parts| == 1 then parts[0] else parts[0] + sep + Join(parts[1..], sep)
  }

  lemma JoinConsHead(c: char, p: seq<string>, sep: string)
    requires |p| > 0
    ensures Join([[c] + p[0]] + p[1..], sep) == [c] + Join(p, sep)
  {
    var q := [[c] + p[0]] + p[1..];
    assert q[1..] == p[1..];
  }

  /**
   * The character-wise rewrite agrees with `" | ".join(msg.split("\n"))`
   * on every message.
   */
  lemma {:induction false} ReplaceNewlinesIsSplitJoin(s: string)
    ensures ReplaceNewlines(s) == Join(Split(s, '\n'), NewlineReplacement)
  {
    if s == [] {
    } else if s[0] == '\n' {
      ReplaceNewlinesIsSplitJoin(s[1..]);
      var p := Split(s[1..], '\n');
      assert Split(s, '\n') == [[]] + p;
      assert ([[]] + p)[1..] == p;
    } else {
      ReplaceNewlinesIsSplitJoin(s[1..]);
      JoinConsHead(s[0], Split(s[1..], '\n'), NewlineReplacement);
    }
  }

  /** Replacing newlines a second time changes nothing. */
  lemma ReplaceNewlinesIdempotent(s: string)
    ensures ReplaceNewlines(ReplaceNewlines(s)) == ReplaceNewlines(s)
  {
    ReplaceNewlinesShape(s);
    ReplaceNewlinesShape(ReplaceNewlines(s));
  }

  /** The record after the three in-place rewrites of `out`. */
  function FormatRecord(r: Record): (f: Record)
    ensures f.asctime == r.asctime && f.levelno == r.levelno
    ensures |f.name| == NameLength && |f.levelname| == LevelNameLength && |r.msg| <= |f.msg|
  {
    r.(name := FormatName(r.name), levelname := FormatLevelName(r.levelname), msg := ReplaceNewlines(r.msg))
  }

  /**
   * The rewrite keeps the timestamp and severity, brings both name columns to
   * their widths and leaves no newline in the message.
   */
  lemma FormatRecordShape(r: Record)
    ensures var f := FormatRecord(r);
            f.asctime == r.asctime && f.levelno == r.levelno &&
            |f.name| == NameLength && |f.levelname| == LevelNameLength &&
            '\n' !in f.msg && ('\n' !in r.msg ==> f.msg == r.msg)
  {
    FormatNameShape(r.name);
    FormatLevelNameShape(r.levelname);
    ReplaceNewlinesShape(r.msg);
  }

  /** Rewriting an already rewritten record changes nothing. */
  lemma FormatRecordIdempotent(r: Record)
    ensures FormatRecord(FormatRecord(r)) == FormatRecord(r)
  {
    FormatFieldIdempotent(r.name, NameLength);
    FormatFieldIdempotent(r.levelname, LevelNameLength);
    ReplaceNewlinesIdempotent(r.msg);
  }

  /** The text `out` prints after the colour prefix, from a rewritten record. */
  function ComposeLine(f: Record): (t: string)
    ensures |t| == |f.asctime| + |f.levelname| + |f.name| + |f.msg| + 3 * |Separator|
  {
    f.asctime + Separator + f.levelname + Separator + f.name + Separator + f.msg
  }

  /** `out` raises on `r`: its severity has no entry in the colour table. */
  predicate Raises(r: Record)
  {
    r.levelno !in Highlight
  }

  /**
   * `out(record)`: the colour lookup comes first, so an unknown severity
   * fails before any field of the record is rewritten.
   */
  function Out(r: Record): (res: Result<Rendered, OutError>)
    ensures res.Success? <==> r.levelno in Highlight
    ensures res.Failure? ==> res.error == KeyError(r.levelno)
    ensures res.Success? ==> res.value.record == FormatRecord(r) && res.value.line.text == ComposeLine(FormatRecord(r))
  {
    if r.levelno in Highlight then
      var colors := Highlight[r.levelno];
      var f := FormatRecord(r);
      Success(Rendered(f, Line(colors.0, colors.1, ComposeLine(f))))
    else
      Failure(KeyError(r.levelno))
  }

  /**
   * `out` raises `KeyError(levelno)` exactly for the severities outside the
   * six of the colour table; otherwise it rewrites the record and prints its
   * line in the table's colours.
   */
  lemma OutSpec(r: Record)
    ensures Out(r).Failure? <==> r.levelno !in {0, 10, 20, 30, 40, 50}
    ensures Out(r).Failure? ==> Out(r).error == KeyError(r.levelno)
    ensures Out(r).Success? ==>
              Out(r).value.record == FormatRecord(r) &&
              (Out(r).value.line.fg, Out(r).value.line.bg) == Highlight[r.levelno] &&
              Out(r).value.line.text == ComposeLine(Out(r).value.record)
  {
  }

  /** Only the most severe level is drawn on a red background; all others on black. */
  lemma BackgroundBySeverity(r: Record)
    requires Out(r).Success?
    ensures Out(r).value.line.bg == (if r.levelno == 50 then Red else Black)
  {
  }

  /**
   * The columns of a printed line sit at fixed offsets behind the timestamp:
   * the level name at 3 after it, the logger name at 14, the message at 37.
   */
  lemma LineColumns(r: Record)
    requires Out(r).Success?
    ensures var t := Out(r).value.line.text;
            var a := |r.asctime|;
            |t| == a + 37 + |ReplaceNewlines(r.msg)| &&
            t[..a] == r.asctime &&
            t[a..a + 3] == Separator &&
            t[a + 3..a + 11] == FormatLevelName(r.levelname) &&
            t[a + 11..a + 14] == Separator &&
            t[a + 14..a + 34] == FormatName(r.name) &&
            t[a + 34..a + 37] == Separator &&
            t[a + 37..] == ReplaceNewlines(r.msg)
  {
    FormatRecordShape(r);
    ComposeLineColumns(FormatRecord(r));
  }

  lemma ComposeLineColumns(f: Record)
    requires |f.levelname| == LevelNameLength && |f.name| == NameLength
    ensures var t := ComposeLine(f);
            var a := |f.asctime|;
            |t| == a + 37 + |f.msg| &&
            t[..a] == f.asctime &&
            t[a..a + 3] == Separator &&
            t[a + 3..a + 11] == f.levelname &&
            t[a + 11..a + 14] == Separator &&
            t[a + 14..a + 34] == f.name &&
            t[a + 34..a + 37] == Separator &&
            t[a + 37..] == f.msg
  {
    var a := |f.asctime|;
    var t1 := f.asctime + Separator;
    var t2 := t1 + f.levelname;
    var t3 := t2 + Separator;
    var t4 := t3 + f.name;
    var t5 := t4 + Separator;
    var t := t5 + f.msg;
    assert ComposeLine(f) == t;
    InPrefix(t5, f.msg, a + 34, a + 37);
    InPrefix(t5, f.msg, a + 14, a + 34);
    InPrefix(t4, Separator, a + 14, a + 34);
    InPrefix(t5, f.msg, a + 11, a + 14);
    InPrefix(t4, Separator, a + 11, a + 14);
    InPrefix(t3, f.name, a + 11, a + 14);
    InPrefix(t5, f.msg, a + 3, a + 11);
    InPrefix(t4, Separator, a + 3, a + 11);
    InPrefix(t3, f.name, a + 3, a + 11);
    InPrefix(t2, Separator, a + 3, a + 11);
    InPrefix(t5, f.msg, a, a + 3);
    InPrefix(t4, Separator, a, a + 3);
    InPrefix(t3, f.name, a, a + 3);
    InPrefix(t2, Separator, a, a + 3);
    InPrefix(t1, f.levelname, a, a + 3);
    InPrefix(t5, f.msg, 0, a);
    InPrefix(t4, Separator, 0, a);
    InPrefix(t3, f.name, 0, a);
    InPrefix(t2, Separator, 0, a);
    InPrefix(t1, f.levelname, 0, a);
  }

  /** A slice that lies inside the first part of a concatenation is a slice of that part. */
  lemma InPrefix(p: string, q: string, i: nat, j: nat)
    requires i <= j <= |p|
    ensures (p + q)[i..j] == p[i..j]
  {
  }

  /**
   * A record takes exactly one terminal line if and only if neither the
   * timestamp nor the kept parts of the level and logger names hold a newline;
   * the message never does.
   */
  lemma SingleLine(r: Record)
    requires Out(r).Success?
    ensures '\n' !in Out(r).value.line.text <==>
            '\n' !in r.asctime && '\n' !in FormatLevelName(r.levelname) && '\n' !in FormatName(r.name)
  {
    var f := FormatRecord(r);
    FormatRecordShape(r);
    var t := ComposeLine(f);
    assert t == r.asctime + Separator + f.levelname + Separator + f.name + Separator + f.msg;
    assert '\n' !in Separator;
  }

  /** Calling `out` again on the dict it has rewritten prints the same line and leaves the same dict. */
  lemma OutIdempotent(r: Record)
    requires Out(r).Success?
    ensures Out(Out(r).value.record) == Out(r)
  {
    FormatRecordIdempotent(r);
  }
}

/**
  * `WeeelabLine` of Weeelablib.py (repeated in weeelab_bot.py): one line of
  * the lab log, `[time in] [time out] [duration] <username> :: text`, as the
  * class's regular expression cuts it, its day and its duration in minutes,
  * and `mm_to_hh_mm`, which prints a number of minutes as hours and minutes.
  */
module LogLine {
  import opened Basics

  /** A parsed line. `timeOut` is `None` while the person is still in the lab. */
  datatype Line = Line(timeIn: string, timeOut: Option<string>, duration: string, username: string,
                       text: string, inlab: bool)

  /** The duration written on a line of someone still in the lab. */
  const InlabMark: string := "INLAB"

  /** A field that the expression reads up to its closing character, and the text after it. */
  datatype Cut = Cut(field: string, rest: string)

  /**
    * `\[([^\]]+)\]` (and `<([^>]+)>`) at the start of `s`: the opening
    * character, a non-empty run without the closing one, and the closing one.
    * The run is greedy and cannot contain the closing character, so there is
    * no other way to match.
    */
  function Delimited(s: string, open: char, close: char): (r: Option<Cut>)
    ensures r.Some? ==> |r.value.field| > 0 && close !in r.value.field
  {
    if |s| == 0 || s[0] != open then None
    else
      var i := IndexOf(s[1..], close);
      if i == 0 || i == |s| - 1 then None
      else Some(Cut(s[1..i + 1], s[i + 2..]))
  }

  /** The characters of the class `[:{2}]`. */
  predicate IsSepChar(c: char) {
    c == ':' || c == '{' || c == '2' || c == '}'
  }

  /** `[:{2}]*`, greedy: drops the leading separator characters. */
  function SkipSeps(s: string): (r: string)
    ensures r == [] || !IsSepChar(r[0])
    ensures |r| <= |s|
  {
    if s != [] && IsSepChar(s[0]) then SkipSeps(s[1..]) else s
  }

  /** `(.*)`: everything up to the first newline, which `.` does not match. */
  function RestOfLine(s: string): (r: string)
    ensures '\n' !in r
    ensures |r| <= |s| && r == s[..|r|]
  {
    s[..IndexOf(s, '\n')]
  }

  /** `\s*[:{2}]*\s*(.*)`: the text after the username, which never starts with white space. */
  function Remark(s: string): (t: string)
    ensures '\n' !in t && (t == [] || !IsSpace(t[0]))
  {
    var u := LStrip(SkipSeps(LStrip(s)));
    assert u == [] || !IsSpace(u[0]);
    var t := RestOfLine(u);
    assert t != [] ==> t[0] == u[0];
    t
  }

  /**
    * `WeeelabLine(line)`: `regex.match` is anchored at the start of the line
    * only; when it does not match, `res.group(1)` is looked up on `None` and
    * raises `AttributeError`. A duration of `INLAB` blanks the time out.
    */
  function Parse(s: string): (r: Result<Line, PyError>)
    ensures r.Err? ==> r.error == AttributeError
    ensures r.Ok? ==> && |r.value.timeIn| > 0 && ']' !in r.value.timeIn
                      && |r.value.duration| > 0 && ']' !in r.value.duration
                      && |r.value.username| > 0 && '>' !in r.value.username
                      && '\n' !in r.value.text && (r.value.text == [] || !IsSpace(r.value.text[0]))
    ensures r.Ok? ==> (r.value.inlab <==> r.value.duration == InlabMark)
    ensures r.Ok? ==> (r.value.timeOut.None? <==> r.value.inlab)
  {
    match Delimited(s, '[', ']')
    case None => Err(AttributeError)
    case Some(c1) =>
      match Delimited(LStrip(c1.rest), '[', ']')
      case None => Err(AttributeError)
      case Some(c2) =>
        match Delimited(LStrip(c2.rest), '[', ']')
        case None => Err(AttributeError)
        case Some(c3) =>
          match Delimited(LStrip(c3.rest), '<', '>')
          case None => Err(AttributeError)
          case Some(c4) =>
            var text := Remark(c4.rest);
            var inlab := c3.field == InlabMark;
            Ok(Line(c1.field, if inlab then None else Some(c2.field), c3.field, c4.field, text, inlab))
  }

  /** `open + field + close + rest`. */
  function Field(open: char, field: string, close: char, rest: string): string {
    [open] + field + [close] + rest
  }

  /**
    * The line the lab's logger writes for these fields,
    * `[timeIn] [timeOut] [duration] <username> :: text`.
    */
  function Format(timeIn: string, timeOut: string, duration: string, username: string, text: string): string {
    Field('[', timeIn, ']', [' '] + Field('[', timeOut, ']', [' '] + Field('[', duration, ']',
      [' '] + Field('<', username, '>', [' '] + [':', ':', ' '] + text))))
  }

  /** What `Format` needs so that the expression reads the fields back unchanged. */
  predicate Readable(timeIn: string, timeOut: string, duration: string, username: string, text: string) {
    && |timeIn| > 0 && ']' !in timeIn
    && |timeOut| > 0 && ']' !in timeOut
    && |duration| > 0 && ']' !in duration
    && |username| > 0 && '>' !in username
    && '\n' !in text && (text == [] || !IsSpace(text[0]))
  }

  lemma DelimitedReads(field: string, rest: string, open: char, close: char)
    requires |field| > 0 && close !in field
    ensures Delimited(Field(open, field, close, rest), open, close) == Some(Cut(field, rest))
  {
    var s := Field(open, field, close, rest);
    assert s[0] == open;
    assert s[1..] == field + ([close] + rest);
    IndexOfPrefix(field, [close] + rest, close);
    assert IndexOf(s[1..], close) == |field|;
    assert s[1..|field| + 1] == field;
    assert s[|field| + 2..] == rest;
  }

  /** The first `c` after a prefix without `c` is right after that prefix. */
  lemma {:induction false} IndexOfPrefix(a: string, b: string, c: char)
    requires c !in a && b != [] && b[0] == c
    ensures IndexOf(a + b, c) == |a|
  {
    if a != [] {
      assert (a + b)[1..] == a[1..] + b;
      IndexOfPrefix(a[1..], b, c);
    }
  }

  /** No newline: the whole string is one line. */
  lemma IndexOfAbsent(s: string, c: char)
    requires c !in s
    ensures IndexOf(s, c) == |s|
  {
  }

  lemma LStripSpace(s: string)
    ensures LStrip([' '] + s) == LStrip(s)
  {
    var t := [' '] + s;
    assert t[0] == ' ' && IsSpace(t[0]);
    assert t[1..] == s;
  }

  /** A space and then a field: the space is skipped and the field read. */
  lemma SpacedFieldReads(field: string, rest: string, open: char, close: char)
    requires |field| > 0 && close !in field && !IsSpace(open)
    ensures Delimited(LStrip([' '] + Field(open, field, close, rest)), open, close) == Some(Cut(field, rest))
  {
    LStripSpace(Field(open, field, close, rest));
    DelimitedReads(field, rest, open, close);
  }

  /** The text after ` :: ` is read whole. */
  lemma RemarkReads(text: string)
    requires '\n' !in text && (text == [] || !IsSpace(text[0]))
    ensures Remark([' '] + [':', ':', ' '] + text) == text
  {
    var spaced := [' '] + text;
    var colon := [':'] + spaced;
    var tail := [':'] + colon;
    assert [' '] + [':', ':', ' '] + text == [' '] + tail;
    LStripSpace(tail);
    assert tail[0] == ':' && !IsSpace(tail[0]);
    assert LStrip(tail) == tail;
    SkipSepsColon(colon);
    SkipSepsColon(spaced);
    assert spaced[0] == ' ' && !IsSepChar(spaced[0]);
    assert SkipSeps(spaced) == spaced;
    LStripSpace(text);
    assert LStrip(text) == text;
    IndexOfAbsent(text, '\n');
    assert RestOfLine(text) == text[..|text|] == text;
  }

  lemma SkipSepsColon(s: string)
    ensures SkipSeps([':'] + s) == SkipSeps(s)
  {
    var t := [':'] + s;
    assert IsSepChar(t[0]) && t[1..] == s;
  }

  /** `Parse` in terms of the four fields it cuts. */
  lemma ParseOfCuts(s: string, c1: Cut, c2: Cut, c3: Cut, c4: Cut)
    requires Delimited(s, '[', ']') == Some(c1)
    requires Delimited(LStrip(c1.rest), '[', ']') == Some(c2)
    requires Delimited(LStrip(c2.rest), '[', ']') == Some(c3)
    requires Delimited(LStrip(c3.rest), '<', '>') == Some(c4)
    ensures Parse(s) == var inlab := c3.field == InlabMark;
                        Ok(Line(c1.field, if inlab then None else Some(c2.field), c3.field, c4.field, Remark(c4.rest), inlab))
  {
  }

  /** Parsing is the inverse of the logger's format, for fields the expression can delimit. */
  lemma ParseFormat(timeIn: string, timeOut: string, duration: string, username: string, text: string)
    requires Readable(timeIn, timeOut, duration, username, text)
    ensures Parse(Format(timeIn, timeOut, duration, username, text)) ==
              var inlab := duration == InlabMark;
              Ok(Line(timeIn, if inlab then None else Some(timeOut), duration, username, text, inlab))
  {
    var r4 := [' '] + [':', ':', ' '] + text;
    var r3 := [' '] + Field('<', username, '>', r4);
    var r2 := [' '] + Field('[', duration, ']', r3);
    var r1 := [' '] + Field('[', timeOut, ']', r2);
    var s := Field('[', timeIn, ']', r1);
    assert Delimited(s, '[', ']') == Some(Cut(timeIn, r1)) by { DelimitedReads(timeIn, r1, '[', ']'); }
    assert Delimited(LStrip(r1), '[', ']') == Some(Cut(timeOut, r2)) by { SpacedFieldReads(timeOut, r2, '[', ']'); }
    assert Delimited(LStrip(r2), '[', ']') == Some(Cut(duration, r3)) by { SpacedFieldReads(duration, r3, '[', ']'); }
    assert Delimited(LStrip(r3), '<', '>') == Some(Cut(username, r4)) by { SpacedFieldReads(username, r4, '<', '>'); }
    assert Remark(r4) == text by { RemarkReads(text); }
    ParseOfCuts(s, Cut(timeIn, r1), Cut(timeOut, r2), Cut(duration, r3), Cut(username, r4));
  }

  /** `day()`: the time in up to its first space. */
  function Day(l: Line): (d: string)
    ensures ' ' !in d
    ensures |d| <= |l.timeIn| && d == l.timeIn[..|d|]
    ensures |d| < |l.timeIn| ==> l.timeIn[|d|] == ' '
  {
    SplitFirst(l.timeIn, ' ');
    SplitPieces(l.timeIn, ' ');
    Split(l.timeIn, ' ')[0]
  }

  /**
    * `duration_minutes()`: no minutes while in the lab, else `h:m` read as
    * `int(h) * 60 + int(m)`. Python evaluates `int(parts[0])` before
    * indexing `parts[1]`, so a bad hour raises `ValueError` even without a
    * colon, and a duration without a colon raises `IndexError`.
    */
  function DurationMinutes(l: Line): (r: Result<int, PyError>)
    ensures l.inlab ==> r == Ok(0)
    ensures r.Err? ==> r.error == ValueError || r.error == IndexError
  {
    if l.inlab then Ok(0)
    else
      var parts := Split(l.duration, ':');
      match ParseInt(parts[0])
      case None => Err(ValueError)
      case Some(h) =>
        if |parts| < 2 then Err(IndexError)
        else match ParseInt(parts[1])
          case None => Err(ValueError)
          case Some(m) => Ok(h * 60 + m)
  }

  /** The pieces of `a:b` when neither side has a colon. */
  lemma {:induction false} SplitAtOnly(a: string, b: string, sep: char)
    requires sep !in a && sep !in b
    ensures Split(a + [sep] + b, sep) == [a, b]
  {
    if a == [] {
      assert [sep] + b == a + [sep] + b;
      SplitNoSep(b, sep);
      assert ([sep] + b)[1..] == b;
    } else {
      assert (a + [sep] + b)[1..] == a[1..] + [sep] + b;
      SplitAtOnly(a[1..], b, sep);
      assert [a[0]] + a[1..] == a;
    }
  }

  lemma {:induction false} SplitNoSep(s: string, sep: char)
    requires sep !in s
    ensures Split(s, sep) == [s]
  {
    if s != [] {
      SplitNoSep(s[1..], sep);
      assert [s[0]] + s[1..] == s;
    }
  }

  lemma DigitsHaveNoColon(s: string)
    requires AllDigits(s)
    ensures ':' !in s
  {
    forall i | 0 <= i < |s|
      ensures s[i] != ':'
    {
      assert IsDigit(s[i]);
    }
  }

  /** A finished session of `h` hours and `m` minutes counts `h * 60 + m` minutes. */
  lemma DurationOfHoursMinutes(l: Line, h: nat, m: nat)
    requires !l.inlab && l.duration == NatToString(h) + ":" + NatToString(m)
    ensures DurationMinutes(l) == Ok(h * 60 + m)
  {
    var hs := NatToString(h);
    var ms := NatToString(m);
    DigitsHaveNoColon(hs);
    DigitsHaveNoColon(ms);
    SplitAtOnly(hs, ms, ':');
    assert Split(l.duration, ':') == [hs, ms];
    ParseIntOfIntToString(h);
    ParseIntOfIntToString(m);
  }

  // ---------------------------------------------------------------------------
  // mm_to_hh_mm

  /** `mm_to_hh_mm(minutes)`: `minutes // 60` and `minutes % 60`, each printed with at least two digits. */
  function HoursMinutes(minutes: int): (string, string) {
    (ZFill(IntToString(minutes / 60), 2), ZFill(IntToString(minutes % 60), 2))
  }

  /**
    * For a non-negative count, both parts are at least two digits long, the
    * minutes part is exactly two, and reading them back gives hours and
    * minutes below 60 that add up to the count.
    */
  lemma HoursMinutesReadBack(minutes: nat)
    ensures var (hh, mm) := HoursMinutes(minutes);
            && |hh| >= 2 && |mm| == 2 && AllDigits(hh) && AllDigits(mm)
            && ParseInt(hh).Some? && ParseInt(mm).Some?
            && 0 <= ParseInt(mm).value < 60
            && ParseInt(hh).value * 60 + ParseInt(mm).value == minutes
  {
    ZFillNatReadsBack(minutes / 60, 2);
    ZFillNatReadsBack(minutes % 60, 2);
    assert Pow10(2) == 100;
    NatToStringLength(minutes % 60, 2);
  }
}

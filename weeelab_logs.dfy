/**
  * `WeeelabLogs` of Weeelablib.py (repeated in weeelab_bot.py): the lines of
  * the current month's log and of the months before it, the time each
  * person spent in the lab, who is in the lab now, the entries of
  * users.json, and the walk over past months that downloads the old logs.
  *
  * A line whose duration cannot be read makes `duration_minutes` raise, and
  * the exception leaves every counting loop; the counts are therefore
  * `Result`s, with the error of the first such line.
  */
module Logs {
  import opened Basics
  import opened LogLine

  /** An entry of users.json: a JSON object whose fields the model reads as strings. */
  type UserEntry = map<string, string>

  // ---------------------------------------------------------------------------
  // Minutes per person

  /** `minutes.get(u, 0)`. */
  function Get(m: map<string, int>, u: string): int {
    if u in m then m[u] else 0
  }

  /** Some line of `lines` is by `u`. */
  predicate Mentions(lines: seq<Line>, u: string) {
    exists i :: 0 <= i < |lines| && lines[i].username == u
  }

  /**
    * How a line's minutes are read. The class reads them with
    * `DurationMinutes`; the properties below hold for any reading.
    */
  type Reading = Line -> Result<int, PyError>

  /** Every line has a readable duration. */
  predicate AllTimed(lines: seq<Line>, dur: Reading) {
    forall i :: 0 <= i < |lines| ==> dur(lines[i]).Ok?
  }

  /** The minutes `u` spent in the lab according to `lines`, summed in order. */
  function UserMinutes(lines: seq<Line>, u: string, dur: Reading): Result<int, PyError>
    decreases |lines|
  {
    if lines == [] then Ok(0)
    else
      var before := UserMinutes(lines[..|lines| - 1], u, dur);
      var l := lines[|lines| - 1];
      if before.Err? || l.username != u then before
      else match dur(l)
        case Err(e) => Err(e)
        case Ok(d) => Ok(before.value + d)
  }

  /** Adds the minutes of every line to `m0`, person by person, in order. */
  function TallyFrom(m0: map<string, int>, lines: seq<Line>, dur: Reading): Result<map<string, int>, PyError>
    decreases |lines|
  {
    if lines == [] then Ok(m0)
    else match TallyFrom(m0, lines[..|lines| - 1], dur)
      case Err(e) => Err(e)
      case Ok(m) =>
        var l := lines[|lines| - 1];
        match dur(l)
        case Err(e) => Err(e)
        case Ok(d) => Ok(m[l.username := Get(m, l.username) + d])
  }

  /** `count_time_user`: this month's minutes and the minutes of all times. */
  function UserTime(log: seq<Line>, oldLog: seq<Line>, u: string, dur: Reading): Result<(int, int), PyError> {
    match UserMinutes(log, u, dur)
    case Err(e) => Err(e)
    case Ok(month) =>
      match UserMinutes(oldLog, u, dur)
      case Err(e) => Err(e)
      case Ok(before) => Ok((month, month + before))
  }

  /** `count_time_all`: `count_time_month`, then the old lines on top of it. */
  function AllTime(log: seq<Line>, oldLog: seq<Line>, dur: Reading): Result<map<string, int>, PyError> {
    match TallyFrom(map[], log, dur)
    case Err(e) => Err(e)
    case Ok(month) => TallyFrom(month, oldLog, dur)
  }

  /** A tally succeeds exactly when every line has a duration. */
  lemma {:induction false} TallySucceeds(m0: map<string, int>, lines: seq<Line>, dur: Reading)
    ensures TallyFrom(m0, lines, dur).Ok? <==> AllTimed(lines, dur)
    decreases |lines|
  {
    if lines != [] {
      var pre := lines[..|lines| - 1];
      TallySucceeds(m0, pre, dur);
      if AllTimed(lines, dur) {
        assert forall i :: 0 <= i < |pre| ==> pre[i] == lines[i];
      } else if AllTimed(pre, dur) {
        var i :| 0 <= i < |lines| && dur(lines[i]).Err?;
        assert i == |lines| - 1;
      }
    }
  }

  /**
    * After a tally, a person has a key iff they had one before or wrote a
    * line, and their minutes grew by their own lines' minutes.
    */
  lemma {:induction false} TallyAdds(m0: map<string, int>, lines: seq<Line>, u: string, dur: Reading)
    requires TallyFrom(m0, lines, dur).Ok?
    ensures UserMinutes(lines, u, dur).Ok?
    ensures u in TallyFrom(m0, lines, dur).value <==> u in m0 || Mentions(lines, u)
    ensures Get(TallyFrom(m0, lines, dur).value, u) == Get(m0, u) + UserMinutes(lines, u, dur).value
    decreases |lines|
  {
    if lines != [] {
      var pre := lines[..|lines| - 1];
      TallyAdds(m0, pre, u, dur);
      if Mentions(lines, u) && !Mentions(pre, u) {
        var i :| 0 <= i < |lines| && lines[i].username == u;
        assert i == |lines| - 1;
      }
      if Mentions(pre, u) {
        var i :| 0 <= i < |pre| && pre[i].username == u;
        assert lines[i].username == u;
      }
    }
  }

  /**
    * `count_time_all` fails only on an unreadable duration; otherwise its
    * keys are the people of either log, and for each of them it agrees with
    * `count_time_month` and `count_time_user`: the total is this month's
    * minutes (0 for someone absent this month) plus the old months' minutes.
    */
  lemma AllTimeAgrees(log: seq<Line>, oldLog: seq<Line>, u: string, dur: Reading)
    ensures AllTime(log, oldLog, dur).Ok? <==> AllTimed(log, dur) && AllTimed(oldLog, dur)
    ensures AllTime(log, oldLog, dur).Ok? ==>
              var month := TallyFrom(map[], log, dur).value;
              var all := AllTime(log, oldLog, dur).value;
              && (u in all <==> Mentions(log, u) || Mentions(oldLog, u))
              && UserTime(log, oldLog, u, dur) == Ok((Get(month, u), Get(all, u)))
  {
    TallySucceeds(map[], log, dur);
    if TallyFrom(map[], log, dur).Ok? {
      TallySucceeds(TallyFrom(map[], log, dur).value, oldLog, dur);
      TallyAdds(map[], log, u, dur);
      if AllTime(log, oldLog, dur).Ok? {
        TallyAdds(TallyFrom(map[], log, dur).value, oldLog, u, dur);
      }
    }
  }

  /** A failure in a prefix of the lines is the failure of the whole tally. */
  lemma {:induction false} TallyFailsEarly(m0: map<string, int>, lines: seq<Line>, k: nat, dur: Reading)
    requires k <= |lines| && TallyFrom(m0, lines[..k], dur).Err?
    ensures TallyFrom(m0, lines, dur) == TallyFrom(m0, lines[..k], dur)
    decreases |lines|
  {
    if k < |lines| {
      var pre := lines[..|lines| - 1];
      assert pre[..k] == lines[..k];
      TallyFailsEarly(m0, pre, k, dur);
    } else {
      assert lines[..k] == lines;
    }
  }

  /** The same for one person's minutes. */
  lemma {:induction false} UserMinutesFailEarly(lines: seq<Line>, u: string, k: nat, dur: Reading)
    requires k <= |lines| && UserMinutes(lines[..k], u, dur).Err?
    ensures UserMinutes(lines, u, dur) == UserMinutes(lines[..k], u, dur)
    decreases |lines|
  {
    if k < |lines| {
      var pre := lines[..|lines| - 1];
      assert pre[..k] == lines[..k];
      UserMinutesFailEarly(pre, u, k, dur);
    } else {
      assert lines[..k] == lines;
    }
  }

  // ---------------------------------------------------------------------------
  // Who is in the lab

  /** The usernames of the lines still open, in log order. */
  function InlabNames(lines: seq<Line>): (names: seq<string>)
    ensures |names| <= |lines|
    decreases |lines|
  {
    if lines == [] then []
    else
      var l := lines[|lines| - 1];
      InlabNames(lines[..|lines| - 1]) + (if l.inlab then [l.username] else [])
  }

  /** Someone is listed iff one of their lines is still open. */
  lemma {:induction false} InlabNamesMembers(lines: seq<Line>, u: string)
    ensures u in InlabNames(lines) <==> exists i :: 0 <= i < |lines| && lines[i].inlab && lines[i].username == u
    decreases |lines|
  {
    if lines != [] {
      var pre := lines[..|lines| - 1];
      InlabNamesMembers(pre, u);
      if exists i :: 0 <= i < |pre| && pre[i].inlab && pre[i].username == u {
        var i :| 0 <= i < |pre| && pre[i].inlab && pre[i].username == u;
        assert lines[i] == pre[i];
      }
      if exists i :: 0 <= i < |lines| && lines[i].inlab && lines[i].username == u {
        var i :| 0 <= i < |lines| && lines[i].inlab && lines[i].username == u;
        if i < |pre| {
          assert pre[i] == lines[i];
        }
      }
    }
  }

  /** The list follows the log: the open lines of a longer log come after those of its first part. */
  lemma {:induction false} InlabNamesAppend(a: seq<Line>, b: seq<Line>)
    ensures InlabNames(a + b) == InlabNames(a) + InlabNames(b)
    decreases |b|
  {
    if b != [] {
      var pre := b[..|b| - 1];
      assert (a + b)[..|a + b| - 1] == a + pre;
      assert (a + b)[|a + b| - 1] == b[|b| - 1];
      InlabNamesAppend(a, pre);
    } else {
      assert a + b == a;
    }
  }

  // ---------------------------------------------------------------------------
  // users.json

  /**
    * The loop of `get_entry_from_tid` and `get_entry_from_username`: the
    * first entry whose `key` is `v`, or `None`. Reading `user[key]` from an
    * entry without that key raises `KeyError` and ends the search.
    */
  function FindEntry(users: seq<UserEntry>, key: string, v: string): Result<Option<UserEntry>, PyError>
    decreases |users|
  {
    if users == [] then Ok(None)
    else if key !in users[0] then Err(KeyError(key))
    else if users[0][key] == v then Ok(Some(users[0]))
    else FindEntry(users[1..], key, v)
  }

  /**
    * The search finds the first entry whose `key` is `v`, or none when every
    * entry has a different `key`; it raises at the first entry before that
    * without the key.
    */
  lemma {:induction false} FindEntryFirst(users: seq<UserEntry>, key: string, v: string)
    ensures var r := FindEntry(users, key, v);
            && (r.Err? ==> r.error == KeyError(key))
            && (r == Ok(None) <==> forall i :: 0 <= i < |users| ==> key in users[i] && users[i][key] != v)
            && (r.Ok? && r.value.Some? ==>
                  exists i :: 0 <= i < |users| && users[i] == r.value.value && key in users[i] && users[i][key] == v
                              && forall j :: 0 <= j < i ==> key in users[j] && users[j][key] != v)
            && (r.Err? ==>
                  exists i :: 0 <= i < |users| && key !in users[i]
                              && forall j :: 0 <= j < i ==> key in users[j] && users[j][key] != v)
    decreases |users|
  {
    if users != [] && key in users[0] && users[0][key] != v {
      FindEntryFirst(users[1..], key, v);
      assert forall i :: 0 < i < |users| ==> users[i] == users[1..][i - 1];
      var r := FindEntry(users, key, v);
      if r.Ok? && r.value.Some? {
        var i :| 0 <= i < |users[1..]| && users[1..][i] == r.value.value && key in users[1..][i] && users[1..][i][key] == v
                 && forall j :: 0 <= j < i ==> key in users[1..][j] && users[1..][j][key] != v;
        assert users[i + 1] == r.value.value;
      }
      if r.Err? {
        var i :| 0 <= i < |users[1..]| && key !in users[1..][i]
                 && forall j :: 0 <= j < i ==> key in users[1..][j] && users[1..][j][key] != v;
        assert key !in users[i + 1];
      }
    }
  }

  /**
    * `get_name_and_surname`: "name surname" when both are there, else the
    * name, else the username; an entry with none of them raises `KeyError`.
    */
  function NameAndSurname(e: UserEntry): (r: Result<string, PyError>)
    ensures r.Err? <==> "name" !in e && "username" !in e
    ensures r.Err? ==> r.error == KeyError("username")
    ensures "name" in e && "surname" in e ==> r == Ok(e["name"] + " " + e["surname"])
    ensures "name" in e && "surname" !in e ==> r == Ok(e["name"])
    ensures "name" !in e && "username" in e ==> r == Ok(e["username"])
  {
    if "name" in e && "surname" in e then Ok(e["name"] + " " + e["surname"])
    else if "name" in e then Ok(e["name"])
    else if "username" in e then Ok(e["username"])
    else Err(KeyError("username"))
  }

  // ---------------------------------------------------------------------------
  // Old logs

  /** A month as `(month, year)`. */
  type Month = (int, int)

  /** The month after `m`, as the loop steps it. */
  function NextMonth(m: Month): Month {
    if m.0 + 1 >= 13 then (1, m.1 + 1) else (m.0 + 1, m.1)
  }

  /** The file of a past month: `<base>log<year><month as two digits>.txt`. */
  function LogFileName(base: string, m: Month): string {
    base + "log" + IntToString(m.1) + ZFill(IntToString(m.0), 2) + ".txt"
  }

  /** What `WeeelabLine` gives for each line of a file, in order. */
  type Reads = seq<Result<Line, PyError>>

  /** The lines of a file as far as they parse, and the error that stopped them if one did. */
  datatype Parsed = Parsed(lines: seq<Line>, error: Option<PyError>)

  /**
    * `for line in log_lines: self.old_log.append(WeeelabLine(line))`: the
    * lines are appended up to the first that raises, which ends the loop.
    */
  function ParseLines(rows: Reads): (p: Parsed)
    ensures |p.lines| <= |rows|
    ensures forall i :: 0 <= i < |p.lines| ==> rows[i] == Ok(p.lines[i])
    ensures p.error.None? ==> |p.lines| == |rows|
    ensures p.error.Some? ==> |p.lines| < |rows| && rows[|p.lines|] == Err(p.error.value)
    decreases |rows|
  {
    if rows == [] then Parsed([], None)
    else
      var p := ParseLines(rows[..|rows| - 1]);
      if p.error.Some? then p
      else match rows[|rows| - 1]
        case Err(e) => Parsed(p.lines, Some(e))
        case Ok(l) => Parsed(p.lines + [l], None)
  }

  /** A bad line in a prefix of the file stops the whole file there. */
  lemma {:induction false} ParseStopsEarly(rows: Reads, k: nat)
    requires k <= |rows| && ParseLines(rows[..k]).error.Some?
    ensures ParseLines(rows) == ParseLines(rows[..k])
    decreases |rows|
  {
    if k < |rows| {
      var pre := rows[..|rows| - 1];
      assert pre[..k] == rows[..k];
      ParseStopsEarly(pre, k);
    } else {
      assert rows[..k] == rows;
    }
  }

  /**
    * What a call of `update_old_logs` did: the lines appended to `old_log`,
    * the month stored in `old_logs_month`/`old_logs_year`, the exception it
    * raised if a line did not parse, and the months whose file was read whole.
    */
  datatype Walked = Walked(lines: seq<Line>, month: Month, error: Option<PyError>, fetched: seq<Month>)

  /**
    * One call's steps before the rest of the walk `w`, from `start`: an
    * exception leaves the stored month as it was.
    */
  function Then(lines: seq<Line>, fetched: seq<Month>, start: Month, w: Walked): Walked {
    if w.error.Some? then Walked(lines + w.lines, start, w.error, fetched + w.fetched)
    else Walked(lines + w.lines, w.month, None, fetched + w.fetched)
  }

  lemma ThenThen(a: seq<Line>, f: seq<Month>, s: Month, b: seq<Line>, g: seq<Month>, t: Month, w: Walked)
    ensures Then(a, f, s, Then(b, g, t, w)) == Then(a + b, f + g, s, w)
  {
    assert a + (b + w.lines) == a + b + w.lines;
    assert f + (g + w.fetched) == f + g + w.fetched;
  }

  /** The measure that ends the walk: at the latest, month 12 of `max_year` is past `max_month`. */
  function WalkRank(m: Month, maxYear: int): nat
    requires 1 <= m.0 <= 12
  {
    if m.1 < maxYear then 12 * (maxYear - m.1) + 13 - m.0 else 12 - m.0
  }

  /**
    * The loop of `update_old_logs` from the month last fetched, `m`, up to
    * `(maxMonth, maxYear)`. `files` maps the names that can be downloaded to
    * their lines; any other name fails to download, and the walk stops at the
    * month before it. When the loop passes the bound, the code AS WRITTEN
    * (`asWritten`) stores the month it has just stepped to, which was not
    * downloaded; the corrected walk stores the last month fetched, as a
    * failed download does.
    */
  function WalkFrom(m: Month, maxMonth: int, maxYear: int, base: string, files: map<string, Reads>, asWritten: bool): Walked
    requires 1 <= m.0 <= 12 && 0 <= maxMonth <= 11
    decreases if m.1 >= maxYear && m.0 == 12 then 1 else 0, WalkRank(m, maxYear)
  {
    var n := NextMonth(m);
    if n.1 >= maxYear && n.0 > maxMonth then
      Walked([], if asWritten then n else m, None, [])
    else
      var name := LogFileName(base, n);
      if name !in files then Walked([], m, None, [])
      else
        var p := ParseLines(files[name]);
        if p.error.Some? then Walked(p.lines, m, p.error, [])
        else
          Then(p.lines, [n], m, WalkFrom(n, maxMonth, maxYear, base, files, asWritten))
  }

  /**
    * What a walk from `m` leaves: a month in range; on an exception, `m`
    * again; the months it read, each after the one before. The corrected walk
    * also stores the last month it read, and stops only at the bound or at a
    * month it cannot download.
    */
  lemma {:induction false} WalkFacts(m: Month, maxMonth: int, maxYear: int, base: string, files: map<string, Reads>, asWritten: bool)
    requires 1 <= m.0 <= 12 && 0 <= maxMonth <= 11
    ensures var w := WalkFrom(m, maxMonth, maxYear, base, files, asWritten);
            && 1 <= w.month.0 <= 12
            && (w.error.Some? ==> w.month == m)
            && Consecutive(m, w.fetched)
            && (!asWritten && w.error.None? ==> w.month == (if w.fetched == [] then m else w.fetched[|w.fetched| - 1]))
            && (!asWritten && w.error.None? ==>
                  var n := NextMonth(w.month);
                  (n.1 >= maxYear && n.0 > maxMonth) || LogFileName(base, n) !in files)
    decreases if m.1 >= maxYear && m.0 == 12 then 1 else 0, WalkRank(m, maxYear)
  {
    var n := NextMonth(m);
    if !(n.1 >= maxYear && n.0 > maxMonth) && LogFileName(base, n) in files && ParseLines(files[LogFileName(base, n)]).error.None? {
      var w := WalkFrom(n, maxMonth, maxYear, base, files, asWritten);
      WalkFacts(n, maxMonth, maxYear, base, files, asWritten);
      assert ([n] + w.fetched)[1..] == w.fetched;
    }
  }

  /** Each month is the one after the month before it, the first the one after `start`. */
  predicate Consecutive(start: Month, ms: seq<Month>)
    decreases |ms|
  {
    ms == [] || (ms[0] == NextMonth(start) && Consecutive(ms[0], ms[1..]))
  }

  lemma {:induction false} ConsecutiveAppend(start: Month, a: seq<Month>, b: seq<Month>)
    requires Consecutive(start, a) && Consecutive(if a == [] then start else a[|a| - 1], b)
    ensures Consecutive(start, a + b)
    decreases |a|
  {
    if a == [] {
      assert a + b == b;
    } else {
      var rest := a[1..];
      assert (if rest == [] then a[0] else rest[|rest| - 1]) == a[|a| - 1];
      ConsecutiveAppend(a[0], rest, b);
      assert (a + b)[1..] == rest + b;
      assert (a + b)[0] == a[0];
    }
  }

  /** One month of the walk: read whole, its lines come before the rest of the walk. */
  lemma WalkStep(m: Month, maxMonth: int, maxYear: int, base: string, files: map<string, Reads>, asWritten: bool)
    requires 1 <= m.0 <= 12 && 0 <= maxMonth <= 11
    requires var n := NextMonth(m); !(n.1 >= maxYear && n.0 > maxMonth) && LogFileName(base, n) in files
    requires ParseLines(files[LogFileName(base, NextMonth(m))]).error.None?
    ensures var n := NextMonth(m);
            WalkFrom(m, maxMonth, maxYear, base, files, asWritten)
            == Then(ParseLines(files[LogFileName(base, n)]).lines, [n], m, WalkFrom(n, maxMonth, maxYear, base, files, asWritten))
  {
  }

  /** The corrected walk stops where it is at the bound or at a file it cannot download. */
  lemma WalkEnds(m: Month, maxMonth: int, maxYear: int, base: string, files: map<string, Reads>)
    requires 1 <= m.0 <= 12 && 0 <= maxMonth <= 11
    requires var n := NextMonth(m); (n.1 >= maxYear && n.0 > maxMonth) || LogFileName(base, n) !in files
    ensures WalkFrom(m, maxMonth, maxYear, base, files, false) == Walked([], m, None, [])
  {
  }

  /** A line that does not parse ends the walk with the lines before it appended. */
  lemma WalkFails(m: Month, maxMonth: int, maxYear: int, base: string, files: map<string, Reads>, asWritten: bool)
    requires 1 <= m.0 <= 12 && 0 <= maxMonth <= 11
    requires var n := NextMonth(m); !(n.1 >= maxYear && n.0 > maxMonth) && LogFileName(base, n) in files
    requires ParseLines(files[LogFileName(base, NextMonth(m))]).error.Some?
    ensures var p := ParseLines(files[LogFileName(base, NextMonth(m))]);
            WalkFrom(m, maxMonth, maxYear, base, files, asWritten) == Walked(p.lines, m, p.error, [])
  {
  }

  /**
    * The loop of `UpdateOldLogs` keeps `Then(done, fetched, start, Walk(here, ...))
    * == Walk(start, ...)`: what it has appended and read, then the walk from
    * where it is, make the walk from where it started. The three lemmas below
    * are its three ways on from `here`.
    */
  lemma StopAt(start: Month, done: seq<Line>, fetched: seq<Month>, here: Month,
               maxMonth: int, maxYear: int, base: string, files: map<string, Reads>)
    requires 1 <= start.0 <= 12 && 1 <= here.0 <= 12 && 0 <= maxMonth <= 11
    requires var n := NextMonth(here); (n.1 >= maxYear && n.0 > maxMonth) || LogFileName(base, n) !in files
    requires Then(done, fetched, start, Walk(here, maxMonth, maxYear, base, files)) == Walk(start, maxMonth, maxYear, base, files)
    ensures Walk(start, maxMonth, maxYear, base, files) == Walked(done, here, None, fetched)
  {
    WalkEnds(here, maxMonth, maxYear, base, files);
    assert done + [] == done && fetched + [] == fetched;
  }

  lemma FailAt(start: Month, done: seq<Line>, fetched: seq<Month>, here: Month,
               maxMonth: int, maxYear: int, base: string, files: map<string, Reads>)
    requires 1 <= start.0 <= 12 && 1 <= here.0 <= 12 && 0 <= maxMonth <= 11
    requires var n := NextMonth(here); !(n.1 >= maxYear && n.0 > maxMonth) && LogFileName(base, n) in files
    requires ParseLines(files[LogFileName(base, NextMonth(here))]).error.Some?
    requires Then(done, fetched, start, Walk(here, maxMonth, maxYear, base, files)) == Walk(start, maxMonth, maxYear, base, files)
    ensures var p := ParseLines(files[LogFileName(base, NextMonth(here))]);
            Walk(start, maxMonth, maxYear, base, files) == Walked(done + p.lines, start, p.error, fetched)
  {
    WalkFails(here, maxMonth, maxYear, base, files, false);
    assert fetched + [] == fetched;
  }

  lemma StepAt(start: Month, done: seq<Line>, fetched: seq<Month>, here: Month,
               maxMonth: int, maxYear: int, base: string, files: map<string, Reads>)
    requires 1 <= start.0 <= 12 && 1 <= here.0 <= 12 && 0 <= maxMonth <= 11
    requires var n := NextMonth(here); !(n.1 >= maxYear && n.0 > maxMonth) && LogFileName(base, n) in files
    requires ParseLines(files[LogFileName(base, NextMonth(here))]).error.None?
    requires Then(done, fetched, start, Walk(here, maxMonth, maxYear, base, files)) == Walk(start, maxMonth, maxYear, base, files)
    ensures var n := NextMonth(here);
            Then(done + ParseLines(files[LogFileName(base, n)]).lines, fetched + [n], start, Walk(n, maxMonth, maxYear, base, files))
            == Walk(start, maxMonth, maxYear, base, files)
  {
    var n := NextMonth(here);
    WalkStep(here, maxMonth, maxYear, base, files, false);
    ThenThen(done, fetched, start, ParseLines(files[LogFileName(base, n)]).lines, [n], here, Walk(n, maxMonth, maxYear, base, files));
  }

  lemma ThenLast(a: seq<Line>, f: seq<Month>, s: Month, w: Walked)
    requires w.fetched == []
    ensures Then(a, f, s, w) == Walked(a + w.lines, if w.error.Some? then s else w.month, w.error, f)
  {
    assert f + [] == f;
  }

  lemma Assoc<T>(a: seq<T>, b: seq<T>, c: seq<T>)
    ensures a + b + c == a + (b + c)
  {
  }

  /** `update_old_logs` as the rest of the model uses it: the corrected walk. */
  function Walk(m: Month, maxMonth: int, maxYear: int, base: string, files: map<string, Reads>): Walked
    requires 1 <= m.0 <= 12 && 0 <= maxMonth <= 11
  {
    WalkFrom(m, maxMonth, maxYear, base, files, false)
  }

  /**
    * With the corrected walk no month is skipped between calls: a second call
    * picks up right after the last month the first one read, so the months
    * read by both follow each other.
    */
  lemma WalksChain(m: Month, max1: Month, max2: Month, base: string, files: map<string, Reads>)
    requires 1 <= m.0 <= 12 && 0 <= max1.0 <= 11 && 0 <= max2.0 <= 11
    requires Walk(m, max1.0, max1.1, base, files).error.None?
    ensures var w1 := Walk(m, max1.0, max1.1, base, files);
            && 1 <= w1.month.0 <= 12
            && Consecutive(m, w1.fetched + Walk(w1.month, max2.0, max2.1, base, files).fetched)
  {
    var w1 := Walk(m, max1.0, max1.1, base, files);
    WalkFacts(m, max1.0, max1.1, base, files, false);
    var w2 := Walk(w1.month, max2.0, max2.1, base, files);
    WalkFacts(w1.month, max2.0, max2.1, base, files, false);
    ConsecutiveAppend(m, w1.fetched, w2.fetched);
  }

  /** Past the bound the walk ends; as written it stores the month it stepped to. */
  lemma WalkBound(m: Month, maxMonth: int, maxYear: int, base: string, files: map<string, Reads>, asWritten: bool)
    requires 1 <= m.0 <= 12 && 0 <= maxMonth <= 11
    requires var n := NextMonth(m); n.1 >= maxYear && n.0 > maxMonth
    ensures WalkFrom(m, maxMonth, maxYear, base, files, asWritten) == Walked([], if asWritten then NextMonth(m) else m, None, [])
  {
  }

  /**
    * As written, the month stored by a call that reaches its bound was never
    * downloaded, and the next call starts after it: from April of any year on,
    * a call up to May and then a call up to July read April, May and July,
    * and June is never read although its file is there.
    */
  lemma WalkAsWrittenSkips(y: int, base: string, files: map<string, Reads>)
    requires forall k :: 4 <= k <= 7 ==> LogFileName(base, (k, y)) in files && files[LogFileName(base, (k, y))] == []
    ensures WalkFrom((3, y), 5, y, base, files, true).month == (6, y)
    ensures var w1 := WalkFrom((3, y), 5, y, base, files, true);
            var w2 := WalkFrom((6, y), 7, y, base, files, true);
            && w1.fetched + w2.fetched == [(4, y), (5, y), (7, y)]
            && LogFileName(base, (6, y)) in files
            && !Consecutive((3, y), w1.fetched + w2.fetched)
  {
    assert LogFileName(base, (4, y)) in files && files[LogFileName(base, (4, y))] == [];
    assert LogFileName(base, (5, y)) in files && files[LogFileName(base, (5, y))] == [];
    assert LogFileName(base, (6, y)) in files;
    assert LogFileName(base, (7, y)) in files && files[LogFileName(base, (7, y))] == [];
    WalkBound((5, y), 5, y, base, files, true);
    WalkStep((4, y), 5, y, base, files, true);
    WalkStep((3, y), 5, y, base, files, true);
    var w1 := WalkFrom((3, y), 5, y, base, files, true);
    assert w1 == Walked([], (6, y), None, [(4, y), (5, y)]);
    WalkBound((7, y), 7, y, base, files, true);
    WalkStep((6, y), 7, y, base, files, true);
    var w2 := WalkFrom((6, y), 7, y, base, files, true);
    assert w2 == Walked([], (8, y), None, [(7, y)]);
    var all := w1.fetched + w2.fetched;
    assert all == [(4, y), (5, y), (7, y)];
    assert !Consecutive((5, y), [(7, y)]);
    assert [(5, y), (7, y)][1..] == [(7, y)];
    assert !Consecutive((4, y), [(5, y), (7, y)]);
    assert all[1..] == [(5, y), (7, y)];
  }

  // ---------------------------------------------------------------------------
  // The class

  /**
    * `WeeelabLogs`. The current month's `log` and the `users` entries are
    * given when it is built (their download is not modelled); `oldLog` grows
    * as past months are walked. `(oldLogsMonth, oldLogsYear)` is the last
    * month fetched, April 2017 being the first month that has a log.
    */
  class WeeelabLogs {
    var log: seq<Line>
    var users: seq<UserEntry>
    var oldLog: seq<Line>
    var oldLogsMonth: int
    var oldLogsYear: int
    const logBase: string

    ghost predicate Valid()
      reads this
    {
      1 <= oldLogsMonth <= 12
    }

    constructor (logBase: string, log: seq<Line>, users: seq<UserEntry>)
      ensures Valid()
      ensures this.logBase == logBase && this.log == log && this.users == users
      ensures oldLog == [] && oldLogsMonth == 3 && oldLogsYear == 2017
    {
      this.logBase := logBase;
      this.log := log;
      this.users := users;
      oldLog := [];
      oldLogsMonth := 3;
      oldLogsYear := 2017;
    }

    /**
      * `update_old_logs(max_month, max_year)` with the stored month corrected
      * to the last one fetched. `files` stands for the server: the names it
      * can serve and their lines. A line that does not parse raises out of
      * the loop after the lines before it were appended, and the stored month
      * stays as it was.
      */
    method UpdateOldLogs(maxMonth: int, maxYear: int, files: map<string, Reads>) returns (error: Option<PyError>)
      requires Valid() && 0 <= maxMonth <= 11
      modifies this`oldLog, this`oldLogsMonth, this`oldLogsYear
      ensures Valid()
      ensures var w := Walk((old(oldLogsMonth), old(oldLogsYear)), maxMonth, maxYear, logBase, files);
              && oldLog == old(oldLog) + w.lines
              && (oldLogsMonth, oldLogsYear) == w.month
              && error == w.error
      ensures log == old(log) && users == old(users)
    {
      var month, year := oldLogsMonth, oldLogsYear;
      ghost var start := (month, year);
      ghost var done: seq<Line> := [];
      ghost var fetched: seq<Month> := [];
      while true
        invariant 1 <= month <= 12
        invariant oldLog == old(oldLog) + done
        invariant oldLogsMonth == old(oldLogsMonth) && oldLogsYear == old(oldLogsYear)
        invariant Then(done, fetched, start, Walk((month, year), maxMonth, maxYear, logBase, files))
                  == Walk(start, maxMonth, maxYear, logBase, files)
        decreases if year >= maxYear && month == 12 then 1 else 0, WalkRank((month, year), maxYear)
      {
        var here := (month, year);
        month := month + 1;
        if month >= 13 {
          month := 1;
          year := year + 1;
        }
        assert (month, year) == NextMonth(here);
        if year >= maxYear && month > maxMonth {
          // Past the bound: keep the last month fetched (the code as written keeps this one).
          month, year := here.0, here.1;
          StopAt(start, done, fetched, here, maxMonth, maxYear, logBase, files);
          break;
        }
        var name := LogFileName(logBase, (month, year));
        if name !in files {
          // The download failed: back to the month before, the last one fetched.
          month := month - 1;
          if month == 0 {
            month := 12;
            year := year - 1;
          }
          assert (month, year) == here;
          StopAt(start, done, fetched, here, maxMonth, maxYear, logBase, files);
          break;
        }
        var rows := files[name];
        var failed := AppendLines(rows);
        if failed.Some? {
          FailAt(start, done, fetched, here, maxMonth, maxYear, logBase, files);
          Assoc(old(oldLog), done, ParseLines(rows).lines);
          return failed;
        }
        StepAt(start, done, fetched, here, maxMonth, maxYear, logBase, files);
        Assoc(old(oldLog), done, ParseLines(rows).lines);
        done := done + ParseLines(rows).lines;
        fetched := fetched + [(month, year)];
      }
      oldLogsMonth, oldLogsYear := month, year;
      return None;
    }

    /**
      * The inner loop of `update_old_logs`: parses the lines of one file and
      * appends them to `oldLog`, up to the first that does not parse.
      */
    method AppendLines(rows: Reads) returns (error: Option<PyError>)
      modifies this`oldLog
      ensures oldLog == old(oldLog) + ParseLines(rows).lines && error == ParseLines(rows).error
    {
      ghost var appended: seq<Line> := [];
      for j := 0 to |rows|
        invariant oldLog == old(oldLog) + appended
        invariant ParseLines(rows[..j]) == Parsed(appended, None)
      {
        assert rows[..j + 1][..j] == rows[..j];
        var line := rows[j];
        if line.Err? {
          ParseStopsEarly(rows, j + 1);
          return Some(line.error);
        }
        oldLog := oldLog + [line.value];
        appended := appended + [line.value];
      }
      assert rows[..|rows|] == rows;
      return None;
    }

    /**
      * The loop of `count_time_user` over one list of lines: the minutes of
      * `u`, read with `dur` (the class passes `DurationMinutes`).
      */
    static method SumMinutes(lines: seq<Line>, u: string, dur: Reading) returns (r: Result<int, PyError>)
      ensures r == UserMinutes(lines, u, dur)
    {
      var sum := 0;
      for i := 0 to |lines|
        invariant UserMinutes(lines[..i], u, dur) == Ok(sum)
      {
        assert lines[..i + 1][..i] == lines[..i];
        if lines[i].username == u {
          var d := dur(lines[i]);
          if d.Err? {
            UserMinutesFailEarly(lines, u, i + 1, dur);
            return Err(d.error);
          }
          sum := sum + d.value;
        }
      }
      assert lines[..|lines|] == lines;
      return Ok(sum);
    }

    /** `count_time_user(username)`: this month's minutes and the total. */
    method CountTimeUser(username: string) returns (r: Result<(int, int), PyError>)
      ensures r == UserTime(log, oldLog, username, DurationMinutes)
    {
      var thisMonth := SumMinutes(log, username, DurationMinutes);
      if thisMonth.Err? {
        return Err(thisMonth.error);
      }
      var before := SumMinutes(oldLog, username, DurationMinutes);
      if before.Err? {
        return Err(before.error);
      }
      return Ok((thisMonth.value, thisMonth.value + before.value));
    }

    /**
      * The loop shared by `count_time_month` and `count_time_all`: adds
      * `lines` to `minutes`, reading each with `dur`.
      */
    static method AddMinutes(minutes: map<string, int>, lines: seq<Line>, dur: Reading) returns (r: Result<map<string, int>, PyError>)
      ensures r == TallyFrom(minutes, lines, dur)
    {
      var m := minutes;
      for i := 0 to |lines|
        invariant TallyFrom(minutes, lines[..i], dur) == Ok(m)
      {
        assert lines[..i + 1][..i] == lines[..i];
        var l := lines[i];
        ghost var before := m;
        if l.username !in m {
          m := m[l.username := 0];
        }
        var d := dur(l);
        if d.Err? {
          TallyFailsEarly(minutes, lines, i + 1, dur);
          return Err(d.error);
        }
        m := m[l.username := m[l.username] + d.value];
        assert m == before[l.username := Get(before, l.username) + d.value];
      }
      assert lines[..|lines|] == lines;
      return Ok(m);
    }

    /** `count_time_month()`: minutes per person this month. */
    method CountTimeMonth() returns (r: Result<map<string, int>, PyError>)
      ensures r == TallyFrom(map[], log, DurationMinutes)
    {
      r := AddMinutes(map[], log, DurationMinutes);
    }

    /** `count_time_all()`: minutes per person over this month and the old months. */
    method CountTimeAll() returns (r: Result<map<string, int>, PyError>)
      ensures r == AllTime(log, oldLog, DurationMinutes)
    {
      var month := CountTimeMonth();
      if month.Err? {
        return month;
      }
      r := AddMinutes(month.value, oldLog, DurationMinutes);
    }

    /** `get_entries_inlab()`. */
    method GetEntriesInlab() returns (names: seq<string>)
      ensures names == InlabNames(log)
    {
      names := [];
      for i := 0 to |log|
        invariant names == InlabNames(log[..i])
      {
        assert log[..i + 1][..i] == log[..i];
        if log[i].inlab {
          names := names + [log[i].username];
        }
      }
      assert log[..|log|] == log;
    }

    /** The loop of the two lookups. */
    method Find(key: string, v: string) returns (r: Result<Option<UserEntry>, PyError>)
      ensures r == FindEntry(users, key, v)
    {
      for i := 0 to |users|
        invariant FindEntry(users, key, v) == FindEntry(users[i..], key, v)
      {
        assert users[i..][1..] == users[i + 1..];
        if key !in users[i] {
          return Err(KeyError(key));
        }
        if users[i][key] == v {
          return Ok(Some(users[i]));
        }
      }
      return Ok(None);
    }

    /** `get_entry_from_tid(user_id)`: compares with `str(user_id)`. */
    method GetEntryFromTid(tid: int) returns (r: Result<Option<UserEntry>, PyError>)
      ensures r == FindEntry(users, "telegramID", IntToString(tid))
    {
      r := Find("telegramID", IntToString(tid));
    }

    /** `get_entry_from_username(username)`. */
    method GetEntryFromUsername(username: string) returns (r: Result<Option<UserEntry>, PyError>)
      ensures r == FindEntry(users, "username", username)
    {
      r := Find("username", username);
    }

    /**
      * `try_get_name_and_surname(username)`: the display name of the entry
      * with that username, or the username itself when there is none. The
      * entry found has a username, so only the search can raise.
      */
    method TryGetNameAndSurname(username: string) returns (r: Result<string, PyError>)
      ensures FindEntry(users, "username", username).Err? ==> r == Err(KeyError("username"))
      ensures FindEntry(users, "username", username) == Ok(None) ==> r == Ok(username)
      ensures FindEntry(users, "username", username).Ok? && FindEntry(users, "username", username).value.Some? ==>
                var e := FindEntry(users, "username", username).value.value;
                r.Ok? && r == NameAndSurname(e) && "username" in e && e["username"] == username
    {
      var entry := GetEntryFromUsername(username);
      if entry.Err? {
        FindEntryFirst(users, "username", username);
        return Err(entry.error);
      }
      if entry.value.Some? {
        FindEntryFirst(users, "username", username);
        return NameAndSurname(entry.value.value);
      }
      return Ok(username);
    }

    /** `try_get_id(username)`: the `telegramID` of the entry with that username, if any. */
    method TryGetId(username: string) returns (r: Result<Option<string>, PyError>)
      ensures FindEntry(users, "username", username).Err? ==> r == Err(KeyError("username"))
      ensures FindEntry(users, "username", username) == Ok(None) ==> r == Ok(None)
      ensures FindEntry(users, "username", username).Ok? && FindEntry(users, "username", username).value.Some? ==>
                var e := FindEntry(users, "username", username).value.value;
                r == (if "telegramID" in e then Ok(Some(e["telegramID"])) else Err(KeyError("telegramID")))
    {
      var entry := GetEntryFromUsername(username);
      if entry.Err? {
        FindEntryFirst(users, "username", username);
        return Err(entry.error);
      }
      if entry.value.None? {
        return Ok(None);
      }
      var e := entry.value.value;
      if "telegramID" !in e {
        return Err(KeyError("telegramID"));
      }
      return Ok(Some(e["telegramID"]));
    }
  }
}

/**
  * The bot of weeelab_bot.py: the state `BotHandler` keeps between
  * messages (the polling offset and the rotating reply to unknown
  * commands), Markdown escaping, and the pieces of `main` that compute
  * something from a command: the `/history` limit, the days `/log` prints
  * and the `/top` ranking. Sending messages and talking to Telegram are
  * not modelled; the batch Telegram returns is a parameter.
  */
module Bot {
  import opened Basics
  import opened LogLine
  import opened Logs

  // ---------------------------------------------------------------------------
  // BotHandler

  /** An update from Telegram; the model keeps its id and the message text. */
  datatype Update = Update(updateId: int, text: string)

  /** The replies to a command the bot does not know, in the order they are used. */
  const UnknownCommandMessages: seq<string> := [
    "Sorry, I didn't understand that",
    "I don't know that command, but do you know /history? It's pretty cool",
    "What? I don't understand :(",
    "Unknown command"
  ]

  /** `unknown_command_messages_last` after `k` uses of `unknown_command_message`. */
  function IndexAfter(k: nat): int {
    if k == 0 then -1 else (IndexAfter(k - 1) + 1) % |UnknownCommandMessages|
  }

  /** The `k`-th use (from 0) picks message `k mod 4`: the replies go round from the first. */
  lemma {:induction false} IndexAfterCycles(k: nat)
    ensures IndexAfter(k + 1) == k % |UnknownCommandMessages|
  {
    if k > 0 {
      IndexAfterCycles(k - 1);
    }
  }

  class BotHandler {
    var offset: Option<int>
    var unknownLast: int
    /** How many times `unknown_command_message` has been read. */
    ghost var uses: nat

    ghost predicate Valid()
      reads this
    {
      unknownLast == IndexAfter(uses) && -1 <= unknownLast < |UnknownCommandMessages|
    }

    /** `BotHandler(token)`: no offset yet, and no reply used. */
    constructor ()
      ensures Valid() && uses == 0
      ensures offset == None && unknownLast == -1
    {
      offset := None;
      unknownLast := -1;
      uses := 0;
    }

    /**
      * `unknown_command_message`: steps the index round the four replies
      * and returns the reply it lands on.
      */
    method UnknownCommandMessage() returns (msg: string)
      requires Valid()
      modifies this
      ensures Valid() && uses == old(uses) + 1
      ensures 0 <= unknownLast < |UnknownCommandMessages|
      ensures msg == UnknownCommandMessages[old(uses) % |UnknownCommandMessages|]
      ensures offset == old(offset)
    {
      unknownLast := unknownLast + 1;
      unknownLast := unknownLast % |UnknownCommandMessages|;
      uses := uses + 1;
      IndexAfterCycles(old(uses));
      msg := UnknownCommandMessages[unknownLast];
    }

    /**
      * `get_updates()`, with the batch the server returns as `batch`: after a
      * non-empty batch the next poll asks for the updates after its last.
      */
    method GetUpdates(batch: seq<Update>) returns (result: seq<Update>)
      requires Valid()
      modifies this
      ensures Valid() && uses == old(uses) && unknownLast == old(unknownLast)
      ensures result == batch
      ensures offset == if batch == [] then old(offset) else Some(batch[|batch| - 1].updateId + 1)
    {
      if |batch| > 0 {
        offset := Some(batch[|batch| - 1].updateId + 1);
      }
      return batch;
    }

    /**
      * `get_last_update()`: the last update of the batch, or `None` where
      * the code returns -1 because the batch is empty.
      */
    method GetLastUpdate(batch: seq<Update>) returns (r: Option<Update>)
      requires Valid()
      modifies this
      ensures Valid() && uses == old(uses) && unknownLast == old(unknownLast)
      ensures r.None? <==> batch == []
      ensures r.Some? ==> r.value == batch[|batch| - 1] && offset == Some(r.value.updateId + 1)
      ensures r.None? ==> offset == old(offset)
    {
      var result := GetUpdates(batch);
      if result == [] {
        return None;
      }
      return Some(result[|result| - 1]);
    }
  }

  // ---------------------------------------------------------------------------
  // escape_all

  /** `s.replace(c, rep)` for a one-character pattern: every `c` becomes `rep`. */
  function Replace(s: string, c: char, rep: string): (r: string)
    ensures c !in rep ==> c !in r
  {
    if s == [] then [] else (if s[0] == c then rep else [s[0]]) + Replace(s[1..], c, rep)
  }

  /** `escape_all`: the four replacements, one after the other. */
  function EscapeAll(s: string): string {
    Replace(Replace(Replace(Replace(s, '_', "\\_"), '*', "\\*"), '`', "\\``"), '[', "\\[")
  }

  /** What one character becomes. */
  function EscapeChar(c: char): string {
    match c
    case '_' => "\\_"
    case '*' => "\\*"
    case '`' => "\\``"
    case '[' => "\\["
    case _ => [c]
  }

  /** The escaping as one pass over the characters. */
  function Escaped(s: string): string {
    if s == [] then [] else EscapeChar(s[0]) + Escaped(s[1..])
  }

  lemma {:induction false} ReplaceAppend(a: string, b: string, c: char, rep: string)
    ensures Replace(a + b, c, rep) == Replace(a, c, rep) + Replace(b, c, rep)
  {
    if a == [] {
      assert a + b == b;
    } else {
      assert (a + b)[1..] == a[1..] + b;
      ReplaceAppend(a[1..], b, c, rep);
    }
  }

  lemma ReplaceOne(x: char, c: char, rep: string)
    ensures Replace([x], c, rep) == if x == c then rep else [x]
  {
    assert [x][1..] == [];
  }

  lemma {:induction false} ReplaceAbsent(s: string, c: char, rep: string)
    requires c !in s
    ensures Replace(s, c, rep) == s
  {
    if s != [] {
      ReplaceAbsent(s[1..], c, rep);
    }
  }

  /** The replacements applied to one character. */
  lemma EscapeOne(x: char)
    ensures Replace(Replace(Replace(Replace([x], '_', "\\_"), '*', "\\*"), '`', "\\``"), '[', "\\[") == EscapeChar(x)
  {
    ReplaceOne(x, '_', "\\_");
    var a := Replace([x], '_', "\\_");
    if x == '*' { ReplaceOne(x, '*', "\\*"); } else { ReplaceAbsent(a, '*', "\\*"); }
    var b := Replace(a, '*', "\\*");
    if x == '`' { ReplaceOne(x, '`', "\\``"); } else { ReplaceAbsent(b, '`', "\\``"); }
    var c := Replace(b, '`', "\\``");
    if x == '[' { ReplaceOne(x, '[', "\\["); } else { ReplaceAbsent(c, '[', "\\["); }
  }

  /** Replacing one character after another is one pass that escapes each character. */
  lemma {:induction false} EscapeAllIsEscaped(s: string)
    ensures EscapeAll(s) == Escaped(s)
  {
    if s != [] {
      var x, rest := s[0], s[1..];
      assert s == [x] + rest;
      ReplaceAppend([x], rest, '_', "\\_");
      ReplaceAppend(Replace([x], '_', "\\_"), Replace(rest, '_', "\\_"), '*', "\\*");
      ReplaceAppend(Replace(Replace([x], '_', "\\_"), '*', "\\*"), Replace(Replace(rest, '_', "\\_"), '*', "\\*"), '`', "\\``");
      ReplaceAppend(Replace(Replace(Replace([x], '_', "\\_"), '*', "\\*"), '`', "\\``"),
                    Replace(Replace(Replace(rest, '_', "\\_"), '*', "\\*"), '`', "\\``"), '[', "\\[");
      EscapeOne(x);
      EscapeAllIsEscaped(rest);
    }
  }

  /** Each of `_`, `*` and `[` gains a backslash, and a backtick gains two characters. */
  lemma {:induction false} EscapedLength(s: string)
    ensures |Escaped(s)| == |s| + Count(s, '_') + Count(s, '*') + 2 * Count(s, '`') + Count(s, '[')
  {
    if s != [] {
      EscapedLength(s[1..]);
    }
  }

  /** The length of `escape_all(s)`. */
  lemma EscapeAllLength(s: string)
    ensures |EscapeAll(s)| == |s| + Count(s, '_') + Count(s, '*') + 2 * Count(s, '`') + Count(s, '[')
  {
    EscapeAllIsEscaped(s);
    EscapedLength(s);
  }

  // ---------------------------------------------------------------------------
  // /history

  /**
    * The limit of `/history <item> [n]` (the command has at least two words
    * here): 6 without `n`, else `int(n)` clamped into 1..50; a word `int`
    * cannot read raises `ValueError`.
    */
  function HistoryLimit(command: seq<string>): (r: Result<int, PyError>)
    ensures r.Ok? ==> 1 <= r.value <= 50
    ensures |command| < 3 ==> r == Ok(6)
    ensures |command| >= 3 ==> (r.Err? <==> ParseInt(command[2]).None?)
    ensures r.Err? ==> r.error == ValueError
  {
    if |command| < 3 then Ok(6)
    else match ParseInt(command[2])
      case None => Err(ValueError)
      case Some(n) => Ok(if n < 1 then 1 else if n > 50 then 50 else n)
  }

  /** A number in 1..50 is the limit itself; below or above, the nearer bound. */
  lemma HistoryLimitOfNumber(item: string, n: int)
    ensures var r := HistoryLimit(["/history", item, IntToString(n)]);
            && (1 <= n <= 50 ==> r == Ok(n))
            && (n < 1 ==> r == Ok(1))
            && (n > 50 ==> r == Ok(50))
  {
    ParseIntOfIntToString(n);
  }

  // ---------------------------------------------------------------------------
  // /log

  /** `s.isdigit()` for ASCII digits: non-empty and all digits. */
  predicate IsDigitWord(s: string) {
    s != [] && AllDigits(s)
  }

  /** `days_to_print` of `/log [n | all]`: `n`, 31 for `all`, else 1. */
  function DaysToPrint(command: seq<string>): (d: int)
    ensures d >= 0
    ensures (|command| <= 1 || (!IsDigitWord(command[1]) && command[1] != "all")) ==> d == 1
  {
    if |command| > 1 && IsDigitWord(command[1]) then DigitsValue(command[1])
    else if |command| > 1 && command[1] == "all" then 31
    else 1
  }

  /** `/log n` prints `n` days, `/log all` 31, and `/log` one. */
  lemma DaysToPrintOf(n: nat)
    ensures DaysToPrint(["/log", NatToString(n)]) == n
    ensures DaysToPrint(["/log", "all"]) == 31
    ensures DaysToPrint(["/log"]) == 1
  {
    DigitsValueOfNatToString(n);
    assert !IsDigitWord("all") by {
      assert !IsDigit("all"[0]);
    }
  }

  /** The lines of one day, newest first, as `days[this_day]` collects them. */
  datatype DayLines = DayLines(day: string, lines: seq<Line>)

  /**
    * How the day of a line is read. The bot reads it with `Day`; the
    * properties of the grouping hold whatever the reading.
    */
  type DayOf = Line -> string

  /** Where `day` is among the groups, or `|groups|` if it is not: `this_day in days`. */
  function FindDay(groups: seq<DayLines>, day: string): (i: nat)
    ensures i <= |groups|
    ensures i < |groups| ==> groups[i].day == day
    ensures i == |groups| ==> forall j :: 0 <= j < |groups| ==> groups[j].day != day
  {
    if groups == [] then 0
    else if groups[0].day == day then 0
    else 1 + FindDay(groups[1..], day)
  }

  /**
    * One pass of the `/log` loop: the line joins its day, or opens a new day
    * unless `limit` days are open already, where the loop breaks (`None`).
    */
  function AddLine(groups: seq<DayLines>, l: Line, limit: int, dayOf: DayOf): Option<seq<DayLines>> {
    var i := FindDay(groups, dayOf(l));
    if i < |groups| then Some(groups[i := DayLines(groups[i].day, groups[i].lines + [l])])
    else if |groups| >= limit then None
    else Some(groups + [DayLines(dayOf(l), [l])])
  }

  /** The loop from `groups` over `lines`. */
  function GroupFrom(groups: seq<DayLines>, lines: seq<Line>, limit: int, dayOf: DayOf): seq<DayLines>
    decreases |lines|
  {
    if lines == [] then groups
    else match AddLine(groups, lines[0], limit, dayOf)
      case None => groups
      case Some(g) => GroupFrom(g, lines[1..], limit, dayOf)
  }

  /** How many of `lines` the loop takes before it breaks. */
  function TakenFrom(groups: seq<DayLines>, lines: seq<Line>, limit: int, dayOf: DayOf): (k: nat)
    ensures k <= |lines|
    decreases |lines|
  {
    if lines == [] then 0
    else match AddLine(groups, lines[0], limit, dayOf)
      case None => 0
      case Some(g) => 1 + TakenFrom(g, lines[1..], limit, dayOf)
  }

  /** `log` newest first: `reversed(log)`. */
  function Reversed(log: seq<Line>): (r: seq<Line>)
    ensures |r| == |log|
    ensures forall i :: 0 <= i < |log| ==> r[i] == log[|log| - 1 - i]
  {
    if log == [] then [] else [log[|log| - 1]] + Reversed(log[..|log| - 1])
  }

  /** The days `/log` prints: the loop over `reversed(log)` from no days. */
  function Grouped(log: seq<Line>, limit: int, dayOf: DayOf): seq<DayLines> {
    GroupFrom([], Reversed(log), limit, dayOf)
  }

  /** The lines of `lines` on `day`, in order. */
  function OnDay(lines: seq<Line>, day: string, dayOf: DayOf): seq<Line>
    decreases |lines|
  {
    if lines == [] then []
    else OnDay(lines[..|lines| - 1], day, dayOf) + (if dayOf(lines[|lines| - 1]) == day then [lines[|lines| - 1]] else [])
  }

  /**
    * The days of `seen` in the order each first appears, each once: the
    * order in which `days` gains its keys.
    */
  function DaysInOrder(seen: seq<Line>, dayOf: DayOf): seq<string>
    decreases |seen|
  {
    if seen == [] then []
    else
      var before := DaysInOrder(seen[..|seen| - 1], dayOf);
      var d := dayOf(seen[|seen| - 1]);
      if d in before then before else before + [d]
  }

  /** Each day of `seen` is listed, once, and nothing else is. */
  lemma {:induction false} DaysInOrderListsDays(seen: seq<Line>, dayOf: DayOf)
    ensures forall d :: d in DaysInOrder(seen, dayOf) <==> exists k :: 0 <= k < |seen| && dayOf(seen[k]) == d
    ensures forall i, j :: 0 <= i < j < |DaysInOrder(seen, dayOf)| ==> DaysInOrder(seen, dayOf)[i] != DaysInOrder(seen, dayOf)[j]
    decreases |seen|
  {
    if seen != [] {
      var init := seen[..|seen| - 1];
      var before := DaysInOrder(init, dayOf);
      var last := dayOf(seen[|seen| - 1]);
      var r := DaysInOrder(seen, dayOf);
      assert r == if last in before then before else before + [last];
      DaysInOrderListsDays(init, dayOf);
      forall i, j | 0 <= i < j < |r|
        ensures r[i] != r[j]
      {
        if j < |before| {
          assert r[i] == before[i] && r[j] == before[j];
        } else {
          assert r[i] == before[i] && r[j] == last && before[i] in before;
        }
      }
      forall d | (exists k :: 0 <= k < |seen| && dayOf(seen[k]) == d)
        ensures d in r
      {
        var k :| 0 <= k < |seen| && dayOf(seen[k]) == d;
        if k < |init| {
          assert init[k] == seen[k];
        }
      }
      forall d | d in r
        ensures exists k :: 0 <= k < |seen| && dayOf(seen[k]) == d
      {
        if d in before {
          var k :| 0 <= k < |init| && dayOf(init[k]) == d;
          assert seen[k] == init[k];
        } else {
          assert dayOf(seen[|seen| - 1]) == d;
        }
      }
    }
  }

  /** The days of the groups, in order. */
  function DaysOf(groups: seq<DayLines>): (r: seq<string>)
    ensures |r| == |groups| && forall i :: 0 <= i < |groups| ==> r[i] == groups[i].day
  {
    seq(|groups|, i requires 0 <= i < |groups| => groups[i].day)
  }

  /** No day is opened twice. */
  ghost predicate DistinctDays(groups: seq<DayLines>) {
    forall i, j :: 0 <= i < j < |groups| ==> groups[i].day != groups[j].day
  }

  /** Each day holds the lines of `seen` on it, in the order seen. */
  ghost predicate Collects(groups: seq<DayLines>, seen: seq<Line>, dayOf: DayOf) {
    forall i :: 0 <= i < |groups| ==> groups[i].lines == OnDay(seen, groups[i].day, dayOf)
  }

  /** The day of each line of `seen` is open. */
  ghost predicate Covers(groups: seq<DayLines>, seen: seq<Line>, dayOf: DayOf) {
    forall k :: 0 <= k < |seen| ==> FindDay(groups, dayOf(seen[k])) < |groups|
  }

  /**
    * The groups are exactly those of `seen`: distinct days, no more than
    * `limit`, each holding the lines seen on it, every line seen in one.
    */
  ghost predicate GroupsOf(groups: seq<DayLines>, seen: seq<Line>, limit: int, dayOf: DayOf) {
    |groups| <= limit && DistinctDays(groups) && Collects(groups, seen, dayOf) && Covers(groups, seen, dayOf)
  }

  lemma {:induction false} OnDayNone(seen: seq<Line>, day: string, dayOf: DayOf)
    requires forall k :: 0 <= k < |seen| ==> dayOf(seen[k]) != day
    ensures OnDay(seen, day, dayOf) == []
    decreases |seen|
  {
    if seen != [] {
      OnDayNone(seen[..|seen| - 1], day, dayOf);
    }
  }

  lemma OnDayAppend(seen: seq<Line>, l: Line, day: string, dayOf: DayOf)
    ensures OnDay(seen + [l], day, dayOf) == OnDay(seen, day, dayOf) + (if dayOf(l) == day then [l] else [])
  {
    assert (seen + [l])[..|seen|] == seen;
  }

  lemma AddLineDistinct(groups: seq<DayLines>, l: Line, limit: int, dayOf: DayOf)
    requires |groups| <= limit && DistinctDays(groups)
    requires AddLine(groups, l, limit, dayOf).Some?
    ensures var g := AddLine(groups, l, limit, dayOf).value; |g| <= limit && DistinctDays(g)
  {
  }

  lemma AddLineCollects(groups: seq<DayLines>, seen: seq<Line>, l: Line, limit: int, dayOf: DayOf)
    requires DistinctDays(groups) && Collects(groups, seen, dayOf) && Covers(groups, seen, dayOf)
    requires AddLine(groups, l, limit, dayOf).Some?
    ensures Collects(AddLine(groups, l, limit, dayOf).value, seen + [l], dayOf)
  {
    var i := FindDay(groups, dayOf(l));
    var g := AddLine(groups, l, limit, dayOf).value;
    forall m | 0 <= m < |g|
      ensures g[m].lines == OnDay(seen + [l], g[m].day, dayOf)
    {
      OnDayAppend(seen, l, g[m].day, dayOf);
      if m == |groups| {
        forall k | 0 <= k < |seen|
          ensures dayOf(seen[k]) != dayOf(l)
        {
          assert FindDay(groups, dayOf(seen[k])) < |groups|;
        }
        OnDayNone(seen, dayOf(l), dayOf);
      } else if m != i {
        assert g[m] == groups[m];
        assert i < |groups| ==> groups[m].day != groups[i].day;
      }
    }
  }

  lemma AddLineDays(groups: seq<DayLines>, seen: seq<Line>, l: Line, limit: int, dayOf: DayOf)
    requires DaysOf(groups) == DaysInOrder(seen, dayOf)
    requires AddLine(groups, l, limit, dayOf).Some?
    ensures DaysOf(AddLine(groups, l, limit, dayOf).value) == DaysInOrder(seen + [l], dayOf)
  {
    var i := FindDay(groups, dayOf(l));
    var g := AddLine(groups, l, limit, dayOf).value;
    assert (seen + [l])[..|seen|] == seen;
    if i < |groups| {
      assert DaysOf(groups)[i] == dayOf(l);
      assert DaysOf(g) == DaysOf(groups);
    } else {
      assert dayOf(l) !in DaysOf(groups);
      assert DaysOf(g) == DaysOf(groups) + [dayOf(l)];
    }
  }

  lemma AddLineCovers(groups: seq<DayLines>, seen: seq<Line>, l: Line, limit: int, dayOf: DayOf)
    requires Covers(groups, seen, dayOf)
    requires AddLine(groups, l, limit, dayOf).Some?
    ensures Covers(AddLine(groups, l, limit, dayOf).value, seen + [l], dayOf)
  {
    var g := AddLine(groups, l, limit, dayOf).value;
    var seen' := seen + [l];
    forall k | 0 <= k < |seen'|
      ensures FindDay(g, dayOf(seen'[k])) < |g|
    {
      if k < |seen| {
        assert seen'[k] == seen[k];
        assert g[FindDay(groups, dayOf(seen[k]))].day == dayOf(seen[k]);
      } else {
        assert g[FindDay(groups, dayOf(l))].day == dayOf(l);
      }
    }
  }

  // The loop from line `j` of `all`, with the groups of the lines before it,
  // keeps each part of `GroupsOf` up to the line where it stops.

  lemma {:induction false} GroupFromDistinct(groups: seq<DayLines>, all: seq<Line>, j: nat, limit: int, dayOf: DayOf)
    requires j <= |all| && |groups| <= limit && DistinctDays(groups)
    ensures var g := GroupFrom(groups, all[j..], limit, dayOf); |g| <= limit && DistinctDays(g)
    decreases |all| - j
  {
    if j < |all| && AddLine(groups, all[j], limit, dayOf).Some? {
      var g := AddLine(groups, all[j], limit, dayOf).value;
      assert all[j..][0] == all[j] && all[j..][1..] == all[j + 1..];
      AddLineDistinct(groups, all[j], limit, dayOf);
      GroupFromDistinct(g, all, j + 1, limit, dayOf);
    }
  }

  lemma {:induction false} GroupFromCovers(groups: seq<DayLines>, all: seq<Line>, j: nat, limit: int, dayOf: DayOf)
    requires j <= |all| && Covers(groups, all[..j], dayOf)
    ensures Covers(GroupFrom(groups, all[j..], limit, dayOf), all[..j + TakenFrom(groups, all[j..], limit, dayOf)], dayOf)
    decreases |all| - j
  {
    if j < |all| && AddLine(groups, all[j], limit, dayOf).Some? {
      var g := AddLine(groups, all[j], limit, dayOf).value;
      assert all[j..][0] == all[j] && all[j..][1..] == all[j + 1..];
      assert all[..j] + [all[j]] == all[..j + 1];
      AddLineCovers(groups, all[..j], all[j], limit, dayOf);
      GroupFromCovers(g, all, j + 1, limit, dayOf);
    }
  }

  lemma {:induction false} GroupFromCollects(groups: seq<DayLines>, all: seq<Line>, j: nat, limit: int, dayOf: DayOf)
    requires j <= |all| && |groups| <= limit && DistinctDays(groups)
    requires Collects(groups, all[..j], dayOf) && Covers(groups, all[..j], dayOf)
    ensures Collects(GroupFrom(groups, all[j..], limit, dayOf), all[..j + TakenFrom(groups, all[j..], limit, dayOf)], dayOf)
    decreases |all| - j
  {
    if j < |all| && AddLine(groups, all[j], limit, dayOf).Some? {
      var g := AddLine(groups, all[j], limit, dayOf).value;
      assert all[j..][0] == all[j] && all[j..][1..] == all[j + 1..];
      assert all[..j] + [all[j]] == all[..j + 1];
      AddLineDistinct(groups, all[j], limit, dayOf);
      AddLineCovers(groups, all[..j], all[j], limit, dayOf);
      AddLineCollects(groups, all[..j], all[j], limit, dayOf);
      GroupFromCollects(g, all, j + 1, limit, dayOf);
    }
  }

  lemma {:induction false} GroupFromDays(groups: seq<DayLines>, all: seq<Line>, j: nat, limit: int, dayOf: DayOf)
    requires j <= |all| && DaysOf(groups) == DaysInOrder(all[..j], dayOf)
    ensures DaysOf(GroupFrom(groups, all[j..], limit, dayOf)) == DaysInOrder(all[..j + TakenFrom(groups, all[j..], limit, dayOf)], dayOf)
    decreases |all| - j
  {
    if j < |all| && AddLine(groups, all[j], limit, dayOf).Some? {
      var g := AddLine(groups, all[j], limit, dayOf).value;
      assert all[j..][0] == all[j] && all[j..][1..] == all[j + 1..];
      assert all[..j] + [all[j]] == all[..j + 1];
      AddLineDays(groups, all[..j], all[j], limit, dayOf);
      GroupFromDays(g, all, j + 1, limit, dayOf);
    }
  }

  lemma {:induction false} GroupFromStops(groups: seq<DayLines>, all: seq<Line>, j: nat, limit: int, dayOf: DayOf)
    requires j <= |all| && |groups| <= limit
    ensures var k := j + TakenFrom(groups, all[j..], limit, dayOf);
            var g := GroupFrom(groups, all[j..], limit, dayOf);
            k < |all| ==> |g| == limit && FindDay(g, dayOf(all[k])) == |g|
    decreases |all| - j
  {
    if j < |all| && AddLine(groups, all[j], limit, dayOf).Some? {
      var g := AddLine(groups, all[j], limit, dayOf).value;
      assert all[j..][0] == all[j] && all[j..][1..] == all[j + 1..];
      GroupFromStops(g, all, j + 1, limit, dayOf);
    }
  }

  /**
    * What `/log` prints with a limit of `limit` days: the newest lines of
    * the log up to the first line of a day past the limit, grouped by day
    * (no more than `limit` days, in the order each first appears among the
    * newest lines, so newest day first and none without a line, each with
    * its lines newest first). A line is left out only when `limit` days are
    * open and its day is not one of them.
    */
  lemma GroupedLog(log: seq<Line>, limit: int, dayOf: DayOf)
    requires limit >= 0
    ensures var newest := Reversed(log);
            var k := TakenFrom([], newest, limit, dayOf);
            var g := Grouped(log, limit, dayOf);
            && GroupsOf(g, newest[..k], limit, dayOf)
            && DaysOf(g) == DaysInOrder(newest[..k], dayOf)
            && (k < |log| ==> |g| == limit && FindDay(g, dayOf(newest[k])) == |g|)
  {
    var newest := Reversed(log);
    assert newest[0..] == newest && newest[..0] == [];
    GroupFromDistinct([], newest, 0, limit, dayOf);
    GroupFromCovers([], newest, 0, limit, dayOf);
    GroupFromCollects([], newest, 0, limit, dayOf);
    GroupFromStops([], newest, 0, limit, dayOf);
    GroupFromDays([], newest, 0, limit, dayOf);
  }

  /**
    * The loop of `/log` over `reversed(logs.log)` building `days`; a dict
    * keeps its keys in insertion order, as the sequence of days does. The
    * rows keep the line; the text printed for it is not modelled.
    */
  method GroupLog(log: seq<Line>, limit: int) returns (days: seq<DayLines>)
    ensures days == Grouped(log, limit, Day)
  {
    ghost var newest := Reversed(log);
    days := [];
    var j := 0;
    while j < |log|
      invariant 0 <= j <= |log|
      invariant GroupFrom(days, newest[j..], limit, Day) == Grouped(log, limit, Day)
    {
      var line := log[|log| - 1 - j];
      assert newest[j..][0] == line && newest[j..][1..] == newest[j + 1..];
      ghost var before := days;
      var thisDay := Day(line);
      var i := FindDay(days, thisDay);
      if i == |days| {
        if |days| >= limit {
          assert AddLine(before, line, limit, Day).None?;
          break;
        }
        days := days + [DayLines(thisDay, [])];
      }
      days := days[i := DayLines(days[i].day, days[i].lines + [line])];
      if i == |before| {
        assert [] + [line] == [line];
        assert days == before + [DayLines(thisDay, [line])];
      }
      assert AddLine(before, line, limit, Day) == Some(days);
      j := j + 1;
    }
    assert j == |log| ==> newest[j..] == [];
  }

  // ---------------------------------------------------------------------------
  // /top

  /** An item of the minutes dict: a username and its minutes. */
  type Item = (string, int)

  /** Minutes never increase along `xs`. */
  predicate Descending(xs: seq<Item>) {
    forall i, j :: 0 <= i < j < |xs| ==> xs[i].1 >= xs[j].1
  }

  /** The items of `xs` with `k` minutes, in order. */
  function WithMinutes(xs: seq<Item>, k: int): seq<Item> {
    if xs == [] then [] else (if xs[0].1 == k then [xs[0]] else []) + WithMinutes(xs[1..], k)
  }

  /** `x` placed before the first item with no more minutes than it. */
  function InsertDescending(x: Item, ys: seq<Item>): (r: seq<Item>)
    requires Descending(ys)
    ensures Descending(r)
    ensures |r| == |ys| + 1 && (r[0] == x || (ys != [] && r[0] == ys[0]))
  {
    if ys == [] || ys[0].1 <= x.1 then [x] + ys
    else [ys[0]] + InsertDescending(x, ys[1..])
  }

  /**
    * `sorted(rank.items(), key=lambda x: x[1], reverse=True)`: by minutes,
    * most first; `reverse=True` keeps items with equal minutes in their
    * order, as Python's sort is stable.
    */
  function SortDescending(xs: seq<Item>): (r: seq<Item>)
    ensures Descending(r) && |r| == |xs|
  {
    if xs == [] then [] else InsertDescending(xs[0], SortDescending(xs[1..]))
  }

  lemma {:induction false} InsertPermutes(x: Item, ys: seq<Item>)
    requires Descending(ys)
    ensures multiset(InsertDescending(x, ys)) == multiset(ys) + multiset{x}
    decreases |ys|
  {
    if ys != [] && ys[0].1 > x.1 {
      InsertPermutes(x, ys[1..]);
      assert ys == [ys[0]] + ys[1..];
    }
  }

  /** The sort only reorders the items. */
  lemma {:induction false} SortPermutes(xs: seq<Item>)
    ensures multiset(SortDescending(xs)) == multiset(xs)
  {
    if xs != [] {
      var rest := SortDescending(xs[1..]);
      assert SortDescending(xs) == InsertDescending(xs[0], rest);
      SortPermutes(xs[1..]);
      InsertPermutes(xs[0], rest);
      MultisetCons(xs);
    }
  }

  lemma MultisetCons(xs: seq<Item>)
    requires xs != []
    ensures multiset(xs) == multiset(xs[1..]) + multiset{xs[0]}
  {
    assert xs == [xs[0]] + xs[1..];
  }

  lemma {:induction false} InsertKeepsOrder(x: Item, ys: seq<Item>, k: int)
    requires Descending(ys)
    ensures WithMinutes(InsertDescending(x, ys), k) == WithMinutes([x], k) + WithMinutes(ys, k)
    decreases |ys|
  {
    assert [x][1..] == [];
    if ys == [] || ys[0].1 <= x.1 {
      var r := [x] + ys;
      assert r[1..] == ys;
    } else {
      InsertKeepsOrder(x, ys[1..], k);
      var r := [ys[0]] + InsertDescending(x, ys[1..]);
      assert r[1..] == InsertDescending(x, ys[1..]);
      if x.1 == k {
        assert WithMinutes(ys, k) == WithMinutes(ys[1..], k);
      }
    }
  }

  /** The sort is stable: the items with equal minutes keep their order. */
  lemma {:induction false} SortIsStable(xs: seq<Item>, k: int)
    ensures WithMinutes(SortDescending(xs), k) == WithMinutes(xs, k)
  {
    if xs != [] {
      var rest := SortDescending(xs[1..]);
      assert SortDescending(xs) == InsertDescending(xs[0], rest);
      SortIsStable(xs[1..], k);
      InsertKeepsOrder(xs[0], rest, k);
      WithMinutesCons(xs, k);
    }
  }

  lemma WithMinutesCons(xs: seq<Item>, k: int)
    requires xs != []
    ensures WithMinutes(xs, k) == WithMinutes([xs[0]], k) + WithMinutes(xs[1..], k)
  {
    var head: seq<Item> := if xs[0].1 == k then [xs[0]] else [];
    assert [xs[0]][1..] == [];
    assert WithMinutes([xs[0]], k) == head + WithMinutes([], k);
    assert head + [] == head;
  }

  /** A line of the `/top` list: position, username, minutes, and whether it is bold. */
  datatype Ranked = Ranked(position: int, username: string, minutes: int, bold: bool)

  /** How a username's users.json entry is found: `get_entry_from_username`. */
  type Finder = string -> Result<Option<UserEntry>, PyError>

  /**
    * The loop of `/top` from the lines printed so far, `out`: a username
    * without an entry is skipped and takes no position; an entry of level
    * 1 or 2 (read as text) is printed in bold. A failing lookup or an entry
    * without `level` raises `KeyError`.
    */
  function NumberFrom(out: seq<Ranked>, rank: seq<Item>, find: Finder): Result<seq<Ranked>, PyError>
    decreases |rank|
  {
    if rank == [] then Ok(out)
    else match find(rank[0].0)
      case Err(e) => Err(e)
      case Ok(None) => NumberFrom(out, rank[1..], find)
      case Ok(Some(e)) =>
        if "level" !in e then Err(KeyError("level"))
        else NumberFrom(out + [Ranked(|out| + 1, rank[0].0, rank[0].1, e["level"] == "1" || e["level"] == "2")], rank[1..], find)
  }

  /** The items of `rank` whose username has an entry. */
  function Listed(rank: seq<Item>, find: Finder): seq<Item> {
    if rank == [] then []
    else (if find(rank[0].0).Ok? && find(rank[0].0).value.Some? then [rank[0]] else []) + Listed(rank[1..], find)
  }

  /** The positions and items of `/top`'s lines. */
  ghost predicate Numbering(out: seq<Ranked>, items: seq<Item>) {
    && |out| == |items|
    && forall i :: 0 <= i < |out| ==> out[i].position == i + 1 && (out[i].username, out[i].minutes) == items[i]
  }

  lemma NumberingAppend(out: seq<Ranked>, done: seq<Item>, r: Ranked, x: Item)
    requires Numbering(out, done)
    requires r.position == |out| + 1 && (r.username, r.minutes) == x
    ensures Numbering(out + [r], done + [x])
  {
  }

  lemma {:induction false} NumberFromLists(out: seq<Ranked>, done: seq<Item>, rank: seq<Item>, find: Finder)
    requires Numbering(out, done)
    requires NumberFrom(out, rank, find).Ok?
    ensures Numbering(NumberFrom(out, rank, find).value, done + Listed(rank, find))
    decreases |rank|
  {
    if rank == [] {
      assert done + [] == done;
    } else {
      var f := find(rank[0].0);
      if f.Ok? && f.value.Some? {
        var e := f.value.value;
        var r := Ranked(|out| + 1, rank[0].0, rank[0].1, e["level"] == "1" || e["level"] == "2");
        assert NumberFrom(out, rank, find) == NumberFrom(out + [r], rank[1..], find);
        NumberingAppend(out, done, r, rank[0]);
        NumberFromLists(out + [r], done + [rank[0]], rank[1..], find);
        assert Listed(rank, find) == [rank[0]] + Listed(rank[1..], find);
        assert done + [rank[0]] + Listed(rank[1..], find) == done + Listed(rank, find);
      } else {
        assert NumberFrom(out, rank, find) == NumberFrom(out, rank[1..], find);
        assert Listed(rank, find) == Listed(rank[1..], find);
        NumberFromLists(out, done, rank[1..], find);
      }
    }
  }

  /** The `/top` list of a ranking. */
  function TopList(rank: seq<Item>, find: Finder): Result<seq<Ranked>, PyError> {
    NumberFrom([], rank, find)
  }

  lemma {:induction false} ListedBounded(rank: seq<Item>, find: Finder, b: int)
    requires forall i :: 0 <= i < |rank| ==> rank[i].1 <= b
    ensures forall i :: 0 <= i < |Listed(rank, find)| ==> Listed(rank, find)[i].1 <= b
  {
    if rank != [] {
      ListedBounded(rank[1..], find, b);
    }
  }

  lemma {:induction false} ListedDescending(rank: seq<Item>, find: Finder)
    requires Descending(rank)
    ensures Descending(Listed(rank, find))
  {
    if rank != [] {
      ListedDescending(rank[1..], find);
      ListedBounded(rank[1..], find, rank[0].1);
    }
  }

  lemma {:induction false} ListedFrom(rank: seq<Item>, find: Finder)
    ensures multiset(Listed(rank, find)) <= multiset(rank)
  {
    if rank != [] {
      ListedFrom(rank[1..], find);
      assert rank == [rank[0]] + rank[1..];
    }
  }

  /**
    * The `/top` list, when it is printed, numbers from 1 without gaps the
    * ranked usernames that have an entry, in ranked order, so minutes never
    * increase down the list, and each line is an item of the minutes dict.
    */
  lemma TopListRanks(items: seq<Item>, find: Finder)
    requires TopList(SortDescending(items), find).Ok?
    ensures var out := TopList(SortDescending(items), find).value;
            && Numbering(out, Listed(SortDescending(items), find))
            && (forall i, j :: 0 <= i < j < |out| ==> out[i].minutes >= out[j].minutes)
            && multiset(Listed(SortDescending(items), find)) <= multiset(items)
  {
    var rank := SortDescending(items);
    NumberFromLists([], [], rank, find);
    assert [] + Listed(rank, find) == Listed(rank, find);
    ListedDescending(rank, find);
    ListedFrom(rank, find);
    SortPermutes(items);
  }

  /**
    * The ranking of `/top`: `items` is the minutes dict's items in its
    * order, sorted and then numbered as the loop does.
    */
  method Top(logs: WeeelabLogs, items: seq<Item>) returns (r: Result<seq<Ranked>, PyError>)
    ensures var users := logs.users;
            r == TopList(SortDescending(items), u => FindEntry(users, "username", u))
  {
    ghost var users := logs.users;
    ghost var find: Finder := u => FindEntry(users, "username", u);
    var rank := SortDescending(items);
    var out: seq<Ranked> := [];
    var n := 0;
    for i := 0 to |rank|
      invariant n == |out|
      invariant NumberFrom(out, rank[i..], find) == TopList(rank, find)
    {
      assert rank[i..][0] == rank[i] && rank[i..][1..] == rank[i + 1..];
      var rival := rank[i].0;
      var entry := logs.GetEntryFromUsername(rival);
      assert entry == find(rival);
      if entry.Err? {
        return Err(entry.error);
      }
      if entry.value.Some? {
        n := n + 1;
        var e := entry.value.value;
        if "level" !in e {
          return Err(KeyError("level"));
        }
        out := out + [Ranked(n, rival, rank[i].1, e["level"] == "1" || e["level"] == "2")];
      }
    }
    return Ok(out);
  }
}

/**
  * `ToLab` of ToLab.py: the list of people who announced, with `/tolab`,
  * when they are going to the lab. Times are whole minutes on the local
  * clock, minute 0 being midnight of day 0, so a day is 1440 minutes and the
  * date of a time is its minute divided by 1440. The list lives in memory
  * and is written back to the cloud storage after each change.
  */
module ToLab {
  import opened Basics

  const DayMinutes: int := 1440

  /** Announcements more than this many minutes old are dropped. */
  const ExpiryMinutes: int := 30

  /** One announcement: the dictionary with `username`, `telegramID` and `tolab`. */
  datatype Entry = Entry(username: string, telegramId: int, tolab: int)

  // ---------------------------------------------------------------------------
  // Filtering, as the `keep` loops of `_delete_user` and `check_tolab` do it

  /** The entries of `es` that satisfy `p`, in their order in `es`. */
  function Filter(es: seq<Entry>, p: Entry -> bool): (r: seq<Entry>)
    ensures |r| <= |es|
  {
    if es == [] then []
    else Filter(es[..|es| - 1], p) + (if p(es[|es| - 1]) then [es[|es| - 1]] else [])
  }

  /** An entry survives the filter exactly when it was there and satisfies `p`. */
  lemma {:induction false} FilterMembers(es: seq<Entry>, p: Entry -> bool)
    ensures forall e :: e in Filter(es, p) <==> e in es && p(e)
  {
    if es != [] {
      FilterMembers(es[..|es| - 1], p);
      assert es == es[..|es| - 1] + [es[|es| - 1]];
    }
  }

  /** Filtering a concatenation filters each part: the survivors keep their relative order. */
  lemma {:induction false} FilterConcat(a: seq<Entry>, b: seq<Entry>, p: Entry -> bool)
    ensures Filter(a + b, p) == Filter(a, p) + Filter(b, p)
    decreases |b|
  {
    if b == [] {
      assert a + b == a;
    } else {
      assert (a + b)[..|a + b| - 1] == a + b[..|b| - 1];
      FilterConcat(a, b[..|b| - 1], p);
    }
  }

  /** Nothing is removed exactly when every entry satisfies `p`, and then the length is kept. */
  lemma {:induction false} FilterKeepsAll(es: seq<Entry>, p: Entry -> bool)
    ensures Filter(es, p) == es <==> forall i :: 0 <= i < |es| ==> p(es[i])
    ensures Filter(es, p) == es <==> |Filter(es, p)| == |es|
  {
    if es != [] {
      var init := es[..|es| - 1];
      FilterKeepsAll(init, p);
      assert es == init + [es[|es| - 1]];
      if Filter(es, p) == es {
        assert Filter(init, p) == init by {
          if !p(es[|es| - 1]) {
            assert false;
          }
          assert Filter(es, p) == Filter(init, p) + [es[|es| - 1]];
          assert Filter(init, p) == Filter(es, p)[..|es| - 1];
        }
      }
    }
  }

  /** Filtering twice with the same test removes nothing more. */
  lemma {:induction false} FilterIdempotent(es: seq<Entry>, p: Entry -> bool)
    ensures Filter(Filter(es, p), p) == Filter(es, p)
  {
    FilterMembers(es, p);
    var r := Filter(es, p);
    assert forall i :: 0 <= i < |r| ==> r[i] in r;
    FilterKeepsAll(r, p);
  }

  // ---------------------------------------------------------------------------
  // `_delete_user` and `set_entry` on values

  /** The test of `_delete_user(t)`: `entry["telegramID"] != telegram_id`. */
  function NotUser(t: int): Entry -> bool {
    (e: Entry) => e.telegramId != t
  }

  /** `_delete_user(t)` removes exactly the entries of `t` and keeps the others. */
  lemma DeleteUserExact(es: seq<Entry>, t: int)
    ensures forall e :: e in Filter(es, NotUser(t)) <==> e in es && e.telegramId != t
    ensures (forall i :: 0 <= i < |es| ==> es[i].telegramId != t) <==> Filter(es, NotUser(t)) == es
  {
    FilterMembers(es, NotUser(t));
    FilterKeepsAll(es, NotUser(t));
  }

  /**
    * After `set_entry` for `t` the list holds exactly one entry of `t`, the
    * new one, at the end; the other entries are the old ones of other people.
    */
  lemma SetEntryOnce(es: seq<Entry>, e: Entry)
    ensures var r := Filter(es, NotUser(e.telegramId)) + [e];
            && r[|r| - 1] == e
            && forall i :: 0 <= i < |r| ==> (r[i].telegramId == e.telegramId <==> i == |r| - 1)
  {
    var kept := Filter(es, NotUser(e.telegramId));
    FilterMembers(es, NotUser(e.telegramId));
    assert forall i :: 0 <= i < |kept| ==> kept[i] in kept;
  }

  // ---------------------------------------------------------------------------
  // `_create_entry`

  /** A run of one or two digits whose value is at most `max`. */
  predicate ClockField(s: string, max: nat) {
    1 <= |s| <= 2 && AllDigits(s) && DigitsValue(s) <= max
  }

  /**
    * The `%H:%M` part of `strptime(f"{theday} {time}", "%Y-%m-%d %H:%M")`:
    * the space of the format matches any run of white space, `%H` is
    * `2[0-3]|[0-1]\d|\d` and `%M` is `[0-5]\d|\d`, and nothing may follow.
    * The result is the minute of the day; `None` stands for `ValueError`.
    */
  function ParseClock(time: string): (r: Option<int>)
    ensures r.Some? ==> 0 <= r.value < DayMinutes
  {
    var t := LStrip(time);
    var i := IndexOf(t, ':');
    if i < |t| && ClockField(t[..i], 23) && ClockField(t[i + 1..], 59)
    then Some(DigitsValue(t[..i]) * 60 + DigitsValue(t[i + 1..]))
    else None
  }

  /** `%H` and `%M` as `strftime` writes them: two digits. */
  function TwoDigits(n: nat): (r: string)
    requires n < 100
  {
    ZFill(NatToString(n), 2)
  }

  lemma TwoDigitsValue(n: nat)
    requires n < 100
    ensures |TwoDigits(n)| == 2 && AllDigits(TwoDigits(n)) && DigitsValue(TwoDigits(n)) == n
  {
    var d := NatToString(n);
    NatToStringLength(n, 2);
    DigitsValueOfNatToString(n);
    if |d| < 2 {
      DigitsValueLeadingZeros(2 - |d|, d);
    }
  }

  /** A time of day written as `%H:%M` reads back as the same minute of the day. */
  lemma ClockReadsBack(h: nat, m: nat)
    requires h < 24 && m < 60
    ensures ParseClock(TwoDigits(h) + ":" + TwoDigits(m)) == Some(h * 60 + m)
  {
    var s := TwoDigits(h) + ":" + TwoDigits(m);
    TwoDigitsValue(h);
    TwoDigitsValue(m);
    assert !IsSpace(s[0]) by { assert IsDigit(s[0]); }
    assert LStrip(s) == s;
    assert IndexOf(s, ':') == 2 by {
      assert s[2] == ':' && s[0] != ':' && s[1] != ':' by {
        assert IsDigit(s[0]) && IsDigit(s[1]);
      }
    }
    assert s[..2] == TwoDigits(h) && s[3..] == TwoDigits(m);
  }

  /**
    * `_create_entry(username, telegram_id, time, day)` at minute `now`: the
    * given time on the date `day` days after today, moved one day later when
    * it is already past, and the number of days between today and that date.
    */
  function CreateEntry(username: string, telegramId: int, time: string, day: int, now: int)
    : Result<(Entry, int), PyError>
  {
    match ParseClock(time)
    case None => Err(ValueError)
    case Some(clock) =>
      var planned := (now + day * DayMinutes) / DayMinutes * DayMinutes + clock;
      var going := if now > planned then planned + DayMinutes else planned;
      Ok((Entry(username, telegramId, going), going / DayMinutes - now / DayMinutes))
  }

  /**
    * A time that does not parse raises. Otherwise the entry is for the
    * requested time of day, on the requested date or the day after when that
    * moment has passed, and the count of days says which; when `day >= 0`
    * the time is never in the past.
    */
  lemma CreateEntryTime(username: string, telegramId: int, time: string, day: int, now: int)
    ensures var r := CreateEntry(username, telegramId, time, day, now);
            && (r.Err? <==> ParseClock(time).None?)
            && (r.Err? ==> r.error == ValueError)
            && (r.Ok? ==>
                  var (e, days) := r.value;
                  && e == Entry(username, telegramId, e.tolab)
                  && e.tolab % DayMinutes == ParseClock(time).value
                  && (days == day || days == day + 1)
                  && e.tolab / DayMinutes == now / DayMinutes + days
                  && (day >= 0 ==> e.tolab >= now && days >= 0))
  {
    var r := CreateEntry(username, telegramId, time, day, now);
    if r.Ok? {
      var clock := ParseClock(time).value;
      var date := (now + day * DayMinutes) / DayMinutes;
      assert date == now / DayMinutes + day;
      var planned := date * DayMinutes + clock;
      assert planned / DayMinutes == date && planned % DayMinutes == clock;
      assert (planned + DayMinutes) / DayMinutes == date + 1;
      assert (planned + DayMinutes) % DayMinutes == clock;
      if day >= 0 {
        assert planned + DayMinutes > now;
      }
    }
  }

  // ---------------------------------------------------------------------------
  // `check_tolab`

  /**
    * The test of `check_tolab(people_inlab)` at minute `now`: an entry goes
    * when its time is more than 30 minutes ago, or when its time has passed
    * and the person is in the lab.
    */
  function Keeps(now: int, inlab: set<string>): Entry -> bool {
    (e: Entry) => if e.tolab < now - ExpiryMinutes then false
                  else if e.tolab < now && e.username in inlab then false
                  else true
  }

  /**
    * The entries kept are exactly those at most 30 minutes old whose person
    * is not in the lab after their time.
    */
  lemma CheckTolabKeeps(es: seq<Entry>, now: int, inlab: set<string>)
    ensures forall e :: e in Filter(es, Keeps(now, inlab)) <==>
              e in es && e.tolab >= now - ExpiryMinutes && !(e.tolab < now && e.username in inlab)
  {
    FilterMembers(es, Keeps(now, inlab));
  }

  /** A second check at the same minute, with the same people in the lab, removes nothing. */
  lemma CheckTolabSettles(es: seq<Entry>, now: int, inlab: set<string>)
    ensures Filter(Filter(es, Keeps(now, inlab)), Keeps(now, inlab)) == Filter(es, Keeps(now, inlab))
  {
    FilterIdempotent(es, Keeps(now, inlab));
  }

  // ---------------------------------------------------------------------------
  // The list and its file

  class ToLab {
    /** `tolab_file`, the announcements in memory. */
    var entries: seq<Entry>
    /** What `save` has written to the file, one list per write, oldest first. */
    var written: seq<seq<Entry>>

    /** `__init__`, given the entries already read from the file. */
    constructor (stored: seq<Entry>)
      ensures entries == stored && written == []
    {
      entries := stored;
      written := [];
    }

    /** `save(entries)`: writes copies of the entries, so the list in memory is not touched. */
    method Save(es: seq<Entry>)
      modifies this`written
      ensures written == old(written) + [es]
      ensures entries == old(entries)
    {
      written := written + [es];
    }

    /** `_delete_user(telegram_id)`: rebuilds the list without that person's entries. */
    method DeleteUser(t: int)
      modifies this`entries
      ensures entries == Filter(old(entries), NotUser(t))
    {
      var keep: seq<Entry> := [];
      for i := 0 to |entries|
        invariant keep == Filter(entries[..i], NotUser(t))
      {
        assert entries[..i + 1][..i] == entries[..i];
        if entries[i].telegramId != t {
          keep := keep + [entries[i]];
        }
      }
      assert entries[..|entries|] == entries;
      entries := keep;
    }

    /** `delete_entry(telegram_id)`: removes the person's entries and saves. */
    method DeleteEntry(t: int)
      modifies this
      ensures entries == Filter(old(entries), NotUser(t))
      ensures written == old(written) + [entries]
    {
      DeleteUser(t);
      Save(entries);
    }

    /**
      * `set_entry(username, telegram_id, time, day)` at minute `now`: replaces
      * the person's entries with a new one at the end, saves, and returns the
      * number of days until it. When the time does not parse, the old
      * entries are already gone and nothing is saved.
      */
    method SetEntry(username: string, t: int, time: string, day: int, now: int) returns (r: Result<int, PyError>)
      modifies this
      ensures var created := CreateEntry(username, t, time, day, now);
              && (created.Err? ==>
                    && r == Err(created.error)
                    && entries == Filter(old(entries), NotUser(t))
                    && written == old(written))
              && (created.Ok? ==>
                    && r == Ok(created.value.1)
                    && entries == Filter(old(entries), NotUser(t)) + [created.value.0]
                    && written == old(written) + [entries])
    {
      DeleteUser(t);
      var created := CreateEntry(username, t, time, day, now);
      if created.Err? {
        return Err(created.error);
      }
      var (entry, days) := created.value;
      entries := entries + [entry];
      Save(entries);
      return Ok(days);
    }

    /**
      * `check_tolab(people_inlab)` at minute `now`: drops stale entries,
      * saves only when something was dropped, and returns how many remain.
      */
    method CheckTolab(now: int, inlab: set<string>) returns (count: int)
      modifies this
      ensures entries == Filter(old(entries), Keeps(now, inlab))
      ensures count == |entries|
      ensures written == if entries == old(entries) then old(written) else old(written) + [entries]
    {
      var expires := now - ExpiryMinutes;
      var changed := false;
      var keep: seq<Entry> := [];
      for i := 0 to |entries|
        invariant keep == Filter(entries[..i], Keeps(now, inlab))
        invariant changed <==> |keep| < i
      {
        assert entries[..i + 1][..i] == entries[..i];
        var entry := entries[i];
        if entry.tolab < expires {
          changed := true;
        } else if entry.tolab < now && entry.username in inlab {
          changed := true;
        } else {
          keep := keep + [entry];
        }
      }
      assert entries[..|entries|] == entries;
      FilterKeepsAll(entries, Keeps(now, inlab));
      if changed {
        entries := keep;
        Save(keep);
      }
      return |keep|;
    }
  }
}

/**
  * `People` of LdapWrapper.py: a snapshot of every person in the directory,
  * keyed by the lower-cased uid, taken again when it is more than an hour
  * old. A new snapshot is written over the old map without clearing it.
  */
module LdapPeople {
  import opened Basics
  import opened Ldap

  /** The `Person` dataclass. `accountlocked` is always a `bool` once built. */
  datatype Person = Person(
    uid: string,
    cn: string,
    dateofbirth: Option<Date>,
    dateofsafetytest: Option<Date>,
    isadmin: bool,
    nickname: Option<string>,
    tgid: Option<int>,
    haskey: bool,
    signedsir: bool,
    accountlocked: bool)

  /** A snapshot older than this many seconds is taken again. */
  const Ttl: int := 3600

  /** The attributes `__sync` asks for. */
  const PeopleAttrs: seq<string> :=
    ["uid", "cn", "memberof", "telegramnickname", "telegramid", "schacdateofbirth",
     "safetytestdate", "haskey", "signedsir", "nsaccountlock"]

  /** An optional date attribute: absent is `None`, present is decoded by `schac_to_date`. */
  function OptDate(attrs: Attrs, name: string): (r: Result<Option<Date>, Error>)
    ensures r.Ok? && r.value.Some? ==> name in attrs && SchacToDate(attrs[name][0]) == Ok(r.value.value)
    ensures r.Ok? && r.value.None? <==> name !in attrs
    ensures r.Err? ==> r.error == Python(ValueError)
  {
    if name !in attrs then Ok(None)
    else match SchacToDate(attrs[name][0])
      case Ok(dt) => Ok(Some(dt))
      case Err(e) => Err(e)
  }

  /**
    * One iteration of the `__sync` loop: the two dates first, then the
    * `Person(...)` arguments left to right, so the first failing step names
    * the exception.
    */
  function BuildPerson(attrs: Attrs, admin: seq<string>): (r: Result<Person, Error>)
    ensures r.Err? ==> r.error in {Python(ValueError), Python(KeyError("uid")), Python(KeyError("cn"))}
    ensures r.Ok? ==> "uid" in attrs && r.value.uid == attrs["uid"][0]
    ensures r.Err? <==> || OptDate(attrs, "schacdateofbirth").Err? || OptDate(attrs, "safetytestdate").Err?
                        || "uid" !in attrs || "cn" !in attrs
                        || ("telegramid" in attrs && ParseInt(attrs["telegramid"][0]).None?)
    ensures OptDate(attrs, "schacdateofbirth").Err? ==> r == Err(Python(ValueError))
  {
    match OptDate(attrs, "schacdateofbirth")
    case Err(e) => Err(e)
    case Ok(dob) =>
      match OptDate(attrs, "safetytestdate")
      case Err(e) => Err(e)
      case Ok(dost) =>
        match First(attrs, "uid")
        case Err(e) => Err(e)
        case Ok(uid) =>
          match First(attrs, "cn")
          case Err(e) => Err(e)
          case Ok(cn) =>
            var tgid := if "telegramid" in attrs then ParseInt(attrs["telegramid"][0]) else None;
            if "telegramid" in attrs && tgid.None? then Err(Python(ValueError))
            else Ok(Person(uid, cn, dob, dost, InGroups(admin, attrs),
                           if "telegramnickname" in attrs then Some(attrs["telegramnickname"][0]) else None,
                           tgid, FlagTrue(attrs, "haskey"), FlagTrue(attrs, "signedsir"),
                           "nsaccountlock" in attrs))
  }

  /** Every key is the lower-cased uid of the person stored under it. */
  ghost predicate KeyedByUid(people: map<string, Person>) {
    forall k :: k in people ==> Lower(people[k].uid) == k
  }

  /** The map after the loop, and the exception that ended it early, if any. */
  datatype Synced = Synced(people: map<string, Person>, error: Option<Error>)

  /** The loop of `__sync` over the search results, from the map it starts with; an exception stops it where it is. */
  function SyncFrom(people: map<string, Person>, found: seq<Entry>, admin: seq<string>): Synced
    decreases |found|
  {
    if found == [] then Synced(people, None)
    else match BuildPerson(found[0].attrs, admin)
      case Err(e) => Synced(people, Some(e))
      case Ok(p) => SyncFrom(people[Lower(p.uid) := p], found[1..], admin)
  }

  /** The map, its timestamp and the directory after `refresh_if_necessary`, and the exception it raised. */
  datatype Snapshot = Snapshot(people: map<string, Person>, lastUpdate: int, dir: Dir, error: Option<Error>)

  /** `refresh_if_necessary` at time `now`: nothing when the snapshot is recent, else a search and the loop. */
  function Resynced(people: map<string, Person>, last: int, d: Dir, reachable: bool, tree: Dn,
                    admin: seq<string>, now: int): (s: Snapshot)
    ensures now - last <= Ttl ==> s == Snapshot(people, last, d, None)
    ensures s.lastUpdate == (if now - last > Ttl && s.error.None? then now else last)
    ensures s.error.Some? ==> s.lastUpdate == last
  {
    if now - last <= Ttl then Snapshot(people, last, d, None)
    else if !reachable then Snapshot(people, last, d, Some(ConnectionFailed))
    else
      var f := DoSearch(d, tree, AnyPerson, PeopleAttrs);
      var s := SyncFrom(people, f.entries, admin);
      Snapshot(s.people, if s.error.None? then now else last, f.dir, s.error)
  }

  /** `People.get`: the person stored under the lower-cased uid. */
  function Lookup(people: map<string, Person>, uid: string): (r: Option<Person>)
    ensures r.Some? <==> Lower(uid) in people
  {
    if Lower(uid) in people then Some(people[Lower(uid)]) else None
  }

  // ---------------------------------------------------------------------------
  // Properties of the loop

  /** Each step keys the person by its lower-cased uid, so a map keyed that way stays keyed that way. */
  lemma {:induction false} SyncKeepsKeying(people: map<string, Person>, found: seq<Entry>, admin: seq<string>)
    requires KeyedByUid(people)
    ensures KeyedByUid(SyncFrom(people, found, admin).people)
    decreases |found|
  {
    if found != [] {
      var r := BuildPerson(found[0].attrs, admin);
      if r.Ok? {
        var p := r.value;
        LowerIdempotent(p.uid);
        SyncKeepsKeying(people[Lower(p.uid) := p], found[1..], admin);
      }
    }
  }

  /** The map is never cleared: every key present before the loop is present after it, even when the loop fails. */
  lemma {:induction false} SyncNeverRemoves(people: map<string, Person>, found: seq<Entry>, admin: seq<string>)
    ensures people.Keys <= SyncFrom(people, found, admin).people.Keys
    decreases |found|
  {
    if found != [] {
      var r := BuildPerson(found[0].attrs, admin);
      if r.Ok? {
        SyncNeverRemoves(people[Lower(r.value.uid) := r.value], found[1..], admin);
      }
    }
  }

  /** A person no search result names keeps the entry the map had, so a stale person survives a new snapshot. */
  lemma {:induction false} SyncKeepsUnnamed(people: map<string, Person>, found: seq<Entry>, admin: seq<string>, k: string)
    requires k in people
    requires forall i :: 0 <= i < |found| && BuildPerson(found[i].attrs, admin).Ok? ==>
               Lower(BuildPerson(found[i].attrs, admin).value.uid) != k
    ensures k in SyncFrom(people, found, admin).people
    ensures SyncFrom(people, found, admin).people[k] == people[k]
    decreases |found|
  {
    if found != [] {
      var r := BuildPerson(found[0].attrs, admin);
      if r.Ok? {
        assert forall i :: 0 <= i < |found[1..]| ==> found[1..][i] == found[i + 1];
        SyncKeepsUnnamed(people[Lower(r.value.uid) := r.value], found[1..], admin, k);
      }
    }
  }

  /** The loop from position `i` is one step on `found[i]` followed by the loop from `i + 1`. */
  lemma SyncStep(people: map<string, Person>, found: seq<Entry>, i: nat, admin: seq<string>)
    requires i < |found|
    ensures var r := BuildPerson(found[i].attrs, admin);
            SyncFrom(people, found[i..], admin) ==
              if r.Err? then Synced(people, Some(r.error))
              else SyncFrom(people[Lower(r.value.uid) := r.value], found[i + 1..], admin)
  {
    assert found[i..][1..] == found[i + 1..];
  }

  /** The loop over `a + b` is the loop over `a`, then, unless it raised, the loop over `b` from the map it left. */
  lemma {:induction false} SyncConcat(people: map<string, Person>, a: seq<Entry>, b: seq<Entry>, admin: seq<string>)
    ensures var s := SyncFrom(people, a, admin);
            SyncFrom(people, a + b, admin) == if s.error.Some? then s else SyncFrom(s.people, b, admin)
    decreases |a|
  {
    if a == [] {
      assert a + b == b;
    } else {
      assert (a + b)[0] == a[0] && (a + b)[1..] == a[1..] + b;
      var r := BuildPerson(a[0].attrs, admin);
      if r.Ok? {
        SyncConcat(people[Lower(r.value.uid) := r.value], a[1..], b, admin);
      }
    }
  }

  /**
    * Last write wins: after a complete loop, the person built from result
    * `i` is the one stored under its lower-cased uid when no later result
    * builds a person with the same lower-cased uid.
    */
  lemma LastResultWins(people: map<string, Person>, found: seq<Entry>, i: nat, admin: seq<string>)
    requires i < |found|
    requires SyncFrom(people, found, admin).error.None?
    requires BuildPerson(found[i].attrs, admin).Ok?
    requires forall j :: i < j < |found| && BuildPerson(found[j].attrs, admin).Ok? ==>
               Lower(BuildPerson(found[j].attrs, admin).value.uid) != Lower(BuildPerson(found[i].attrs, admin).value.uid)
    ensures var p := BuildPerson(found[i].attrs, admin).value;
            var s := SyncFrom(people, found, admin);
            Lower(p.uid) in s.people && s.people[Lower(p.uid)] == p
  {
    var p := BuildPerson(found[i].attrs, admin).value;
    var k := Lower(p.uid);
    var before := found[..i];
    var rest := found[i + 1..];
    assert found == before + ([found[i]] + rest);
    SyncConcat(people, before, [found[i]] + rest, admin);
    var s0 := SyncFrom(people, before, admin);
    assert s0.error.None?;
    assert ([found[i]] + rest)[0] == found[i] && ([found[i]] + rest)[1..] == rest;
    var mid := s0.people[k := p];
    assert SyncFrom(s0.people, [found[i]] + rest, admin) == SyncFrom(mid, rest, admin);
    forall j | 0 <= j < |rest| && BuildPerson(rest[j].attrs, admin).Ok?
      ensures Lower(BuildPerson(rest[j].attrs, admin).value.uid) != k
    {
      assert rest[j] == found[i + 1 + j];
    }
    SyncKeepsUnnamed(mid, rest, admin, k);
  }

  /** A stored person is found under its uid written in any letter case. */
  lemma FoundInAnyCase(people: map<string, Person>, k: string, uid: string)
    requires KeyedByUid(people) && k in people
    requires Lower(uid) == Lower(people[k].uid)
    ensures Lookup(people, uid) == Some(people[k])
  {
  }

  // ---------------------------------------------------------------------------
  // Decoding is the inverse of writing a person into attributes

  /** A person that the attributes of a directory entry can describe. */
  predicate Encodable(p: Person, admin: seq<string>) {
    DatesValid(p) && (p.isadmin ==> admin != [])
  }

  /** Both dates, when present, are dates `datetime.date` accepts. */
  predicate DatesValid(p: Person) {
    && (p.dateofbirth.Some? ==> ValidDate(p.dateofbirth.value.year, p.dateofbirth.value.month, p.dateofbirth.value.day))
    && (p.dateofsafetytest.Some? ==> ValidDate(p.dateofsafetytest.value.year, p.dateofsafetytest.value.month, p.dateofsafetytest.value.day))
  }

  /** The value an entry describing `p` holds for attribute `k`, if any: dates in `YYYYMMDD` form, flags as `"true"`, an admin in the first admin group. */
  function FieldOf(p: Person, admin: seq<string>, k: string): Option<string>
    requires Encodable(p, admin)
  {
    if k == "uid" then Some(p.uid)
    else if k == "cn" then Some(p.cn)
    else if k == "schacdateofbirth" then
      (if p.dateofbirth.Some? then Some(SchacFormat(p.dateofbirth.value)) else None)
    else if k == "safetytestdate" then
      (if p.dateofsafetytest.Some? then Some(SchacFormat(p.dateofsafetytest.value)) else None)
    else if k == "memberof" then (if p.isadmin then Some(admin[0]) else None)
    else if k == "telegramnickname" then p.nickname
    else if k == "telegramid" then (if p.tgid.Some? then Some(IntToString(p.tgid.value)) else None)
    else if k == "haskey" then (if p.haskey then Some("true") else None)
    else if k == "signedsir" then (if p.signedsir then Some("true") else None)
    else if k == "nsaccountlock" then (if p.accountlocked then Some("true") else None)
    else None
  }

  /** The attributes `__sync` receives for an entry describing `p`. */
  function PersonAttrs(p: Person, admin: seq<string>): (a: Attrs)
    requires Encodable(p, admin)
    ensures forall k :: k in a <==> k in PeopleAttrs && FieldOf(p, admin, k).Some?
    ensures forall k :: k in a ==> a[k] == [FieldOf(p, admin, k).value]
  {
    map k | k in PeopleAttrs && FieldOf(p, admin, k).Some? :: [FieldOf(p, admin, k).value]
  }

  /** Attributes that hold the identity fields of `p` in the form `PersonAttrs` writes them. */
  predicate DescribesIdentity(a: Attrs, p: Person)
    requires DatesValid(p)
  {
    && "uid" in a && a["uid"] == [p.uid] && "cn" in a && a["cn"] == [p.cn]
    && ("schacdateofbirth" in a <==> p.dateofbirth.Some?)
    && (p.dateofbirth.Some? ==> a["schacdateofbirth"] == [SchacFormat(p.dateofbirth.value)])
    && ("safetytestdate" in a <==> p.dateofsafetytest.Some?)
    && (p.dateofsafetytest.Some? ==> a["safetytestdate"] == [SchacFormat(p.dateofsafetytest.value)])
    && ("telegramnickname" in a <==> p.nickname.Some?)
    && (p.nickname.Some? ==> a["telegramnickname"] == [p.nickname.value])
    && ("telegramid" in a <==> p.tgid.Some?)
    && (p.tgid.Some? ==> a["telegramid"] == [IntToString(p.tgid.value)])
  }

  /** Attributes that hold the group and flag fields of `p` in the form `PersonAttrs` writes them. */
  predicate DescribesStatus(a: Attrs, p: Person, admin: seq<string>)
    requires p.isadmin ==> admin != []
  {
    && ("memberof" in a <==> p.isadmin) && (p.isadmin ==> a["memberof"] == [admin[0]])
    && (FlagTrue(a, "haskey") <==> p.haskey)
    && (FlagTrue(a, "signedsir") <==> p.signedsir)
    && ("nsaccountlock" in a <==> p.accountlocked)
  }

  lemma PersonAttrsIdentity(p: Person, admin: seq<string>)
    requires Encodable(p, admin)
    ensures DescribesIdentity(PersonAttrs(p, admin), p)
  {
    assert PeopleAttrs[0] == "uid" && PeopleAttrs[1] == "cn";
    assert PeopleAttrs[3] == "telegramnickname" && PeopleAttrs[4] == "telegramid";
    assert PeopleAttrs[5] == "schacdateofbirth" && PeopleAttrs[6] == "safetytestdate";
  }

  lemma PersonAttrsStatus(p: Person, admin: seq<string>)
    requires Encodable(p, admin)
    ensures DescribesStatus(PersonAttrs(p, admin), p, admin)
  {
    assert PeopleAttrs[2] == "memberof";
    assert PeopleAttrs[7] == "haskey" && PeopleAttrs[8] == "signedsir" && PeopleAttrs[9] == "nsaccountlock";
  }

  /** Dates written in `YYYYMMDD` form decode to the same dates. */
  lemma DatesDecoded(a: Attrs, p: Person)
    requires DatesValid(p) && DescribesIdentity(a, p)
    ensures OptDate(a, "schacdateofbirth") == Ok(p.dateofbirth)
    ensures OptDate(a, "safetytestdate") == Ok(p.dateofsafetytest)
  {
    if p.dateofbirth.Some? {
      SchacRoundTrip(p.dateofbirth.value);
    }
    if p.dateofsafetytest.Some? {
      SchacRoundTrip(p.dateofsafetytest.value);
    }
  }

  /** Any entry that describes `p` decodes to `p`, whatever other attributes it has. */
  lemma DecodesDescribed(a: Attrs, p: Person, admin: seq<string>)
    requires Encodable(p, admin) && DescribesIdentity(a, p) && DescribesStatus(a, p, admin)
    ensures BuildPerson(a, admin) == Ok(p)
  {
    DatesDecoded(a, p);
    if p.tgid.Some? {
      ParseIntOfIntToString(p.tgid.value);
    }
    if p.isadmin {
      assert a["memberof"][0] in admin;
    }
    assert InGroups(admin, a) == p.isadmin;
  }

  /** An entry written from a person reads back as that person. */
  lemma PersonRoundTrip(p: Person, admin: seq<string>)
    requires Encodable(p, admin)
    ensures BuildPerson(PersonAttrs(p, admin), admin) == Ok(p)
  {
    PersonAttrsIdentity(p, admin);
    PersonAttrsStatus(p, admin);
    DecodesDescribed(PersonAttrs(p, admin), p, admin);
  }

  // ---------------------------------------------------------------------------
  // The cache

  class People {
    var people: map<string, Person>
    var lastUpdate: int
    const tree: Dn
    const adminGroups: seq<string>

    ghost predicate Valid()
      reads this
    {
      KeyedByUid(people)
    }

    constructor (adminGroups: seq<string>, tree: Dn)
      ensures Valid() && people == map[] && lastUpdate == 0
      ensures this.adminGroups == adminGroups && this.tree == tree
    {
      people := map[];
      lastUpdate := 0;
      this.tree := tree;
      this.adminGroups := adminGroups;
    }

    /** `get`: refresh if needed, then look up the lower-cased uid; an exception from the refresh propagates. */
    method Get(uid: string, conn: Connection, now: int) returns (r: Result<Option<Person>, Error>)
      requires Valid()
      modifies this, conn
      ensures Valid()
      ensures var s := Resynced(old(people), old(lastUpdate), old(conn.dir), conn.reachable, tree, adminGroups, now);
              people == s.people && lastUpdate == s.lastUpdate && conn.dir == s.dir &&
              r == (if s.error.Some? then Err(s.error.value) else Ok(Lookup(s.people, uid)))
      ensures conn.depth == old(conn.depth)
    {
      var error := RefreshIfNecessary(conn, now);
      if error.Some? {
        return Err(error.value);
      }
      var key := Lower(uid);
      if key in people {
        return Ok(Some(people[key]));
      } else {
        return Ok(None);
      }
    }

    /** `get_all`: refresh if needed, then every stored person (the order of the dictionary is not kept). */
    method GetAll(conn: Connection, now: int) returns (r: Result<set<Person>, Error>)
      requires Valid()
      modifies this, conn
      ensures Valid()
      ensures var s := Resynced(old(people), old(lastUpdate), old(conn.dir), conn.reachable, tree, adminGroups, now);
              people == s.people && lastUpdate == s.lastUpdate && conn.dir == s.dir &&
              r == (if s.error.Some? then Err(s.error.value) else Ok(s.people.Values))
      ensures conn.depth == old(conn.depth)
    {
      var error := RefreshIfNecessary(conn, now);
      if error.Some? {
        return Err(error.value);
      }
      return Ok(people.Values);
    }

    /** `refresh_if_necessary`: a snapshot older than an hour is taken again inside a connection scope. */
    method RefreshIfNecessary(conn: Connection, now: int) returns (error: Option<Error>)
      requires Valid()
      modifies this, conn
      ensures Valid()
      ensures Snapshot(people, lastUpdate, conn.dir, error) ==
                Resynced(old(people), old(lastUpdate), old(conn.dir), conn.reachable, tree, adminGroups, now)
      ensures conn.depth == old(conn.depth)
    {
      if now - lastUpdate <= Ttl {
        return None;
      }
      var ok := conn.Enter();
      if !ok {
        return Some(ConnectionFailed);
      }
      error := Sync(conn, now);
      conn.Exit();
    }

    /** `delete_cache`: empties the map and zeroes the timestamp, so the next access takes a new snapshot. */
    method DeleteCache() returns (busted: nat)
      modifies this
      ensures busted == |old(people)|
      ensures Valid() && people == map[] && lastUpdate == 0
    {
      busted := |people|;
      people := map[];
      lastUpdate := 0;
    }

    /** `__sync`: search every person, write each one over the map, and stamp the time only if the loop completes. */
    method Sync(conn: Connection, now: int) returns (error: Option<Error>)
      requires Valid() && conn.depth > 0
      modifies this, conn
      ensures Valid()
      ensures var f := DoSearch(old(conn.dir), tree, AnyPerson, PeopleAttrs);
              var s := SyncFrom(old(people), f.entries, adminGroups);
              people == s.people && error == s.error && conn.dir == f.dir &&
              lastUpdate == (if error.None? then now else old(lastUpdate))
      ensures conn.depth == old(conn.depth)
    {
      var found := conn.Search(tree, AnyPerson, PeopleAttrs);
      for i := 0 to |found|
        modifies this
        invariant Valid()
        invariant SyncFrom(people, found[i..], adminGroups) == SyncFrom(old(people), found, adminGroups)
        invariant lastUpdate == old(lastUpdate)
      {
        var r := BuildPerson(found[i].attrs, adminGroups);
        SyncStep(people, found, i, adminGroups);
        if r.Err? {
          return Some(r.error);
        }
        var p := r.value;
        LowerIdempotent(p.uid);
        people := people[Lower(p.uid) := p];
      }
      assert found[|found|..] == [];
      lastUpdate := now;
      return None;
    }
  }

  /** After `delete_cache` the next access searches the directory again, for any current time. */
  lemma DeleteCacheForcesSearch(d: Dir, tree: Dn, admin: seq<string>, now: int)
    requires now > Ttl
    ensures var s := Resynced(map[], 0, d, true, tree, admin, now);
            |s.dir.log| == |d.log| + 1 && s.dir.log[|d.log|] == SearchOp(tree, AnyPerson)
  {
  }
}

/**
  * `Users` of LdapWrapper.py: the per-process cache of `User` records keyed
  * by Telegram id, refreshed after an hour and evicted when the directory
  * no longer admits the person, and the linking of an invite to a Telegram
  * account.
  */
module LdapUsers {
  import opened Basics
  import opened Ldap
  import opened LdapUser

  /** The `tgid` argument of `Users.get`, which checks at run time that it is an `int`. */
  datatype TgidArg = IntTgid(value: int) | NotInt

  /** The failures of a refresh after which the cached record is dropped and searched for again. */
  predicate Evicts(e: Error) {
    e == AccountNotFound || e == AccountLocked || e == DuplicateEntry
  }

  /** The cache entry for the id after `Users.get`, the directory, and what the call returned or raised. */
  datatype Got = Got(entry: Option<UserRec>, dir: Dir, out: Result<UserRec, Error>)

  /** `Users.get` for an `int` id, given the cache entry for that id: a fresh record without a request, else refresh or search. */
  function CacheGet(entry: Option<UserRec>, d: Dir, reachable: bool, t: int, nickname: Option<string>,
                    admin: seq<string>, excluded: seq<string>, tree: Dn, now: int): Got
  {
    if entry.Some? && !NeedUpdate(entry.value, now) then Got(entry, d, Ok(entry.value))
    else if !reachable then Got(entry, d, Err(ConnectionFailed))
    else if entry.None? then Fetched(d, t, nickname, admin, excluded, tree, now)
    else Revalidated(entry.value, d, t, nickname, admin, excluded, tree, now)
  }

  /** The search of `get` when no cached record is usable; a found record is cached. */
  function Fetched(d: Dir, t: int, nickname: Option<string>, admin: seq<string>, excluded: seq<string>,
                   tree: Dn, now: int): Got
  {
    var s := Searched(d, t, nickname, admin, excluded, tree, now);
    Got(if s.out.Ok? then Some(s.out.value) else None, s.dir, s.out)
  }

  /** A stale cached record: refreshed in place, or dropped and searched for again. */
  function Revalidated(rec: UserRec, d: Dir, t: int, nickname: Option<string>,
                       admin: seq<string>, excluded: seq<string>, tree: Dn, now: int): Got
  {
    var r := Refreshed(d, rec, admin, excluded, true, nickname, now);
    if r.out.Ok? then Got(Some(r.rec), r.dir, Ok(r.rec))
    else if Evicts(r.out.error) then Fetched(r.dir, t, nickname, admin, excluded, tree, now)
    else Got(Some(r.rec), r.dir, Err(r.out.error))
  }

  /** `Revalidated` with the refresh of `update` as written. */
  function RevalidatedAsWritten(rec: UserRec, d: Dir, t: int, nickname: Option<string>,
                                admin: seq<string>, excluded: seq<string>, tree: Dn, now: int): Got
  {
    var r := RefreshedAsWritten(d, rec);
    if r.out.Ok? then Got(Some(r.rec), r.dir, Ok(r.rec))
    else if Evicts(r.out.error) then Fetched(r.dir, t, nickname, admin, excluded, tree, now)
    else Got(Some(r.rec), r.dir, Err(r.out.error))
  }

  /**
    * As written, `get` never refreshes a stale record in place: when its
    * person's entry is still there, the record is dropped and searched for
    * again after the read; when the entry is gone, `NO_SUCH_OBJECT` escapes
    * and the stale record stays cached.
    */
  lemma RevalidatedAsWrittenNeverRefreshes(rec: UserRec, d: Dir, t: int, nickname: Option<string>,
                                           admin: seq<string>, excluded: seq<string>, tree: Dn, now: int)
    ensures var g := RevalidatedAsWritten(rec, d, t, nickname, admin, excluded, tree, now);
            var read := d.(log := d.log + [ReadOp(rec.dn)]);
            && (!HasDn(d.entries, rec.dn) ==> g == Got(Some(rec), read, Err(NoSuchObject)))
            && (HasDn(d.entries, rec.dn) &&
                (forall j :: 0 <= j < |d.entries| && d.entries[j].dn == rec.dn ==>
                               "uid" in d.entries[j].attrs && "cn" in d.entries[j].attrs)
                ==> g == Fetched(read, t, nickname, admin, excluded, tree, now))
  {
    RefreshedAsWrittenRaises(d, rec);
  }

  /** A fresh cached record is returned as it is, and the directory is not contacted. */
  lemma CacheGetFreshHit(rec: UserRec, d: Dir, reachable: bool, t: int, nickname: Option<string>,
                         admin: seq<string>, excluded: seq<string>, tree: Dn, now: int)
    requires !NeedUpdate(rec, now)
    ensures CacheGet(Some(rec), d, reachable, t, nickname, admin, excluded, tree, now) == Got(Some(rec), d, Ok(rec))
  {
  }

  /**
    * The entry stays keyed by its id, a successful call leaves the returned
    * record in the cache, and a call that cannot reach the directory changes
    * nothing.
    */
  lemma CacheGetKeyed(entry: Option<UserRec>, d: Dir, reachable: bool, t: int, nickname: Option<string>,
                      admin: seq<string>, excluded: seq<string>, tree: Dn, now: int)
    requires entry.Some? ==> entry.value.tgid == t
    ensures var g := CacheGet(entry, d, reachable, t, nickname, admin, excluded, tree, now);
            (g.entry.Some? ==> g.entry.value.tgid == t) &&
            (g.out.Ok? ==> g.entry == Some(g.out.value)) &&
            (!reachable ==> g.entry == entry && g.dir == d)
  {
  }

  /**
    * A stale record whose refresh finds the person gone, locked or
    * duplicated is dropped and searched for again; when that search fails
    * too, the cache no longer holds the id.
    */
  lemma CacheGetEvicts(rec: UserRec, d: Dir, t: int, nickname: Option<string>,
                       admin: seq<string>, excluded: seq<string>, tree: Dn, now: int)
    requires NeedUpdate(rec, now)
    requires var r := Refreshed(d, rec, admin, excluded, true, nickname, now);
             r.out.Err? && Evicts(r.out.error)
    ensures var r := Refreshed(d, rec, admin, excluded, true, nickname, now);
            var g := CacheGet(Some(rec), d, true, t, nickname, admin, excluded, tree, now);
            var s := Searched(r.dir, t, nickname, admin, excluded, tree, now);
            g.dir == s.dir && g.out == s.out &&
            (s.out.Err? ==> g.entry.None?) &&
            (s.out.Ok? ==> g.entry == Some(s.out.value))
  {
  }

  /** Right after a successful `get`, a second one at the same time is served from the cache. */
  lemma CacheGetThenHit(entry: Option<UserRec>, d: Dir, reachable: bool, t: int, nickname: Option<string>,
                        nickname2: Option<string>, admin: seq<string>, excluded: seq<string>, tree: Dn, now: int,
                        reachable2: bool)
    requires CacheGet(entry, d, reachable, t, nickname, admin, excluded, tree, now).out.Ok?
    ensures var g := CacheGet(entry, d, reachable, t, nickname, admin, excluded, tree, now);
            CacheGet(g.entry, g.dir, reachable2, t, nickname2, admin, excluded, tree, now) == g
  {
    var g := CacheGet(entry, d, reachable, t, nickname, admin, excluded, tree, now);
    if !(entry.Some? && !NeedUpdate(entry.value, now)) {
      assert g.out.value.lastUpdate == now;
    }
  }

  /** The modlist of `update_invite`: the id always, the nickname replaced or deleted. */
  function InviteChanges(tgid: int, nickname: Option<string>): seq<Change> {
    [Replace("telegramid", IntToString(tgid))] + NicknameChange(nickname)
  }

  /** `update_invite`: the invite entry with that code, if it is the only one, gets the id and nickname in one request. */
  function InviteLinked(d: Dir, reachable: bool, inviteTree: Dn, code: string, tgid: int, nickname: Option<string>): Modified {
    if !reachable then Modified(d, Some(ConnectionFailed))
    else
      var f := DoSearch(d, inviteTree, InviteCode(code), []);
      match TheOnlyResult(f.entries)
      case Err(e) => Modified(f.dir, Some(e))
      case Ok(e) => DoModify(f.dir, e.dn, InviteChanges(tgid, nickname))
  }

  /** No invite or several invites with the code: nothing is written. */
  lemma InviteCountRule(d: Dir, inviteTree: Dn, code: string, tgid: int, nickname: Option<string>)
    ensures var n := |Select(d.entries, inviteTree, InviteCode(code), [])|;
            var m := InviteLinked(d, true, inviteTree, code, tgid, nickname);
            var searched := d.(log := d.log + [SearchOp(inviteTree, InviteCode(code))]);
            (n == 0 ==> m == Modified(searched, Some(AccountNotFound))) &&
            (n > 1 ==> m == Modified(searched, Some(DuplicateEntry))) &&
            (n == 1 ==> m.dir.log == searched.log + [ModifyOp(Select(d.entries, inviteTree, InviteCode(code), [])[0].dn,
                                                            InviteChanges(tgid, nickname))])
  {
  }

  /**
    * Linking an invite without a Telegram nickname deletes the nickname
    * attribute, which the directory refuses when the invite has none: the
    * request fails and nothing is written, not even the id.
    */
  lemma InviteWithoutNicknameFails(d: Dir, inviteTree: Dn, code: string, tgid: int)
    requires var found := Select(d.entries, inviteTree, InviteCode(code), []);
             |found| == 1 && "telegramnickname" !in found[0].attrs
    ensures var m := InviteLinked(d, true, inviteTree, code, tgid, None);
            m.error == Some(NoSuchAttribute) && m.dir.entries == d.entries
  {
    var found := Select(d.entries, inviteTree, InviteCode(code), []);
    SelectProjects(d.entries, inviteTree, InviteCode(code), [], 0);
    var j :| 0 <= j < |d.entries| && d.entries[j].dn == found[0].dn && Matches(InviteCode(code), d.entries[j].attrs) &&
             found[0].attrs == Project(d.entries[j].attrs, []);
    var c := InviteChanges(tgid, None);
    var a := d.entries[j].attrs;
    assert c == [Replace("telegramid", IntToString(tgid)), Delete("telegramnickname")];
    assert c[1..] == [Delete("telegramnickname")] && c[1..][1..] == [];
    assert ApplyChanges(a, c) == ApplyChanges(a["telegramid" := [IntToString(tgid)]], c[1..]);
    ModifyFailsAt(d.entries, found[0].dn, c, j);
  }

  /** With a nickname, linking the unique invite always goes through. */
  lemma InviteWithNicknameSucceeds(d: Dir, inviteTree: Dn, code: string, tgid: int, nickname: string)
    requires |Select(d.entries, inviteTree, InviteCode(code), [])| == 1
    ensures InviteLinked(d, true, inviteTree, code, tgid, Some(nickname)).error.None?
  {
    var found := Select(d.entries, inviteTree, InviteCode(code), []);
    SelectProjects(d.entries, inviteTree, InviteCode(code), [], 0);
    assert HasDn(d.entries, found[0].dn);
    ReplacesApply(d.entries, found[0].dn, InviteChanges(tgid, Some(nickname)));
  }

  /** A modlist made only of replacements always applies. */
  lemma {:induction false} ReplacesApply(es: seq<Entry>, dn: Dn, changes: seq<Change>)
    requires forall i :: 0 <= i < |changes| ==> changes[i].Replace?
    ensures ModifyAll(es, dn, changes).Some?
  {
    if es != [] {
      ReplacesApply(es[1..], dn, changes);
      ReplacesApplyTo(es[0].attrs, changes);
    }
  }

  lemma {:induction false} ReplacesApplyTo(attrs: Attrs, changes: seq<Change>)
    requires forall i :: 0 <= i < |changes| ==> changes[i].Replace?
    ensures ApplyChanges(attrs, changes).Some?
    decreases |changes|
  {
    if changes != [] {
      ReplacesApplyTo(attrs[changes[0].attr := [changes[0].value]], changes[1..]);
    }
  }

  /** `Users`: the cache of `User` objects; `get` hands out the cached object itself. */
  class Users {
    var users: map<int, User>
    const adminGroups: seq<string>
    const tree: Dn
    const inviteTree: Dn
    const excludedGroups: seq<string>

    /** No two ids share one `User` object. */
    ghost predicate Valid()
      reads this
    {
      forall t, t' :: t in users && t' in users && t != t' ==> users[t] != users[t']
    }

    /** The cached record for an id, as a value. */
    function Cached(t: int): Option<UserRec>
      reads this, users.Values
    {
      if t in users then Some(users[t].Rec()) else None
    }

    /** Every id other than `t` still maps to the object it mapped to. */
    ghost predicate OthersKept(t: int, before: map<int, User>)
      reads this
    {
      forall k :: k != t ==> (k in users <==> k in before) && (k in users ==> users[k] == before[k])
    }

    constructor (adminGroups: seq<string>, tree: Dn, inviteTree: Dn, groupsTree: Dn)
      ensures Valid() && users == map[]
      ensures this.adminGroups == adminGroups && this.tree == tree && this.inviteTree == inviteTree
      ensures excludedGroups == ["cn=NoBot," + groupsTree]
    {
      users := map[];
      this.adminGroups := adminGroups;
      this.tree := tree;
      this.inviteTree := inviteTree;
      excludedGroups := ["cn=NoBot," + groupsTree];
    }

    /** `get`: the only cached object it may change is the one for the id asked for. */
    method Get(tgid: TgidArg, nickname: Option<string>, conn: Connection, now: int) returns (r: Result<User, Error>)
      requires Valid()
      modifies this, conn, if tgid.IntTgid? && tgid.value in users then {users[tgid.value]} else {}
      ensures Valid()
      ensures tgid.NotInt? ==> r == Err(Python(IndexError)) && users == old(users) && conn.dir == old(conn.dir)
      ensures tgid.IntTgid? ==>
                var t := tgid.value;
                var g := CacheGet(old(Cached(t)), old(conn.dir), conn.reachable, t, nickname,
                                  adminGroups, excludedGroups, tree, now);
                Cached(t) == g.entry && conn.dir == g.dir && OthersKept(t, old(users)) &&
                (g.out.Ok? ==> r.Ok? && t in users && users[t] == r.value && r.value.Rec() == g.out.value) &&
                (g.out.Err? ==> r == Err(g.out.error))
      ensures conn.depth == old(conn.depth)
    {
      if tgid.NotInt? {
        return Err(Python(IndexError));
      }
      var t := tgid.value;
      if t in users && !NeedUpdate(users[t].Rec(), now) {
        return Ok(users[t]);
      }
      var ok := conn.Enter();
      if !ok {
        return Err(ConnectionFailed);
      }
      if t in users {
        r := Revalidate(t, nickname, conn, now);
      } else {
        r := Fetch(t, nickname, conn, now);
      }
      conn.Exit();
    }

    /** A stale cached record inside `get`: `user.update(...)`, and on a refusal drop it and search again. */
    method Revalidate(t: int, nickname: Option<string>, conn: Connection, now: int) returns (r: Result<User, Error>)
      requires Valid() && conn.depth > 0 && t in users
      modifies this, conn, users[t]
      ensures Valid()
      ensures var g := Revalidated(old(users[t].Rec()), old(conn.dir), t, nickname, adminGroups, excludedGroups, tree, now);
              Cached(t) == g.entry && conn.dir == g.dir && OthersKept(t, old(users)) &&
              (g.out.Ok? ==> r.Ok? && t in users && users[t] == r.value && r.value.Rec() == g.out.value) &&
              (g.out.Err? ==> r == Err(g.out.error))
      ensures conn.depth == old(conn.depth)
    {
      var user := users[t];
      var out := user.Update(conn, adminGroups, excludedGroups, true, nickname, now);
      if out.Ok? {
        return Ok(user);
      }
      if !Evicts(out.error) {
        return Err(out.error);
      }
      users := users - {t};
      r := Fetch(t, nickname, conn, now);
    }

    /** The search of `get` when no cached record is usable; a found record is cached. */
    method Fetch(t: int, nickname: Option<string>, conn: Connection, now: int) returns (r: Result<User, Error>)
      requires Valid() && conn.depth > 0 && t !in users
      modifies this, conn
      ensures Valid()
      ensures var g := Fetched(old(conn.dir), t, nickname, adminGroups, excludedGroups, tree, now);
              Cached(t) == g.entry && conn.dir == g.dir && OthersKept(t, old(users)) &&
              (g.out.Ok? ==> r.Ok? && t in users && users[t] == r.value && r.value.Rec() == g.out.value) &&
              (g.out.Err? ==> r == Err(g.out.error))
      ensures conn.depth == old(conn.depth)
    {
      var found := User.Search(t, nickname, adminGroups, excludedGroups, conn, tree, now);
      if found.Err? {
        return Err(found.error);
      }
      users := users[t := found.value];
      return Ok(found.value);
    }

    /** `update_invite`. */
    method UpdateInvite(code: string, tgid: int, nickname: Option<string>, conn: Connection) returns (error: Option<Error>)
      modifies conn
      ensures Modified(conn.dir, error) == InviteLinked(old(conn.dir), conn.reachable, inviteTree, code, tgid, nickname)
      ensures conn.depth == old(conn.depth)
    {
      var ok := conn.Enter();
      if !ok {
        return Some(ConnectionFailed);
      }
      var found := conn.Search(inviteTree, InviteCode(code), []);
      if |found| == 0 {
        conn.Exit();
        return Some(AccountNotFound);
      }
      if |found| > 1 {
        conn.Exit();
        return Some(DuplicateEntry);
      }
      var dn := found[0].dn;
      var changes := [Replace("telegramid", IntToString(tgid))];
      if nickname.None? {
        changes := changes + [Delete("telegramnickname")];
      } else {
        changes := changes + [Replace("telegramnickname", nickname.value)];
      }
      error := conn.Modify(dn, changes);
      conn.Exit();
    }

    /** `delete_cache`: empties the cache and reports how many records it held. */
    method DeleteCache() returns (busted: nat)
      modifies this
      ensures busted == |old(users)| && users == map[] && Valid()
    {
      busted := |users|;
      users := map[];
    }
  }
}

/**
  * `User` of LdapWrapper.py: one person resolved from a Telegram id, the
  * two-step search that finds them (by Telegram id, then by nickname on an
  * entry that has no id yet), and the refresh of a cached record.
  *
  * Every directory interaction is first stated as a function from the
  * directory before the call to the directory after it and the outcome
  * (`Searched`, `Refreshed`, ...); the methods of `User` perform the same
  * steps on a `Connection` and are proved to agree with those functions.
  */
module LdapUser {
  import opened Basics
  import opened Ldap

  /** Attributes requested by `__search_by_tgid`. */
  const SearchAttrs: seq<string> := ["uid", "cn", "givenname", "sn", "memberof", "telegramnickname",
                                     "safetytestdate", "signedsir", "telegramid", "nsaccountlock"]

  /** Attributes requested by `update` as written: neither `surname` nor `safetytestdate` is among them. */
  const ReadAttrs: seq<string> := ["uid", "cn", "givenname", "sn", "memberof", "telegramnickname",
                                   "telegramid", "signedsir", "nsaccountlock"]

  /** Attributes the corrected refresh requests: the list above plus the safety-test date it copies. */
  const RefreshAttrs: seq<string> := ReadAttrs + ["safetytestdate"]

  /** A cached record is stale once it is more than this many seconds old. */
  const Ttl: int := 3600

  /** The fields of a `User`, as a value. */
  datatype UserRec = UserRec(
    dn: Dn,
    tgid: int,
    uid: string,
    cn: string,
    givenname: string,
    surname: string,
    dateofsafetytest: Option<Date>,
    signedsir: bool,
    isadmin: bool,
    nickname: Option<string>,
    lastUpdate: int)

  /** `need_update`. */
  predicate NeedUpdate(u: UserRec, now: int) {
    now - u.lastUpdate > Ttl
  }

  /** The directory after a step, and what the step produced or raised. */
  datatype Step<T> = Step(dir: Dir, out: Result<T, Error>)

  /** `__get_stored_nickname`. */
  function StoredNickname(attrs: Attrs): (r: Option<string>)
    ensures r.Some? <==> "telegramnickname" in attrs
    ensures r.Some? ==> r.value == attrs["telegramnickname"][0]
  {
    if "telegramnickname" in attrs then Some(attrs["telegramnickname"][0]) else None
  }

  /** The modlist of `__update_nickname`: no nickname deletes the attribute, any other replaces it. */
  function NicknameChange(nickname: Option<string>): seq<Change> {
    if nickname.None? then [Delete("telegramnickname")] else [Replace("telegramnickname", nickname.value)]
  }

  /** The modlist of `__update_id`. */
  function IdChange(tgid: int): seq<Change> {
    [Replace("telegramid", IntToString(tgid))]
  }

  // ---------------------------------------------------------------------------
  // The search, as functions of the directory

  /** `__search_by_tgid`. */
  function ByTgid(d: Dir, tgid: int, tree: Dn): Step<Entry> {
    var f := DoSearch(d, tree, PersonWithTelegramId(tgid), SearchAttrs);
    Step(f.dir, TheOnlyResult(f.entries))
  }

  /** `__search_by_nickname`: a unique unlinked entry gets the id written, then is searched again by id. */
  function ByNickname(d: Dir, nickname: string, tgid: int, tree: Dn): Step<Entry> {
    var f := DoSearch(d, tree, UnlinkedPersonWithNickname(nickname), []);
    match TheOnlyResult(f.entries)
    case Err(e) => Step(f.dir, Err(e))
    case Ok(e) =>
      var m := DoModify(f.dir, e.dn, IdChange(tgid));
      if m.error.Some? then Step(m.dir, Err(m.error.value)) else ByTgid(m.dir, tgid, tree)
  }

  /** The first half of `search`: by id, and by nickname only when the id is not found and a nickname is known. */
  function Lookup(d: Dir, tgid: int, tgnick: Option<string>, tree: Dn): Step<Entry> {
    var s := ByTgid(d, tgid, tree);
    if s.out == Err(AccountNotFound) && tgnick.Some? then ByNickname(s.dir, tgnick.value, tgid, tree) else s
  }

  /** The exclusion check, then the lock check, on an entry that was found. */
  function Admitted(s: Step<Entry>, excluded: seq<string>): Step<Entry> {
    match s.out
    case Err(_) => s
    case Ok(e) =>
      if InGroups(excluded, e.attrs) then Step(s.dir, Err(AccountNotFound))
      else if "nsaccountlock" in e.attrs then Step(s.dir, Err(AccountLocked))
      else s
  }

  /** Writes the observed nickname into the entry when the stored one differs. */
  function Reconciled(d: Dir, e: Entry, nickname: Option<string>): Modified {
    if StoredNickname(e.attrs) != nickname then DoModify(d, e.dn, NicknameChange(nickname)) else Modified(d, None)
  }

  /** The safety-test date, when the entry has one: `schac_to_date` of its first value. */
  function SafetyDate(attrs: Attrs): (r: Result<Option<Date>, Error>)
    ensures r.Ok? && r.value.Some? ==> "safetytestdate" in attrs
    ensures "safetytestdate" !in attrs ==> r == Ok(None)
  {
    if "safetytestdate" !in attrs then Ok(None)
    else match SchacToDate(attrs["safetytestdate"][0])
      case Err(e) => Err(e)
      case Ok(dt) => Ok(Some(dt))
  }

  /** The `User(...)` built at the end of `search`, in the order Python evaluates its arguments. */
  function BuildUser(dn: Dn, tgid: int, attrs: Attrs, isadmin: bool, nickname: Option<string>, now: int): Result<UserRec, Error> {
    match First(attrs, "uid")
    case Err(e) => Err(e)
    case Ok(uid) =>
      match First(attrs, "cn")
      case Err(e) => Err(e)
      case Ok(cn) =>
        match First(attrs, "givenname")
        case Err(e) => Err(e)
        case Ok(givenname) =>
          match First(attrs, "sn")
          case Err(e) => Err(e)
          case Ok(sn) =>
            match SafetyDate(attrs)
            case Err(e) => Err(e)
            case Ok(date) =>
              Ok(UserRec(dn, tgid, uid, cn, givenname, sn, date, FlagTrue(attrs, "signedsir"), isadmin, nickname, now))
  }

  /** `User.search`. */
  function Searched(d: Dir, tgid: int, tgnick: Option<string>, admin: seq<string>, excluded: seq<string>,
                    tree: Dn, now: int): (s: Step<UserRec>)
    ensures s.out.Ok? ==> s.out.value.tgid == tgid && s.out.value.nickname == tgnick && s.out.value.lastUpdate == now
  {
    var s := Admitted(Lookup(d, tgid, tgnick, tree), excluded);
    match s.out
    case Err(e) => Step(s.dir, Err(e))
    case Ok(e) =>
      var w := Reconciled(s.dir, e, tgnick);
      if w.error.Some? then Step(w.dir, Err(w.error.value))
      else Step(w.dir, BuildUser(e.dn, tgid, e.attrs, InGroups(admin, e.attrs), tgnick, now))
  }

  // ---------------------------------------------------------------------------
  // The refresh, as functions of the directory and the cached record

  /** A record after `update`, with the directory and what the call raised. */
  datatype Refresh = Refresh(rec: UserRec, dir: Dir, out: Result<(), Error>)

  /**
    * The read by DN that `update` evidently intends, a list of the entries at
    * the DN, then its result-count rule and the exclusion and lock checks.
    */
  function ReadChecked(d: Dir, dn: Dn, wanted: seq<string>, excluded: seq<string>): Step<Entry> {
    var f := DoReadEntries(d, dn, wanted);
    Admitted(Step(f.dir, TheOnlyResult(f.entries)), excluded)
  }

  /** Fields assigned so far, and the exception that stopped the copy if any. */
  datatype Copied = Copied(rec: UserRec, error: Option<Error>)

  /**
    * The field copy of `update` as written: `surname` instead of `sn`, and a
    * method `User` does not have. The checks before it never let a read
    * through (see `RefreshedAsWritten`), so it is stated on its own.
    */
  function CopyFieldsAsWritten(rec: UserRec, attrs: Attrs, admin: seq<string>): Copied {
    if "uid" !in attrs then Copied(rec, Some(Python(KeyError("uid"))))
    else
      var r1 := rec.(uid := attrs["uid"][0]);
      if "cn" !in attrs then Copied(r1, Some(Python(KeyError("cn"))))
      else
        var r2 := r1.(cn := attrs["cn"][0]);
        if "givenname" !in attrs then Copied(r2, Some(Python(KeyError("givenname"))))
        else
          var r3 := r2.(givenname := attrs["givenname"][0]);
          if "surname" !in attrs then Copied(r3, Some(Python(KeyError("surname"))))
          else
            var r4 := r3.(surname := attrs["surname"][0]);
            if "safetytestdate" in attrs then Copied(r4, Some(Python(AttributeError)))
            else Copied(r4.(dateofsafetytest := None, signedsir := FlagTrue(attrs, "signedsir"),
                            isadmin := InGroups(admin, attrs)), None)
  }

  /** The field copy `update` evidently intends: `sn`, and the date decoded as `search` decodes it. */
  function CopyFields(rec: UserRec, attrs: Attrs, admin: seq<string>): (c: Copied)
    ensures c.rec.dn == rec.dn && c.rec.tgid == rec.tgid && c.rec.nickname == rec.nickname
  {
    var c := CopyNames(rec, attrs);
    if c.error.Some? then c else CopyStatus(c.rec, attrs, admin)
  }

  /** The first four assignments of the copy, each of which raises `KeyError` when its attribute is missing. */
  function CopyNames(rec: UserRec, attrs: Attrs): Copied {
    if "uid" !in attrs then Copied(rec, Some(Python(KeyError("uid"))))
    else
      var r1 := rec.(uid := attrs["uid"][0]);
      if "cn" !in attrs then Copied(r1, Some(Python(KeyError("cn"))))
      else
        var r2 := r1.(cn := attrs["cn"][0]);
        if "givenname" !in attrs then Copied(r2, Some(Python(KeyError("givenname"))))
        else
          var r3 := r2.(givenname := attrs["givenname"][0]);
          if "sn" !in attrs then Copied(r3, Some(Python(KeyError("sn"))))
          else Copied(r3.(surname := attrs["sn"][0]), None)
  }

  /** The remaining assignments: the safety-test date, which can raise `ValueError`, and the two flags. */
  function CopyStatus(rec: UserRec, attrs: Attrs, admin: seq<string>): Copied {
    var date := SafetyDate(attrs);
    if date.Err? then Copied(rec, Some(date.error))
    else Copied(rec.(dateofsafetytest := date.value, signedsir := FlagTrue(attrs, "signedsir"),
                     isadmin := InGroups(admin, attrs)), None)
  }

  /**
    * `User.update` as written. `read_s` returns the entry's attribute
    * dictionary, so the checks written for a list of results count its
    * attributes: none raises `AccountNotFoundError`, more than one
    * `DuplicateEntryError`, and exactly one reaches
    * `__extract_the_only_result`, whose `result.pop()` without a key raises
    * `TypeError` on a dictionary. A DN with no entry raises `NO_SUCH_OBJECT`
    * out of the call. The record is left as it was in every case.
    */
  function RefreshedAsWritten(d: Dir, rec: UserRec): Refresh {
    var f := DoRead(d, rec.dn, ReadAttrs);
    match f.out
    case Err(e) => Refresh(rec, f.dir, Err(e))
    case Ok(attrs) =>
      if |attrs| == 0 then Refresh(rec, f.dir, Err(AccountNotFound))
      else if |attrs| > 1 then Refresh(rec, f.dir, Err(DuplicateEntry))
      else Refresh(rec, f.dir, Err(Python(TypeError)))
  }

  /**
    * `User.update` with the read of `ReadChecked` and the field copy of
    * `CopyFields`. Like the source, it
    * never changes the cached DN, id or nickname, and a successful refresh
    * renews the time stamp.
    */
  function Refreshed(d: Dir, rec: UserRec, admin: seq<string>, excluded: seq<string>,
                     alsoNickname: bool, nickname: Option<string>, now: int): (r: Refresh)
    ensures r.rec.dn == rec.dn && r.rec.tgid == rec.tgid && r.rec.nickname == rec.nickname
    ensures r.out.Ok? ==> r.rec.lastUpdate == now
  {
    var s := ReadChecked(d, rec.dn, RefreshAttrs, excluded);
    match s.out
    case Err(e) => Refresh(rec, s.dir, Err(e))
    case Ok(e) =>
      var c := CopyFields(rec, e.attrs, admin);
      if c.error.Some? then Refresh(c.rec, s.dir, Err(c.error.value))
      else
        var w := if alsoNickname then Reconciled(s.dir, e, nickname) else Modified(s.dir, None);
        if w.error.Some? then Refresh(c.rec, w.dir, Err(w.error.value))
        else Refresh(c.rec.(lastUpdate := now), w.dir, Ok(()))
  }

  // ---------------------------------------------------------------------------
  // Properties of the search

  /** A successful lookup, by either path, ends on a search by id that found exactly that entry. */
  lemma LookupFound(d: Dir, tgid: int, tgnick: Option<string>, tree: Dn)
    requires Lookup(d, tgid, tgnick, tree).out.Ok?
    ensures var l := Lookup(d, tgid, tgnick, tree);
            var found := Select(l.dir.entries, tree, PersonWithTelegramId(tgid), SearchAttrs);
            |found| == 1 && l.out.value == found[0]
  {
  }

  /** An entry after a nickname write: same DN, the new nickname, every other attribute as it was. */
  ghost predicate SameButNickname(x: Entry, y: Entry, nickname: Option<string>) {
    && y.dn == x.dn
    && StoredNickname(y.attrs) == nickname
    && (forall k :: k != "telegramnickname" ==> (k in y.attrs <==> k in x.attrs))
    && (forall k :: k != "telegramnickname" && k in y.attrs ==> y.attrs[k] == x.attrs[k])
  }

  lemma NicknameChangeEffect(attrs: Attrs, nickname: Option<string>)
    requires ApplyChanges(attrs, NicknameChange(nickname)).Some?
    ensures var a := ApplyChanges(attrs, NicknameChange(nickname)).value;
            SameButNickname(Entry("", attrs), Entry("", a), nickname)
  {
    var c := NicknameChange(nickname);
    assert c[1..] == [];
    if nickname.None? {
      assert ApplyChanges(attrs, c) == ApplyChanges(attrs - {"telegramnickname"}, []);
    } else {
      assert ApplyChanges(attrs, c) == ApplyChanges(attrs["telegramnickname" := [nickname.value]], []);
    }
  }

  /** One entry of a nickname write: the same match against a search by id, and only the nickname changed. */
  lemma EntryAfterNicknameChange(e: Entry, e2: Entry, dn: Dn, nickname: Option<string>, tree: Dn, tgid: int)
    requires e.dn != dn ==> e2 == e
    requires e.dn == dn ==> ApplyChanges(e.attrs, NicknameChange(nickname)).Some? &&
                            e2 == Entry(dn, ApplyChanges(e.attrs, NicknameChange(nickname)).value)
    ensures e2.dn == e.dn
    ensures Matches(PersonWithTelegramId(tgid), e2.attrs) == Matches(PersonWithTelegramId(tgid), e.attrs)
    ensures e.dn == dn ==>
              SameButNickname(Entry(dn, Project(e.attrs, SearchAttrs)), Entry(dn, Project(e2.attrs, SearchAttrs)), nickname)
  {
    if e.dn == dn {
      var a := e2.attrs;
      NicknameChangeEffect(e.attrs, nickname);
      assert ("objectclass" in a) == ("objectclass" in e.attrs);
      assert ("telegramid" in a) == ("telegramid" in e.attrs);
      assert "telegramnickname" in SearchAttrs;
    }
  }

  /** `y` is what a nickname write at `dn` leaves of the search result `x`. */
  ghost predicate Rewritten(x: Entry, y: Entry, dn: Dn, nickname: Option<string>) {
    && (x.dn == dn ==> SameButNickname(x, y, nickname))
    && (x.dn != dn ==> y == x)
  }

  /** Two search results that correspond position by position. */
  ghost predicate AllRewritten(xs: seq<Entry>, ys: seq<Entry>, dn: Dn, nickname: Option<string>) {
    |ys| == |xs| && forall i :: 0 <= i < |ys| ==> Rewritten(xs[i], ys[i], dn, nickname)
  }

  lemma AllRewrittenCons(x: Entry, y: Entry, xs: seq<Entry>, ys: seq<Entry>, dn: Dn, nickname: Option<string>)
    requires Rewritten(x, y, dn, nickname) && AllRewritten(xs, ys, dn, nickname)
    ensures AllRewritten([x] + xs, [y] + ys, dn, nickname)
  {
    forall i | 1 <= i < |ys| + 1
      ensures Rewritten(([x] + xs)[i], ([y] + ys)[i], dn, nickname)
    {
      assert ([x] + xs)[i] == xs[i - 1] && ([y] + ys)[i] == ys[i - 1];
    }
  }

  /**
    * A nickname write changes no entry's match against a search by id, and
    * leaves the entries at the written DN with that nickname and nothing else
    * changed.
    */
  lemma {:induction false} SelectAfterNicknameChange(es: seq<Entry>, dn: Dn, nickname: Option<string>, tree: Dn, tgid: int, es': seq<Entry>)
    requires ModifyAll(es, dn, NicknameChange(nickname)) == Some(es')
    ensures AllRewritten(Select(es, tree, PersonWithTelegramId(tgid), SearchAttrs),
                         Select(es', tree, PersonWithTelegramId(tgid), SearchAttrs), dn, nickname)
  {
    var f := PersonWithTelegramId(tgid);
    if es != [] {
      var e := es[0];
      var rest' := ModifyAll(es[1..], dn, NicknameChange(nickname)).value;
      var e2 := if e.dn == dn then Entry(dn, ApplyChanges(e.attrs, NicknameChange(nickname)).value) else e;
      assert es' == [e2] + rest';
      assert es'[1..] == rest';
      SelectAfterNicknameChange(es[1..], dn, nickname, tree, tgid, rest');
      EntryAfterNicknameChange(e, e2, dn, nickname, tree, tgid);
      var rb := Select(es[1..], tree, f, SearchAttrs);
      var ra := Select(rest', tree, f, SearchAttrs);
      if InTree(e.dn, tree) && Matches(f, e.attrs) {
        var x := Entry(e.dn, Project(e.attrs, SearchAttrs));
        var y := Entry(e2.dn, Project(e2.attrs, SearchAttrs));
        assert Select(es, tree, f, SearchAttrs) == [x] + rb;
        assert Select(es', tree, f, SearchAttrs) == [y] + ra;
        AllRewrittenCons(x, y, rb, ra, dn, nickname);
      }
    }
  }

  /**
    * After a successful search, searching again for the same person takes
    * the direct path by id, writes nothing, and yields the same record.
    */
  lemma SearchAgainIsQuiet(d: Dir, tgid: int, tgnick: Option<string>, admin: seq<string>, excluded: seq<string>,
                           tree: Dn, now: int, later: int)
    requires Searched(d, tgid, tgnick, admin, excluded, tree, now).out.Ok?
    ensures var s := Searched(d, tgid, tgnick, admin, excluded, tree, now);
            var again := Searched(s.dir, tgid, tgnick, admin, excluded, tree, later);
            again.out == Ok(s.out.value.(lastUpdate := later)) &&
            again.dir == s.dir.(log := s.dir.log + [SearchOp(tree, PersonWithTelegramId(tgid))])
  {
    var f := PersonWithTelegramId(tgid);
    var l := Lookup(d, tgid, tgnick, tree);
    LookupFound(d, tgid, tgnick, tree);
    var e := l.out.value;
    var w := Reconciled(l.dir, e, tgnick);
    var after := Select(w.dir.entries, tree, f, SearchAttrs);
    if StoredNickname(e.attrs) != tgnick {
      var es' := ModifyAll(l.dir.entries, e.dn, NicknameChange(tgnick)).value;
      SelectAfterNicknameChange(l.dir.entries, e.dn, tgnick, tree, tgid, es');
      assert SameButNickname(e, after[0], tgnick);
    } else {
      assert after[0] == e;
    }
    var y := after[0];
    assert ("memberof" in y.attrs) == ("memberof" in e.attrs);
    assert "memberof" in y.attrs ==> y.attrs["memberof"] == e.attrs["memberof"];
    assert InGroups(excluded, y.attrs) == InGroups(excluded, e.attrs);
    assert InGroups(admin, y.attrs) == InGroups(admin, e.attrs);
    assert ("nsaccountlock" in y.attrs) == ("nsaccountlock" in e.attrs);
    BuildUserSameFields(e, y, tgid, InGroups(admin, e.attrs), tgnick, now, later);
  }

  /** Building a record needs only the attributes a nickname write leaves alone. */
  lemma BuildUserSameFields(x: Entry, y: Entry, tgid: int, isadmin: bool, nickname: Option<string>, now: int, later: int)
    requires BuildUser(x.dn, tgid, x.attrs, isadmin, nickname, now).Ok?
    requires y.dn == x.dn
    requires forall k :: k != "telegramnickname" ==> (k in y.attrs <==> k in x.attrs)
    requires forall k :: k != "telegramnickname" && k in y.attrs ==> y.attrs[k] == x.attrs[k]
    ensures BuildUser(y.dn, tgid, y.attrs, isadmin, nickname, later)
            == Ok(BuildUser(x.dn, tgid, x.attrs, isadmin, nickname, now).value.(lastUpdate := later))
  {
    assert SafetyDate(y.attrs) == SafetyDate(x.attrs);
    assert FlagTrue(y.attrs, "signedsir") == FlagTrue(x.attrs, "signedsir");
  }

  /** The result-count rule of the search by id: zero or several matches end the search without a write. */
  lemma SearchCountRule(d: Dir, tgid: int, tgnick: Option<string>, admin: seq<string>, excluded: seq<string>,
                        tree: Dn, now: int)
    ensures var n := |Select(d.entries, tree, PersonWithTelegramId(tgid), SearchAttrs)|;
            var s := Searched(d, tgid, tgnick, admin, excluded, tree, now);
            var searched := d.(log := d.log + [SearchOp(tree, PersonWithTelegramId(tgid))]);
            (n > 1 ==> s == Step(searched, Err(DuplicateEntry))) &&
            (n == 0 && tgnick.None? ==> s == Step(searched, Err(AccountNotFound)))
  {
  }

  /**
    * The nickname fallback: with no match by id, a unique unlinked entry
    * with that nickname gets the id written before anything else; none or
    * several end the search without a write.
    */
  lemma SearchFallback(d: Dir, tgid: int, nickname: string, admin: seq<string>, excluded: seq<string>,
                       tree: Dn, now: int)
    requires |Select(d.entries, tree, PersonWithTelegramId(tgid), SearchAttrs)| == 0
    ensures var byNick := UnlinkedPersonWithNickname(nickname);
            var m := Select(d.entries, tree, byNick, []);
            var s := Searched(d, tgid, Some(nickname), admin, excluded, tree, now);
            var searched := d.(log := d.log + [SearchOp(tree, PersonWithTelegramId(tgid)), SearchOp(tree, byNick)]);
            (|m| == 0 ==> s == Step(searched, Err(AccountNotFound))) &&
            (|m| > 1 ==> s == Step(searched, Err(DuplicateEntry))) &&
            (|m| == 1 ==> |s.dir.log| >= |searched.log| + 1 &&
                          s.dir.log[..|searched.log| + 1] == searched.log + [ModifyOp(m[0].dn, IdChange(tgid))])
  {
    var byNick := UnlinkedPersonWithNickname(nickname);
    var s1 := ByTgid(d, tgid, tree);
    assert s1.out == Err(AccountNotFound) && s1.dir.entries == d.entries;
    var f := DoSearch(s1.dir, tree, byNick, []);
    var m := f.entries;
    var l := Lookup(d, tgid, Some(nickname), tree);
    assert l == ByNickname(s1.dir, nickname, tgid, tree);
    if |m| == 1 {
      var w := DoModify(f.dir, m[0].dn, IdChange(tgid));
      assert l.dir.log[..|f.dir.log| + 1] == w.dir.log;
      SearchedExtendsLookup(d, tgid, Some(nickname), admin, excluded, tree, now);
    }
  }

  /** The requests of `search` after the lookup only add to its log. */
  lemma SearchedExtendsLookup(d: Dir, tgid: int, tgnick: Option<string>, admin: seq<string>, excluded: seq<string>,
                              tree: Dn, now: int)
    ensures Lookup(d, tgid, tgnick, tree).dir.log <= Searched(d, tgid, tgnick, admin, excluded, tree, now).dir.log
  {
  }

  /** A person in an excluded group is reported as not found, even when the account is also locked. */
  lemma ExclusionBeforeLock(d: Dir, tgid: int, tgnick: Option<string>, admin: seq<string>, excluded: seq<string>,
                            tree: Dn, now: int)
    requires Lookup(d, tgid, tgnick, tree).out.Ok?
    ensures var l := Lookup(d, tgid, tgnick, tree);
            var e := l.out.value;
            var s := Searched(d, tgid, tgnick, admin, excluded, tree, now);
            (InGroups(excluded, e.attrs) ==> s == Step(l.dir, Err(AccountNotFound))) &&
            (!InGroups(excluded, e.attrs) && "nsaccountlock" in e.attrs ==> s == Step(l.dir, Err(AccountLocked)))
  {
  }

  /**
    * The nickname write of a search happens exactly when the stored nickname
    * differs from the observed one; it deletes the attribute when there is no
    * observed nickname and replaces it otherwise, and the record carries the
    * observed nickname.
    */
  lemma SearchReconcilesNickname(d: Dir, tgid: int, tgnick: Option<string>, admin: seq<string>, excluded: seq<string>,
                                 tree: Dn, now: int)
    requires Searched(d, tgid, tgnick, admin, excluded, tree, now).out.Ok?
    ensures var l := Lookup(d, tgid, tgnick, tree);
            var e := l.out.value;
            var s := Searched(d, tgid, tgnick, admin, excluded, tree, now);
            s.out.value.nickname == tgnick &&
            s.out.value.dn == e.dn &&
            s.dir.log == l.dir.log + (if StoredNickname(e.attrs) != tgnick then [ModifyOp(e.dn, NicknameChange(tgnick))] else []) &&
            (tgnick.None? ==> NicknameChange(tgnick) == [Delete("telegramnickname")]) &&
            (tgnick.Some? ==> NicknameChange(tgnick) == [Replace("telegramnickname", tgnick.value)])
  {
  }

  // ---------------------------------------------------------------------------
  // Properties of the refresh

  /**
    * As written, no refresh succeeds: every call raises, writes nothing and
    * leaves the record as it was. A DN whose entry is gone raises
    * `NO_SUCH_OBJECT`, and an entry with a `uid` and a `cn`, as every person
    * has, raises `DuplicateEntryError`.
    */
  lemma RefreshedAsWrittenRaises(d: Dir, rec: UserRec)
    ensures var r := RefreshedAsWritten(d, rec);
            && r.out.Err? && r.rec == rec && r.dir == d.(log := d.log + [ReadOp(rec.dn)])
            && (r.out == Err(NoSuchObject) <==> !HasDn(d.entries, rec.dn))
            && (HasDn(d.entries, rec.dn) &&
                (forall j :: 0 <= j < |d.entries| && d.entries[j].dn == rec.dn ==>
                               "uid" in d.entries[j].attrs && "cn" in d.entries[j].attrs)
                ==> r.out == Err(DuplicateEntry))
  {
    ReadOfDn(d, rec.dn, ReadAttrs);
    var f := DoRead(d, rec.dn, ReadAttrs);
    if HasDn(d.entries, rec.dn) && (forall j :: 0 <= j < |d.entries| && d.entries[j].dn == rec.dn ==>
                                                 "uid" in d.entries[j].attrs && "cn" in d.entries[j].attrs) {
      var j :| 0 <= j < |d.entries| && d.entries[j].dn == rec.dn && f.out.value == Project(d.entries[j].attrs, ReadAttrs);
      assert "uid" in ReadAttrs && "cn" in ReadAttrs;
      TwoKeys(f.out.value, "uid", "cn");
    }
  }

  /** A dictionary with two different keys has at least two entries. */
  lemma TwoKeys(m: Attrs, a: string, b: string)
    requires a != b && a in m && b in m
    ensures |m| >= 2
  {
    var rest := m - {a};
    assert b in rest;
    assert |rest| >= 1;
    assert m.Keys == rest.Keys + {a};
  }

  /**
    * The field copy as written, on an entry read with the attributes `update`
    * requests: `surname` is not among them, so once `uid`, `cn` and
    * `givenname` are copied it raises `KeyError('surname')`.
    */
  lemma CopyAsWrittenRaises(rec: UserRec, attrs: Attrs, admin: seq<string>)
    requires "uid" in attrs && "cn" in attrs && "givenname" in attrs
    ensures var c := CopyFieldsAsWritten(rec, Project(attrs, ReadAttrs), admin);
            c.error == Some(Python(KeyError("surname"))) && c.rec.lastUpdate == rec.lastUpdate
  {
    assert "uid" in ReadAttrs && "cn" in ReadAttrs && "givenname" in ReadAttrs && "surname" !in ReadAttrs;
  }

  /**
    * The corrected refresh succeeds on any entry that passes the checks and
    * has the naming attributes and a well-formed date: the record mirrors the
    * entry, its time stamp is renewed, and the nickname write, when needed,
    * goes through.
    */
  lemma RefreshedMirrorsEntry(d: Dir, rec: UserRec, admin: seq<string>, excluded: seq<string>,
                              alsoNickname: bool, nickname: Option<string>, now: int)
    requires var s := ReadChecked(d, rec.dn, RefreshAttrs, excluded);
             s.out.Ok? && "uid" in s.out.value.attrs && "cn" in s.out.value.attrs &&
             "givenname" in s.out.value.attrs && "sn" in s.out.value.attrs && SafetyDate(s.out.value.attrs).Ok?
    ensures var s := ReadChecked(d, rec.dn, RefreshAttrs, excluded);
            var a := s.out.value.attrs;
            var r := Refreshed(d, rec, admin, excluded, alsoNickname, nickname, now);
            r.out == Ok(()) &&
            r.rec == rec.(uid := a["uid"][0], cn := a["cn"][0], givenname := a["givenname"][0], surname := a["sn"][0],
                          dateofsafetytest := SafetyDate(a).value, signedsir := FlagTrue(a, "signedsir"),
                          isadmin := InGroups(admin, a), lastUpdate := now) &&
            !NeedUpdate(r.rec, now) &&
            r.dir.log == s.dir.log + (if alsoNickname && StoredNickname(a) != nickname
                                      then [ModifyOp(rec.dn, NicknameChange(nickname))] else [])
  {
    var s := ReadChecked(d, rec.dn, RefreshAttrs, excluded);
    var e := s.out.value;
    CopyFieldsMirrors(rec, e.attrs, admin);
    if alsoNickname {
      ReconcileAfterRead(d, rec.dn, excluded, nickname);
    }
  }

  /** The copy succeeds on an entry with the naming attributes and a well-formed date. */
  lemma CopyFieldsMirrors(rec: UserRec, a: Attrs, admin: seq<string>)
    requires "uid" in a && "cn" in a && "givenname" in a && "sn" in a && SafetyDate(a).Ok?
    ensures CopyFields(rec, a, admin)
            == Copied(rec.(uid := a["uid"][0], cn := a["cn"][0], givenname := a["givenname"][0], surname := a["sn"][0],
                           dateofsafetytest := SafetyDate(a).value, signedsir := FlagTrue(a, "signedsir"),
                           isadmin := InGroups(admin, a)), None)
  {
  }

  /** The nickname write after a successful read by DN goes through. */
  lemma ReconcileAfterRead(d: Dir, dn: Dn, excluded: seq<string>, nickname: Option<string>)
    requires ReadChecked(d, dn, RefreshAttrs, excluded).out.Ok?
    ensures var s := ReadChecked(d, dn, RefreshAttrs, excluded);
            var w := Reconciled(s.dir, s.out.value, nickname);
            w.error.None? &&
            w.dir.log == s.dir.log + (if StoredNickname(s.out.value.attrs) != nickname
                                      then [ModifyOp(dn, NicknameChange(nickname))] else [])
  {
    var s := ReadChecked(d, dn, RefreshAttrs, excluded);
    var e := s.out.value;
    assert e == SelectDn(d.entries, dn, RefreshAttrs)[0];
    assert s.dir.entries == d.entries;
    if StoredNickname(e.attrs) != nickname {
      SelectDnProjects(d.entries, dn, RefreshAttrs, 0);
      if nickname.None? {
        DeleteReturnedAttribute(d.entries, dn, RefreshAttrs, "telegramnickname");
      } else {
        var j :| 0 <= j < |d.entries| && d.entries[j].dn == dn;
        assert HasDn(d.entries, dn);
        ReplaceApplies(d.entries, dn, "telegramnickname", nickname.value);
      }
    }
  }

  // ---------------------------------------------------------------------------
  // The mutable record

  /** `User`: a dataclass whose fields `update` reassigns in place. */
  class User {
    var dn: Dn
    var tgid: int
    var uid: string
    var cn: string
    var givenname: string
    var surname: string
    var dateofsafetytest: Option<Date>
    var signedsir: bool
    var isadmin: bool
    var nickname: Option<string>
    var lastUpdate: int

    function Rec(): UserRec
      reads this
    {
      UserRec(dn, tgid, uid, cn, givenname, surname, dateofsafetytest, signedsir, isadmin, nickname, lastUpdate)
    }

    /** The dataclass constructor; `__post_init__` stamps the time, here part of `r`. */
    constructor FromRec(r: UserRec)
      ensures Rec() == r
    {
      dn, tgid, uid, cn, givenname, surname := r.dn, r.tgid, r.uid, r.cn, r.givenname, r.surname;
      dateofsafetytest, signedsir, isadmin, nickname, lastUpdate := r.dateofsafetytest, r.signedsir, r.isadmin, r.nickname, r.lastUpdate;
    }

    /** `update`, with the read of the entries at the DN and the field copy corrected. */
    method Update(conn: Connection, admin: seq<string>, excluded: seq<string>, alsoNickname: bool,
                  nickname: Option<string>, now: int) returns (out: Result<(), Error>)
      requires conn.depth > 0
      modifies this, conn
      ensures var u := Refreshed(old(conn.dir), old(Rec()), admin, excluded, alsoNickname, nickname, now);
              Rec() == u.rec && conn.dir == u.dir && out == u.out
      ensures conn.depth == old(conn.depth)
    {
      var found := conn.ReadEntries(dn, RefreshAttrs);
      if |found| == 0 {
        return Err(AccountNotFound);
      }
      if |found| > 1 {
        return Err(DuplicateEntry);
      }
      var e := found[|found| - 1];
      var notAllowed := IsInGroups(excluded, e.attrs);
      if notAllowed {
        return Err(AccountNotFound);
      }
      if "nsaccountlock" in e.attrs {
        return Err(AccountLocked);
      }
      var a := e.attrs;
      var failure := CopyFrom(a, admin);
      if failure.Some? {
        return Err(failure.value);
      }
      if alsoNickname {
        if StoredNickname(a) != nickname {
          var error := UpdateNickname(e.dn, nickname, conn);
          if error.Some? {
            return Err(error.value);
          }
        }
      }
      lastUpdate := now;
      return Ok(());
    }

    /** The field assignments of `update`, which stop at the first exception. */
    method CopyFrom(a: Attrs, admin: seq<string>) returns (error: Option<Error>)
      modifies this
      ensures Copied(Rec(), error) == CopyFields(old(Rec()), a, admin)
    {
      error := CopyNamesFrom(a);
      if error.None? {
        error := CopyStatusFrom(a, admin);
      }
    }

    method CopyNamesFrom(a: Attrs) returns (error: Option<Error>)
      modifies this
      ensures Copied(Rec(), error) == CopyNames(old(Rec()), a)
    {
      if "uid" !in a {
        return Some(Python(KeyError("uid")));
      }
      uid := a["uid"][0];
      if "cn" !in a {
        return Some(Python(KeyError("cn")));
      }
      cn := a["cn"][0];
      if "givenname" !in a {
        return Some(Python(KeyError("givenname")));
      }
      givenname := a["givenname"][0];
      if "sn" !in a {
        return Some(Python(KeyError("sn")));
      }
      surname := a["sn"][0];
      return None;
    }

    method CopyStatusFrom(a: Attrs, admin: seq<string>) returns (error: Option<Error>)
      modifies this
      ensures Copied(Rec(), error) == CopyStatus(old(Rec()), a, admin)
    {
      var date := SafetyDate(a);
      if date.Err? {
        return Some(date.error);
      }
      dateofsafetytest := date.value;
      signedsir := FlagTrue(a, "signedsir");
      isadmin := IsInGroups(admin, a);
      return None;
    }

    /** `User.search`: the new record is a fresh object. */
    static method Search(tgid: int, tgnick: Option<string>, admin: seq<string>, excluded: seq<string>,
                         conn: Connection, tree: Dn, now: int) returns (r: Result<User, Error>)
      requires conn.depth > 0
      modifies conn
      ensures var s := Searched(old(conn.dir), tgid, tgnick, admin, excluded, tree, now);
              conn.dir == s.dir &&
              (s.out.Ok? ==> r.Ok? && fresh(r.value) && r.value.Rec() == s.out.value) &&
              (s.out.Err? ==> r == Err(s.out.error))
      ensures conn.depth == old(conn.depth)
    {
      var found := SearchByTgid(conn, tgid, tree);
      if found == Err(AccountNotFound) && tgnick.Some? {
        found := SearchByNickname(conn, tgnick.value, tgid, tree);
      }
      if found.Err? {
        return Err(found.error);
      }
      var e := found.value;
      var notAllowed := IsInGroups(excluded, e.attrs);
      if notAllowed {
        return Err(AccountNotFound);
      }
      if "nsaccountlock" in e.attrs {
        return Err(AccountLocked);
      }
      var isadmin := IsInGroups(admin, e.attrs);
      if StoredNickname(e.attrs) != tgnick {
        var error := UpdateNickname(e.dn, tgnick, conn);
        if error.Some? {
          return Err(error.value);
        }
      }
      var rec := BuildUser(e.dn, tgid, e.attrs, isadmin, tgnick, now);
      if rec.Err? {
        return Err(rec.error);
      }
      var u := new User.FromRec(rec.value);
      return Ok(u);
    }

    /** `__search_by_tgid`. */
    static method SearchByTgid(conn: Connection, tgid: int, tree: Dn) returns (r: Result<Entry, Error>)
      requires conn.depth > 0
      modifies conn
      ensures Step(conn.dir, r) == ByTgid(old(conn.dir), tgid, tree)
      ensures conn.depth == old(conn.depth)
    {
      var found := conn.Search(tree, PersonWithTelegramId(tgid), SearchAttrs);
      if |found| == 0 {
        return Err(AccountNotFound);
      }
      if |found| > 1 {
        return Err(DuplicateEntry);
      }
      return Ok(found[|found| - 1]);
    }

    /** `__search_by_nickname`. */
    static method SearchByNickname(conn: Connection, tgnick: string, tgid: int, tree: Dn) returns (r: Result<Entry, Error>)
      requires conn.depth > 0
      modifies conn
      ensures Step(conn.dir, r) == ByNickname(old(conn.dir), tgnick, tgid, tree)
      ensures conn.depth == old(conn.depth)
    {
      var found := conn.Search(tree, UnlinkedPersonWithNickname(tgnick), []);
      if |found| == 0 {
        return Err(AccountNotFound);
      }
      if |found| > 1 {
        return Err(DuplicateEntry);
      }
      var dn := found[0].dn;
      var error := UpdateId(dn, tgid, conn);
      if error.Some? {
        return Err(error.value);
      }
      r := SearchByTgid(conn, tgid, tree);
    }

    /** `__update_nickname`. */
    static method UpdateNickname(dn: Dn, newNickname: Option<string>, conn: Connection) returns (error: Option<Error>)
      requires conn.depth > 0
      modifies conn
      ensures Modified(conn.dir, error) == DoModify(old(conn.dir), dn, NicknameChange(newNickname))
      ensures conn.depth == old(conn.depth)
    {
      if newNickname.None? {
        error := conn.Modify(dn, [Delete("telegramnickname")]);
      } else {
        error := conn.Modify(dn, [Replace("telegramnickname", newNickname.value)]);
      }
    }

    /** `__update_id`. */
    static method UpdateId(dn: Dn, newId: int, conn: Connection) returns (error: Option<Error>)
      requires conn.depth > 0
      modifies conn
      ensures Modified(conn.dir, error) == DoModify(old(conn.dir), dn, IdChange(newId))
      ensures conn.depth == old(conn.depth)
    {
      error := conn.Modify(dn, [Replace("telegramid", IntToString(newId))]);
    }
  }
}

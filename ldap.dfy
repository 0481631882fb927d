/**
  * The directory as LdapWrapper.py sees it through python-ldap: an ordered
  * list of entries that answers the four search filters the wrapper builds,
  * reads by DN and atomic modify requests, plus the scoped connection of
  * `LdapConnection`, the wrapper's exception classes and the attribute
  * decoders shared by `User` and `People`.
  *
  * Filters are structured values rather than filter strings, so the
  * escaping done by `escape_filter_chars` is implicit: a nickname or invite
  * code is always compared literally.
  */
module Ldap {
  import opened Basics

  type Dn = string

  /** An attribute present in an LDAP entry always has at least one value. */
  type Values = s: seq<string> | |s| > 0 witness [""]

  /** Attribute name (lower-case, as the wrapper spells it when reading) to its values. */
  type Attrs = map<string, Values>

  datatype Entry = Entry(dn: Dn, attrs: Attrs)

  /** The four filters the wrapper sends. */
  datatype Filter =
    | PersonWithTelegramId(tgid: int)              // (&(objectClass=weeeOpenPerson)(telegramId=<tgid>))
    | UnlinkedPersonWithNickname(nickname: string) // (&(objectClass=weeeOpenPerson)(!(telegramId=*))(telegramNickname=<nickname>))
    | InviteCode(code: string)                     // (inviteCode=<code>)
    | AnyPerson                                    // (objectClass=weeeOpenPerson)

  /** One element of a modlist: `MOD_REPLACE` with a single value, or `MOD_DELETE` of the whole attribute. */
  datatype Change = Replace(attr: string, value: string) | Delete(attr: string)

  /** A request sent to the directory, recorded so that contracts can say which requests a call issued. */
  datatype Op =
    | SearchOp(base: Dn, filter: Filter)
    | ReadOp(dn: Dn)
    | ModifyOp(dn: Dn, changes: seq<Change>)

  /** The directory's entries in the order it returns them, and the requests issued so far. */
  datatype Dir = Dir(entries: seq<Entry>, log: seq<Op>)

  /** The exceptions that reach the callers of the wrapper. */
  datatype Error =
    | AccountNotFound   // AccountNotFoundError
    | AccountLocked     // AccountLockedError
    | DuplicateEntry    // DuplicateEntryError
    | ConnectionFailed  // the connection could not be opened or bound
    | NoSuchObject      // ldap.NO_SUCH_OBJECT: a read or modify of a DN with no entry
    | NoSuchAttribute   // ldap.NO_SUCH_ATTRIBUTE: MOD_DELETE of an absent attribute
    | Python(e: PyError)

  // ---------------------------------------------------------------------------
  // Matching

  predicate HasValue(attrs: Attrs, name: string, v: string) {
    name in attrs && v in attrs[name]
  }

  predicate IsPerson(attrs: Attrs) {
    HasValue(attrs, "objectclass", "weeeOpenPerson")
  }

  predicate Matches(f: Filter, attrs: Attrs) {
    match f
    case PersonWithTelegramId(t) => IsPerson(attrs) && HasValue(attrs, "telegramid", IntToString(t))
    case UnlinkedPersonWithNickname(n) =>
      IsPerson(attrs) && "telegramid" !in attrs && HasValue(attrs, "telegramnickname", n)
    case InviteCode(c) => HasValue(attrs, "invitecode", c)
    case AnyPerson => IsPerson(attrs)
  }

  /** Subtree scope: the base itself or any entry below it. */
  predicate InTree(dn: Dn, base: Dn) {
    dn == base || (|dn| > |base| && dn[|dn| - |base| - 1..] == [','] + base)
  }

  /** The attributes the server returns for a requested list; an empty list asks for all of them. */
  function Project(attrs: Attrs, wanted: seq<string>): (r: Attrs)
    ensures forall k :: k in r <==> k in attrs && (wanted == [] || k in wanted)
    ensures forall k :: k in r ==> r[k] == attrs[k]
  {
    if wanted == [] then attrs else map k | k in attrs && k in wanted :: attrs[k]
  }

  function Select(entries: seq<Entry>, base: Dn, f: Filter, wanted: seq<string>): (r: seq<Entry>)
    ensures |r| <= |entries|
  {
    if entries == [] then []
    else
      var e := entries[0];
      var rest := Select(entries[1..], base, f, wanted);
      if InTree(e.dn, base) && Matches(f, e.attrs) then [Entry(e.dn, Project(e.attrs, wanted))] + rest else rest
  }

  function SelectDn(entries: seq<Entry>, dn: Dn, wanted: seq<string>): (r: seq<Entry>)
    ensures |r| <= |entries|
    ensures forall i :: 0 <= i < |r| ==> r[i].dn == dn
  {
    if entries == [] then []
    else
      var rest := SelectDn(entries[1..], dn, wanted);
      if entries[0].dn == dn then [Entry(dn, Project(entries[0].attrs, wanted))] + rest else rest
  }

  // ---------------------------------------------------------------------------
  // Requests

  datatype Found = Found(dir: Dir, entries: seq<Entry>)

  /** `search_s(base, SCOPE_SUBTREE, filter, wanted)`. */
  function DoSearch(d: Dir, base: Dn, f: Filter, wanted: seq<string>): Found {
    Found(d.(log := d.log + [SearchOp(base, f)]), Select(d.entries, base, f, wanted))
  }

  /** The directory after a read, and the attribute dictionary it returned or what it raised. */
  datatype ReadReply = ReadReply(dir: Dir, out: Result<Attrs, Error>)

  /**
    * python-ldap's `read_s(dn, None, wanted)`: a base-scope search of `dn`
    * with the filter `(objectClass=*)`, which every entry matches, returning
    * the attribute dictionary of the entry found, not a list of results. A
    * DN with no entry makes the server answer `NO_SUCH_OBJECT`.
    */
  function DoRead(d: Dir, dn: Dn, wanted: seq<string>): ReadReply {
    var found := SelectDn(d.entries, dn, wanted);
    ReadReply(d.(log := d.log + [ReadOp(dn)]), if found == [] then Err(NoSuchObject) else Ok(found[0].attrs))
  }

  /**
    * The read the wrapper's checks are written for: the entries at `dn` as a
    * list of results, a DN with no entry giving no result.
    */
  function DoReadEntries(d: Dir, dn: Dn, wanted: seq<string>): Found {
    Found(d.(log := d.log + [ReadOp(dn)]), SelectDn(d.entries, dn, wanted))
  }

  /** Applies a modlist in order; deleting an attribute that is not there fails. */
  function ApplyChanges(attrs: Attrs, changes: seq<Change>): Option<Attrs>
    decreases |changes|
  {
    if changes == [] then Some(attrs)
    else match changes[0]
      case Replace(a, v) => ApplyChanges(attrs[a := [v]], changes[1..])
      case Delete(a) => if a in attrs then ApplyChanges(attrs - {a}, changes[1..]) else None
  }

  function ModifyAll(entries: seq<Entry>, dn: Dn, changes: seq<Change>): Option<seq<Entry>> {
    if entries == [] then Some([])
    else
      var e := entries[0];
      var rest := ModifyAll(entries[1..], dn, changes);
      if rest.None? then None
      else if e.dn != dn then Some([e] + rest.value)
      else match ApplyChanges(e.attrs, changes)
        case None => None
        case Some(a) => Some([Entry(dn, a)] + rest.value)
  }

  predicate HasDn(entries: seq<Entry>, dn: Dn) {
    exists i :: 0 <= i < |entries| && entries[i].dn == dn
  }

  datatype Modified = Modified(dir: Dir, error: Option<Error>)

  /** `modify_s(dn, changes)`: atomic, so on failure no entry changes. */
  function DoModify(d: Dir, dn: Dn, changes: seq<Change>): (m: Modified)
    ensures m.dir.log == d.log + [ModifyOp(dn, changes)]
    ensures m.error.Some? ==> m.dir.entries == d.entries
  {
    var d' := d.(log := d.log + [ModifyOp(dn, changes)]);
    if !HasDn(d.entries, dn) then Modified(d', Some(NoSuchObject))
    else match ModifyAll(d.entries, dn, changes)
      case None => Modified(d', Some(NoSuchAttribute))
      case Some(es) => Modified(d'.(entries := es), None)
  }

  /** Every entry a read returns sits at that DN and shows the requested part of a stored entry at that DN. */
  lemma {:induction false} SelectDnProjects(es: seq<Entry>, dn: Dn, wanted: seq<string>, i: nat)
    requires i < |SelectDn(es, dn, wanted)|
    ensures var x := SelectDn(es, dn, wanted)[i];
            x.dn == dn && exists j :: 0 <= j < |es| && es[j].dn == dn && x.attrs == Project(es[j].attrs, wanted)
  {
    var rest := SelectDn(es[1..], dn, wanted);
    if es[0].dn == dn && i == 0 {
      assert es[0].dn == dn && SelectDn(es, dn, wanted)[0].attrs == Project(es[0].attrs, wanted);
    } else {
      var i' := if es[0].dn == dn then i - 1 else i;
      assert SelectDn(es, dn, wanted)[i] == rest[i'];
      SelectDnProjects(es[1..], dn, wanted, i');
      var j :| 0 <= j < |es[1..]| && es[1..][j].dn == dn && rest[i'].attrs == Project(es[1..][j].attrs, wanted);
      assert es[j + 1] == es[1..][j];
    }
  }

  /** A read finds something exactly when some entry has the DN. */
  lemma {:induction false} SelectDnFinds(es: seq<Entry>, dn: Dn, wanted: seq<string>)
    ensures SelectDn(es, dn, wanted) != [] <==> HasDn(es, dn)
  {
    if es != [] {
      SelectDnFinds(es[1..], dn, wanted);
      if HasDn(es[1..], dn) {
        var j :| 0 <= j < |es[1..]| && es[1..][j].dn == dn;
        assert es[j + 1].dn == dn;
      }
      if HasDn(es, dn) && es[0].dn != dn {
        var j :| 0 <= j < |es| && es[j].dn == dn;
        assert es[1..][j - 1].dn == dn;
      }
    }
  }

  /**
    * `read_s` raises `NO_SUCH_OBJECT` exactly when no entry has the DN, and
    * otherwise returns the requested part of an entry at that DN.
    */
  lemma ReadOfDn(d: Dir, dn: Dn, wanted: seq<string>)
    ensures var r := DoRead(d, dn, wanted);
            && r.dir == d.(log := d.log + [ReadOp(dn)])
            && (r.out.Err? <==> !HasDn(d.entries, dn))
            && (r.out.Err? ==> r.out.error == NoSuchObject)
            && (r.out.Ok? ==> exists j :: 0 <= j < |d.entries| && d.entries[j].dn == dn &&
                                         r.out.value == Project(d.entries[j].attrs, wanted))
  {
    SelectDnFinds(d.entries, dn, wanted);
    if HasDn(d.entries, dn) {
      SelectDnProjects(d.entries, dn, wanted, 0);
    }
  }

  /** Every entry a search returns shows the requested part of a stored entry in scope that matches the filter. */
  lemma {:induction false} SelectProjects(es: seq<Entry>, base: Dn, f: Filter, wanted: seq<string>, i: nat)
    requires i < |Select(es, base, f, wanted)|
    ensures var x := Select(es, base, f, wanted)[i];
            exists j :: 0 <= j < |es| && es[j].dn == x.dn && InTree(x.dn, base) && Matches(f, es[j].attrs) &&
                        x.attrs == Project(es[j].attrs, wanted)
  {
    var rest := Select(es[1..], base, f, wanted);
    var hit := InTree(es[0].dn, base) && Matches(f, es[0].attrs);
    if hit && i == 0 {
      assert es[0].dn == Select(es, base, f, wanted)[0].dn;
    } else {
      var i' := if hit then i - 1 else i;
      assert Select(es, base, f, wanted)[i] == rest[i'];
      SelectProjects(es[1..], base, f, wanted, i');
      var j :| 0 <= j < |es[1..]| && es[1..][j].dn == rest[i'].dn && InTree(rest[i'].dn, base) &&
               Matches(f, es[1..][j].attrs) && rest[i'].attrs == Project(es[1..][j].attrs, wanted);
      assert es[j + 1] == es[1..][j];
    }
  }

  /** A modlist that fails on one entry at the DN fails the whole request. */
  lemma {:induction false} ModifyFailsAt(es: seq<Entry>, dn: Dn, changes: seq<Change>, j: nat)
    requires j < |es| && es[j].dn == dn && ApplyChanges(es[j].attrs, changes).None?
    ensures ModifyAll(es, dn, changes).None?
  {
    if j > 0 {
      ModifyFailsAt(es[1..], dn, changes, j - 1);
    }
  }

  /** A modify of a DN no entry has changes nothing. */
  lemma {:induction false} ModifyAbsentDn(es: seq<Entry>, dn: Dn, changes: seq<Change>)
    requires SelectDn(es, dn, []) == []
    ensures ModifyAll(es, dn, changes) == Some(es)
  {
    if es != [] {
      ModifyAbsentDn(es[1..], dn, changes);
      assert [es[0]] + es[1..] == es;
    }
  }

  /** When a read of `dn` finds exactly one entry, a modify of `dn` can delete any attribute that read returned. */
  lemma {:induction false} DeleteReturnedAttribute(es: seq<Entry>, dn: Dn, wanted: seq<string>, a: string)
    requires |SelectDn(es, dn, wanted)| == 1 && a in SelectDn(es, dn, wanted)[0].attrs
    ensures HasDn(es, dn)
    ensures ModifyAll(es, dn, [Delete(a)]).Some?
  {
    if es[0].dn == dn {
      assert SelectDn(es[1..], dn, wanted) == [];
      NoSelectDnAnyWanted(es[1..], dn, wanted);
      ModifyAbsentDn(es[1..], dn, [Delete(a)]);
      assert a in es[0].attrs;
      assert [Delete(a)][1..] == [];
      assert ApplyChanges(es[0].attrs, [Delete(a)]) == ApplyChanges(es[0].attrs - {a}, []);
    } else {
      DeleteReturnedAttribute(es[1..], dn, wanted, a);
      var j :| 0 <= j < |es[1..]| && es[1..][j].dn == dn;
      assert es[j + 1].dn == dn;
    }
  }

  /** Whether a read finds anything does not depend on the attributes asked for. */
  lemma {:induction false} NoSelectDnAnyWanted(es: seq<Entry>, dn: Dn, wanted: seq<string>)
    requires SelectDn(es, dn, wanted) == []
    ensures SelectDn(es, dn, []) == []
  {
    if es != [] {
      NoSelectDnAnyWanted(es[1..], dn, wanted);
    }
  }

  /** A modlist of replacements alone always applies. */
  lemma {:induction false} ReplaceApplies(es: seq<Entry>, dn: Dn, attr: string, v: string)
    ensures ModifyAll(es, dn, [Replace(attr, v)]).Some?
  {
    if es != [] {
      ReplaceApplies(es[1..], dn, attr, v);
      assert [Replace(attr, v)][1..] == [];
      assert ApplyChanges(es[0].attrs, [Replace(attr, v)]) == ApplyChanges(es[0].attrs[attr := [v]], []);
    }
  }

  /** The rule shared by every lookup that must be unique: none, exactly one, or too many. */
  function TheOnlyResult(found: seq<Entry>): (r: Result<Entry, Error>)
    ensures r.Ok? <==> |found| == 1
    ensures r.Ok? ==> r.value == found[0]
    ensures r == Err(AccountNotFound) <==> |found| == 0
    ensures r == Err(DuplicateEntry) <==> |found| > 1
  {
    if |found| == 0 then Err(AccountNotFound)
    else if |found| > 1 then Err(DuplicateEntry)
    else Ok(found[|found| - 1])
  }

  // ---------------------------------------------------------------------------
  // Attribute decoding

  /** `attributes[name][0].decode()`. */
  function First(attrs: Attrs, name: string): (r: Result<string, Error>)
    ensures r.Ok? <==> name in attrs
    ensures r.Ok? ==> r.value == attrs[name][0]
    ensures r.Err? ==> r.error == Python(KeyError(name))
  {
    if name in attrs then Ok(attrs[name][0]) else Err(Python(KeyError(name)))
  }

  /** `name in attributes and attributes[name][0].decode() == "true"`. */
  predicate FlagTrue(attrs: Attrs, name: string) {
    name in attrs && attrs[name][0] == "true"
  }

  /** `User.is_in_groups`: some `memberof` value is one of `groups`; no `memberof` means no. */
  predicate InGroups(groups: seq<string>, attrs: Attrs) {
    "memberof" in attrs && exists v :: v in attrs["memberof"] && v in groups
  }

  /** The loop of `User.is_in_groups`, which stops at the first listed group. */
  method IsInGroups(groups: seq<string>, attrs: Attrs) returns (b: bool)
    ensures b <==> ("memberof" in attrs && exists k :: 0 <= k < |attrs["memberof"]| && attrs["memberof"][k] in groups)
    ensures b == InGroups(groups, attrs)
  {
    if "memberof" !in attrs {
      return false;
    }
    var values := attrs["memberof"];
    for i := 0 to |values|
      invariant forall k :: 0 <= k < i ==> values[k] !in groups
    {
      if values[i] in groups {
        return true;
      }
    }
    return false;
  }

  // ---------------------------------------------------------------------------
  // Dates

  datatype Date = Date(year: int, month: int, day: int)

  predicate IsLeap(y: int) {
    (y % 4 == 0 && y % 100 != 0) || y % 400 == 0
  }

  function DaysInMonth(y: int, m: int): int
    requires 1 <= m <= 12
  {
    if m == 2 then (if IsLeap(y) then 29 else 28)
    else if m == 4 || m == 6 || m == 9 || m == 11 then 30
    else 31
  }

  /** What `datetime.date(year, month, day)` accepts. */
  predicate ValidDate(y: int, m: int, d: int) {
    1 <= y <= 9999 && 1 <= m <= 12 && 1 <= d <= DaysInMonth(y, m)
  }

  /** `People.schac_to_date`: `YYYYMMDD`, anything after the eighth character ignored. */
  function SchacToDate(s: string): (r: Result<Date, Error>)
    ensures r.Ok? ==> ValidDate(r.value.year, r.value.month, r.value.day)
    ensures r.Err? ==> r.error == Python(ValueError)
  {
    var y := ParseInt(Slice(s, 0, 4));
    var m := ParseInt(Slice(s, 4, 6));
    var d := ParseInt(Slice(s, 6, 8));
    if y.Some? && m.Some? && d.Some? && ValidDate(y.value, m.value, d.value)
    then Ok(Date(y.value, m.value, d.value))
    else Err(Python(ValueError))
  }

  /** The `YYYYMMDD` form of a date. */
  function SchacFormat(dt: Date): string
    requires ValidDate(dt.year, dt.month, dt.day)
  {
    ZFill(NatToString(dt.year), 4) + ZFill(NatToString(dt.month), 2) + ZFill(NatToString(dt.day), 2)
  }

  /** Every valid date survives the trip through its `YYYYMMDD` form. */
  lemma SchacRoundTrip(dt: Date)
    requires ValidDate(dt.year, dt.month, dt.day)
    ensures SchacToDate(SchacFormat(dt)) == Ok(dt)
  {
    var ys := ZFill(NatToString(dt.year), 4);
    var ms := ZFill(NatToString(dt.month), 2);
    var ds := ZFill(NatToString(dt.day), 2);
    assert Pow10(4) == 10000 && Pow10(2) == 100;
    NatToStringLength(dt.year, 4);
    NatToStringLength(dt.month, 2);
    NatToStringLength(dt.day, 2);
    ZFillNatReadsBack(dt.year, 4);
    ZFillNatReadsBack(dt.month, 2);
    ZFillNatReadsBack(dt.day, 2);
    var s := ys + ms + ds;
    assert |ys| == 4 && |ms| == 2 && |ds| == 2;
    assert Slice(s, 0, 4) == ys;
    assert Slice(s, 4, 6) == ms;
    assert Slice(s, 6, 8) == ds;
  }

  // ---------------------------------------------------------------------------
  // The connection

  /**
    * `LdapConnection`: entering opens and binds a connection to the
    * directory, leaving unbinds it. `depth` counts the scopes currently
    * open, so a caller that leaves `depth` as it found it released every
    * connection it acquired.
    */
  class Connection {
    var dir: Dir
    const reachable: bool
    var depth: nat

    constructor (entries: seq<Entry>, reachable: bool)
      ensures dir == Dir(entries, []) && this.reachable == reachable && depth == 0
    {
      dir := Dir(entries, []);
      this.reachable := reachable;
      depth := 0;
    }

    /** `__enter__`: fails when the server cannot be reached or the bind is refused. */
    method Enter() returns (ok: bool)
      modifies this
      ensures ok == reachable
      ensures dir == old(dir)
      ensures depth == old(depth) + (if ok then 1 else 0)
    {
      ok := reachable;
      if ok {
        depth := depth + 1;
      }
    }

    /** `__exit__`: unbinds, whatever happened inside the scope. */
    method Exit()
      requires depth > 0
      modifies this
      ensures dir == old(dir) && depth == old(depth) - 1
    {
      depth := depth - 1;
    }

    method Search(base: Dn, f: Filter, wanted: seq<string>) returns (found: seq<Entry>)
      requires depth > 0
      modifies this
      ensures Found(dir, found) == DoSearch(old(dir), base, f, wanted)
      ensures depth == old(depth)
    {
      var r := DoSearch(dir, base, f, wanted);
      dir, found := r.dir, r.entries;
    }

    method Read(dn: Dn, wanted: seq<string>) returns (out: Result<Attrs, Error>)
      requires depth > 0
      modifies this
      ensures ReadReply(dir, out) == DoRead(old(dir), dn, wanted)
      ensures depth == old(depth)
    {
      var r := DoRead(dir, dn, wanted);
      dir, out := r.dir, r.out;
    }

    method ReadEntries(dn: Dn, wanted: seq<string>) returns (found: seq<Entry>)
      requires depth > 0
      modifies this
      ensures Found(dir, found) == DoReadEntries(old(dir), dn, wanted)
      ensures depth == old(depth)
    {
      var r := DoReadEntries(dir, dn, wanted);
      dir, found := r.dir, r.entries;
    }

    method Modify(dn: Dn, changes: seq<Change>) returns (error: Option<Error>)
      requires depth > 0
      modifies this
      ensures Modified(dir, error) == DoModify(old(dir), dn, changes)
      ensures depth == old(depth)
    {
      var r := DoModify(dir, dn, changes);
      dir, error := r.dir, r.error;
    }
  }
}

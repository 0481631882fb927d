# weeelab-telegram-bot, modelled in Dafny

The bot answers the members of the WEEE Open team on Telegram. It reads
the lab's attendance log, ranks people by time spent in the lab, shows
who is in the lab and who plans to come, serves quotes, and identifies
each Telegram user against the team's LDAP directory. This project
models the logic behind those answers and proves what it promises:

- **LDAP wrapper** (`ldap.dfy`, `ldap_user.dfy`, `ldap_users.dfy`,
  `ldap_people.dfy`).
  - The directory is a value: its entries in server order, plus a log of
    the requests made to it. `Connection` is the `with` scope around a
    bound connection.
  - `User.search` finds a person by Telegram id, or by nickname when the
    id is unknown. It then links the id, reconciles the nickname, and
    enforces the excluded-group and locked-account rules.
  - `User.update` refreshes a cached record. As written it never succeeds (see "## Findings"), so `Users` is modelled with the corrected refresh.
  - `Users` caches `User` objects per id and links invites.
  - `People` keeps an hourly snapshot of every person, keyed by their
    lower-cased uid.
- **The log library** (`weeelab_line.dfy`, `weeelab_logs.dfy`).
  - A log line is `[in] [out] [duration] <username> :: text`. Parsing it
    is proved to be the inverse of the lab's line format.
  - `WeeelabLogs` totals minutes per person, lists who is in the lab,
    walks the past months' files, and looks up user entries. The bot
    keeps its own copy of these two classes (weeelab_bot.py:148-412). The
    copy does what Weeelablib.py does, so the same members model both.
- **The bot** (`weeelab_bot.dfy`).
  - Rotating replies to unknown commands.
  - The polling offset.
  - Markdown escaping.
  - The `/history` limit.
  - `/log`, which groups the newest lines by day.
  - `/top`, a stable descending ranking numbered without gaps.
- **To-lab planning** (`to_lab.dfy`). Times are whole minutes since an
  epoch. The file is the list of entries, and every save is recorded.
- **Quotes** (`quotes.dfy`). A 48-hour cache, the index by author, a
  random pick with the choice as a parameter, and quote formatting.
- **Settings** (`variables.py` in `variables.dfy`). `WOL_MACHINES` is
  unpacked into a dictionary, and `LDAP_ADMIN_GROUPS` is split on `|`.

Python built-ins the code relies on are in `basics.dfy`: `split`,
`join`, `strip`, `lower`, `int()`, `str()` and `zfill`. Python
exceptions are values of `PyError` inside a `Result`. Directory failures
are values of `Ldap.Error`.

## Model

| member | source | states |
|---|---|---|
| Ldap.Connection.Enter | LdapWrapper.py:17-26 | entering opens a scope (depth + 1) iff the server is reachable; the directory is not touched |
| Ldap.Connection.Exit | LdapWrapper.py:28-30 | leaving closes the scope, whatever happened inside |
| Ldap.Connection.Search | LdapWrapper.py:333-344 | `search_s` returns the entries in the subtree that match the filter, projected to the requested attributes, and logs the request |
| Ldap.Connection.Read | LdapWrapper.py:236-246 | python-ldap's `read_s` returns the requested part of the entry at the DN as one attribute dictionary, or raises NO_SUCH_OBJECT when no entry has the DN, and logs the request |
| Ldap.Connection.ReadEntries | LdapWrapper.py:236-250 | the read that the result-count checks are written for: the list of entries at the DN, projected, empty when no entry has it |
| Ldap.ReadOfDn | LdapWrapper.py:236-246 | `read_s` raises NO_SUCH_OBJECT exactly when no entry has the DN; otherwise it returns the requested part of an entry at that DN |
| Ldap.SelectDnFinds | LdapWrapper.py:236-246 | a read of a DN finds something exactly when some entry has that DN |
| Ldap.Connection.Modify | LdapWrapper.py:403-417 | `modify_s` is atomic: it applies the whole modlist to the entry, or fails and changes nothing |
| Ldap.SelectProjects | LdapWrapper.py:333-344 | every search result is the requested part of a stored entry that is in scope and matches the filter |
| Ldap.SelectDnProjects | LdapWrapper.py:236-246 | every read result sits at the DN read and shows part of a stored entry there |
| Ldap.ModifyFailsAt | LdapWrapper.py:403-411 | a modlist that fails on one entry fails the whole request |
| Ldap.DeleteReturnedAttribute | LdapWrapper.py:403-407 | deleting an attribute that a unique read returned always succeeds |
| Ldap.ReplaceApplies | LdapWrapper.py:408-417 | a modlist made only of replacements always applies |
| Ldap.TheOnlyResult | LdapWrapper.py:396-400 | no result gives AccountNotFound, several give DuplicateEntry, exactly one gives that entry |
| Ldap.First | LdapWrapper.py:314-317 | `attributes[name][0]` is the first value when present, else KeyError(name) |
| Ldap.IsInGroups | LdapWrapper.py:387-393 | the loop returns true iff some `memberof` value is one of the groups; no `memberof` gives false |
| Ldap.SchacToDate | LdapWrapper.py:197-199 | `YYYYMMDD` parsed into a date `datetime.date` accepts, else ValueError; characters after the eighth are ignored |
| Ldap.SchacRoundTrip | LdapWrapper.py:197-199 | every valid date written as `YYYYMMDD` reads back as the same date |
| LdapUser.StoredNickname | LdapWrapper.py:379-384 | the stored nickname is present iff the attribute is, and is its first value |
| LdapUser.SafetyDate | LdapWrapper.py:318 | no `safetytestdate` gives no date; a date is only decoded from that attribute |
| LdapUser.Searched | LdapWrapper.py:276-321 | a found record carries the id asked for, the observed nickname and the time of the search |
| LdapUser.LookupFound | LdapWrapper.py:289-296 | a successful lookup, by either path, ends on a search by id that found exactly that entry |
| LdapUser.SearchCountRule | LdapWrapper.py:345-348 | several matches by id end the search with DuplicateEntry; none, with no nickname, with AccountNotFound; neither writes |
| LdapUser.SearchFallback | LdapWrapper.py:354-376 | with no match by id, no unlinked entry with the nickname gives AccountNotFound, several give DuplicateEntry, and a unique one first gets the id written |
| LdapUser.ExclusionBeforeLock | LdapWrapper.py:298-303 | an excluded person is reported as not found even when locked; a locked one that is not excluded is reported as locked |
| LdapUser.SearchReconcilesNickname | LdapWrapper.py:305-321 | the nickname is written exactly when the stored one differs: deleted when there is none, replaced otherwise; the record carries the observed one |
| LdapUser.NicknameChangeEffect | LdapWrapper.py:403-411 | a nickname write changes the nickname attribute and nothing else |
| LdapUser.SelectAfterNicknameChange | LdapWrapper.py:403-411 | a nickname write changes no entry's match against a search by id |
| LdapUser.SearchAgainIsQuiet | LdapWrapper.py:276-321 | right after a successful search, a second one takes the direct path, writes nothing and yields the same record |
| LdapUser.BuildUserSameFields | LdapWrapper.py:311-321 | building a record reads only attributes a nickname write leaves alone |
| LdapUser.Refreshed | LdapWrapper.py:224-273 | the corrected refresh, which reads the entries at the DN as a list, never changes the cached DN, id or nickname, and a successful one renews the time stamp |
| LdapUser.RefreshedAsWrittenRaises | LdapWrapper.py:236-252 | as written, no refresh succeeds: the record is kept and nothing is written. A DN with no entry raises NO_SUCH_OBJECT. An entry with a `uid` and a `cn` raises DuplicateEntryError, because `len` counts the attributes of the dictionary `read_s` returns |
| LdapUser.CopyAsWrittenRaises | LdapWrapper.py:263-266 | the field copy as written, on an entry read with the attributes `update` requests, raises KeyError('surname') after copying `uid`, `cn` and `givenname`, and keeps the old time stamp |
| LdapUser.RefreshedMirrorsEntry | LdapWrapper.py:224-273 | the corrected refresh copies the entry's fields into the record, renews its time stamp, and writes the nickname only when it differs |
| LdapUser.User.FromRec | LdapWrapper.py:203-219 | the dataclass holds the given fields and time stamp |
| LdapUser.User.Update | LdapWrapper.py:224-273 | the object's fields and the directory become those of `Refreshed` |
| LdapUser.CopyFields | LdapWrapper.py:263-269 | the corrected field copy never changes the cached DN, id or nickname |
| LdapUser.CopyFieldsMirrors | LdapWrapper.py:263-269 | on an entry with the naming attributes and a well-formed date, the copy raises nothing and takes every field from the entry |
| LdapUser.User.CopyFrom | LdapWrapper.py:263-269 | the field assignments, stopping at the first exception, as `CopyFields` states |
| LdapUser.User.CopyNamesFrom | LdapWrapper.py:263-266 | the four name assignments, each raising KeyError when its attribute is missing |
| LdapUser.User.CopyStatusFrom | LdapWrapper.py:267-269 | the date and the two flags |
| LdapUser.User.Search | LdapWrapper.py:276-321 | a fresh object holding the record of `Searched`, or its error; the directory as `Searched` leaves it |
| LdapUser.User.SearchByTgid | LdapWrapper.py:324-351 | the search by id and its result-count rule |
| LdapUser.User.SearchByNickname | LdapWrapper.py:354-376 | the search for an unlinked nickname, the id write, and the search by id again |
| LdapUser.User.UpdateNickname | LdapWrapper.py:403-411 | a delete without a nickname, a replace with one |
| LdapUser.User.UpdateId | LdapWrapper.py:414-417 | the id replaced by its decimal text |
| LdapUsers.CacheGetFreshHit | LdapWrapper.py:69-72 | a record refreshed within the hour is returned without contacting the directory |
| LdapUsers.CacheGetKeyed | LdapWrapper.py:63-89 | the cache stays keyed by id, a successful call leaves the record returned in the cache, and an unreachable directory changes nothing |
| LdapUsers.CacheGetEvicts | LdapWrapper.py:76-87 | a stale record whose refresh finds the person gone, locked or duplicated is dropped and searched for again; a failed search leaves the id uncached |
| LdapUsers.RevalidatedAsWrittenNeverRefreshes | LdapWrapper.py:74-86 | as written, `get` drops a stale record whose person still has an entry and searches again after the read; when the entry is gone, NO_SUCH_OBJECT escapes and the stale record stays cached |
| LdapUsers.CacheGetThenHit | LdapWrapper.py:63-89 | right after a successful `get`, a second `get` at the same time is served from the cache |
| LdapUsers.InviteCountRule | LdapWrapper.py:91-109 | no invite or several invites with the code: AccountNotFound or DuplicateEntry and no write; a unique one gets one modify |
| LdapUsers.InviteWithoutNicknameFails | LdapWrapper.py:104-109 | linking without a nickname deletes an attribute the invite may lack; the request then fails and not even the id is written |
| LdapUsers.InviteWithNicknameSucceeds | LdapWrapper.py:104-109 | with a nickname, linking a unique invite always succeeds |
| LdapUsers.Users.constructor | LdapWrapper.py:56-61 | an empty cache; the excluded group is `cn=NoBot,<groups tree>` |
| LdapUsers.Users.Get | LdapWrapper.py:63-89 | a non-int id raises IndexError; otherwise the cache entry and the directory become those of `CacheGet`, and no other id's object changes |
| LdapUsers.Users.Revalidate | LdapWrapper.py:76-82 | a stale record is refreshed in place, or dropped and searched for again |
| LdapUsers.Users.Fetch | LdapWrapper.py:85-87 | a record that is found is cached under its id |
| LdapUsers.Users.UpdateInvite | LdapWrapper.py:91-109 | the directory and the error are those of `InviteLinked` |
| LdapUsers.Users.DeleteCache | LdapWrapper.py:111-114 | returns how many records were cached and empties the cache |
| LdapPeople.OptDate | LdapWrapper.py:179-180 | an absent attribute is None, a present one is decoded by `schac_to_date` |
| LdapPeople.BuildPerson | LdapWrapper.py:178-192 | one person per entry; it fails exactly on a bad date, a missing uid or cn, or an unreadable id, with the exception Python raises first |
| LdapPeople.Resynced | LdapWrapper.py:151-156 | nothing happens within the hour; after a complete sync the time stamp is the current time; after a failure it is unchanged |
| LdapPeople.Lookup | LdapWrapper.py:139-145 | found iff the lower-cased uid is a key |
| LdapPeople.SyncKeepsKeying | LdapWrapper.py:178-193 | each person is stored under their lower-cased uid |
| LdapPeople.SyncNeverRemoves | LdapWrapper.py:164-195 | the map is never cleared, even when the loop fails |
| LdapPeople.SyncKeepsUnnamed | LdapWrapper.py:164-195 | a person that no result names keeps their old entry |
| LdapPeople.SyncConcat | LdapWrapper.py:178-193 | the loop over two lists of results is the loop over the first, then, unless it raised, the loop over the second from the map the first left |
| LdapPeople.LastResultWins | LdapWrapper.py:178-193 | after a complete loop, the person built from a result is the one stored under its lower-cased uid when no later result builds a person with that key |
| LdapPeople.FoundInAnyCase | LdapWrapper.py:141-143 | a stored person is found under their uid written in any letter case |
| LdapPeople.PersonRoundTrip | LdapWrapper.py:178-192 | an entry written from a person reads back as that person |
| LdapPeople.DecodesDescribed | LdapWrapper.py:178-192 | any entry that describes a person decodes to them, whatever other attributes it has |
| LdapPeople.People.constructor | LdapWrapper.py:132-137 | an empty map and a zero time stamp |
| LdapPeople.People.Get | LdapWrapper.py:139-145 | refresh as `Resynced`, then look up the lower-cased uid; a sync error propagates |
| LdapPeople.People.GetAll | LdapWrapper.py:147-149 | refresh, then every stored person |
| LdapPeople.People.RefreshIfNecessary | LdapWrapper.py:151-156 | the snapshot becomes that of `Resynced`, inside a balanced connection scope |
| LdapPeople.People.DeleteCache | LdapWrapper.py:158-162 | returns the count, empties the map and zeroes the time stamp |
| LdapPeople.People.Sync | LdapWrapper.py:164-195 | the map after the loop over the search results; the time is stamped only if the loop completes |
| LdapPeople.DeleteCacheForcesSearch | LdapWrapper.py:158-162 | after `delete_cache` the next access searches the directory again |
| LogLine.Parse | Weeelablib.py:274-288 | the expression's fields, `INLAB` blanking the time out; no match raises AttributeError |
| LogLine.ParseFormat | Weeelablib.py:274-288 | parsing a formatted line gives back its fields, for fields the expression can delimit |
| LogLine.Day | Weeelablib.py:290-291 | the date part of the time in, up to its first space |
| LogLine.DurationMinutes | Weeelablib.py:293-299 | no minutes while in the lab; `h:m` is `h*60+m`; a bad hour raises ValueError, a missing colon IndexError |
| LogLine.DurationOfHoursMinutes | Weeelablib.py:293-299 | a finished session of h hours and m minutes counts h*60+m minutes |
| LogLine.HoursMinutesReadBack | Weeelablib.py:262-270 | both parts have at least two digits, and they read back as hours and minutes below 60 that add up to the count |
| Logs.TallySucceeds | Weeelablib.py:131-146 | the count succeeds exactly when every line has a readable duration |
| Logs.TallyAdds | Weeelablib.py:131-146 | a person has a key iff they had one or wrote a line, and their minutes grow by their own lines' minutes |
| Logs.AllTimeAgrees | Weeelablib.py:148-164 | the all-time count fails only on a bad duration; its keys are the people of either log; each total is this month's minutes plus the old months', in agreement with `count_time_user` |
| Logs.TallyFailsEarly | Weeelablib.py:131-146 | the first bad line decides the error |
| Logs.UserMinutesFailEarly | Weeelablib.py:106-129 | the same for one person's minutes |
| Logs.InlabNamesMembers | Weeelablib.py:166-176 | someone is listed iff one of their lines is still open |
| Logs.InlabNamesAppend | Weeelablib.py:166-176 | the list follows the order of the log |
| Logs.FindEntryFirst | Weeelablib.py:178-200 | the first entry whose key has the value; None iff every entry has a different value; KeyError at the first entry before a match that lacks the key |
| Logs.NameAndSurname | Weeelablib.py:245-260 | "name surname", else the name, else the username; KeyError('username') when none is there |
| Logs.ParseLines | Weeelablib.py:55-92 | the lines of a past month are appended up to the first that does not parse, whose exception ends the loop |
| Logs.ParseStopsEarly | Weeelablib.py:55-92 | a bad line stops the file there |
| Logs.WalkFacts | Weeelablib.py:55-92 | the walk reads consecutive months; the corrected walk stores the last month read and stops only at the bound or at a missing file; an exception keeps the stored month |
| Logs.WalkStep | Weeelablib.py:55-92 | one month read whole puts its lines before the rest of the walk |
| Logs.WalkEnds | Weeelablib.py:55-92 | the corrected walk stops in place at the bound or at a missing file |
| Logs.WalkFails | Weeelablib.py:55-92 | a bad line ends the walk with the lines before it appended |
| Logs.WalkBound | Weeelablib.py:55-92 | past the bound the walk ends; as written it stores the month it stepped to |
| Logs.WalksChain | Weeelablib.py:55-92 | with the corrected walk, a second call starts right after the last month the first one read, so no month is skipped |
| Logs.WalkAsWrittenSkips | Weeelablib.py:55-92 | as written, a call up to May and then one up to July read April, May and July, and skip June although its file exists |
| Logs.WeeelabLogs.constructor | Weeelablib.py:10-27 | no old lines, and March 2017 as the last month fetched |
| Logs.WeeelabLogs.UpdateOldLogs | Weeelablib.py:55-92 | the old lines and the stored month become those of the corrected `Walk`; the current log and users do not change |
| Logs.WeeelabLogs.AppendLines | Weeelablib.py:80-84 | appends the parsed lines and reports the parse error |
| Logs.WeeelabLogs.SumMinutes | Weeelablib.py:106-129 | the loop computes `UserMinutes` |
| Logs.WeeelabLogs.CountTimeUser | Weeelablib.py:106-129 | this month's minutes and the all-time minutes of the user |
| Logs.WeeelabLogs.AddMinutes | Weeelablib.py:131-164 | the loop computes `TallyFrom` |
| Logs.WeeelabLogs.CountTimeMonth | Weeelablib.py:131-146 | the minutes per person of the current log |
| Logs.WeeelabLogs.CountTimeAll | Weeelablib.py:148-164 | the minutes per person of both logs |
| Logs.WeeelabLogs.GetEntriesInlab | Weeelablib.py:166-176 | the usernames of the open lines, in log order |
| Logs.WeeelabLogs.Find | Weeelablib.py:178-200 | the loop computes `FindEntry` |
| Logs.WeeelabLogs.GetEntryFromTid | Weeelablib.py:178-188 | the lookup by `str(user_id)` |
| Logs.WeeelabLogs.GetEntryFromUsername | Weeelablib.py:190-200 | the lookup by username |
| Logs.WeeelabLogs.TryGetNameAndSurname | Weeelablib.py:224-235 | the display name of the entry with that username, else the username itself; only the search can raise |
| Logs.WeeelabLogs.TryGetId | Weeelablib.py:237-243 | the `telegramID` of the entry with that username, or None |
| Bot.IndexAfterCycles | weeelab_bot.py:92-96 | the k-th unknown command (from 0) gets reply k mod 4 |
| Bot.BotHandler.constructor | weeelab_bot.py:36-51 | no offset and no reply used yet |
| Bot.BotHandler.UnknownCommandMessage | weeelab_bot.py:92-96 | the replies go round the four messages from the first |
| Bot.BotHandler.GetUpdates | weeelab_bot.py:53-63 | returns the batch; after a non-empty batch, the offset is one past its last update id |
| Bot.BotHandler.GetLastUpdate | weeelab_bot.py:79-90 | the last update of the batch, or None (the code's -1) iff the batch is empty |
| Bot.EscapeAllIsEscaped | weeelab_bot.py:415-416 | the four chained replacements escape each character independently |
| Bot.EscapeAllLength | weeelab_bot.py:415-416 | the escaped text grows by one per `_`, `*` and `[`, and by two per backtick |
| Bot.HistoryLimit | weeelab_bot.py:516-523 | 6 without a number, else the number clamped into 1..50; a non-number raises ValueError |
| Bot.HistoryLimitOfNumber | weeelab_bot.py:516-523 | a number in 1..50 is the limit itself; below or above, the nearer bound |
| Bot.DaysToPrintOf | weeelab_bot.py:571-579 | `/log n` prints n days, `/log all` 31, `/log` one |
| Bot.GroupedLog | weeelab_bot.py:581-595 | the newest lines up to the first line of a day past the limit, grouped by day: at most the limit, the days exactly those of the lines taken in the order each first appears (newest day first, none without a line), each day with its lines newest first; a line is left out only when the limit is reached and its day is not open |
| Bot.DaysInOrderListsDays | weeelab_bot.py:583-588 | the order `days` gains its keys lists every day of the lines seen, each once, and no other |
| Bot.GroupLog | weeelab_bot.py:581-595 | the loop computes `Grouped` with `day()` |
| Bot.SortPermutes | weeelab_bot.py:657 | the sort only reorders the items |
| Bot.SortIsStable | weeelab_bot.py:657 | items with equal minutes keep their order |
| Bot.NumberFromLists | weeelab_bot.py:659-668 | the loop numbers from 1, without gaps, the items whose username has an entry |
| Bot.TopListRanks | weeelab_bot.py:657-668 | the printed list numbers the ranked users that have an entry, in ranked order, minutes never increasing down the list, each line an item of the minutes dict |
| Bot.Top | weeelab_bot.py:657-668 | the ranking of `/top` is `TopList` of the sorted items |
| ToLab.FilterMembers | ToLab.py:16-21 | an entry survives a filter iff it was there and passes the test |
| ToLab.FilterKeepsAll | ToLab.py:63-83 | nothing is removed iff every entry passes, iff the length is kept |
| ToLab.DeleteUserExact | ToLab.py:16-21 | `_delete_user(t)` removes exactly the entries of t and keeps the others in order |
| ToLab.SetEntryOnce | ToLab.py:45-50 | afterwards exactly one entry has that id, the new one, at the end |
| ToLab.ParseClock | ToLab.py:31 | `%H:%M` after white space: 1-2 digit hour up to 23 and minute up to 59, as the minute of the day, else ValueError |
| ToLab.ClockReadsBack | ToLab.py:30-31 | a time written `%H:%M` reads back as the same minute of the day |
| ToLab.CreateEntryTime | ToLab.py:23-39 | a time that does not parse raises; otherwise the entry is at that time on the requested date, or the day after if that has passed, and the day count says which; with day >= 0 it is never in the past |
| ToLab.CheckTolabKeeps | ToLab.py:52-83 | the entries kept are those at most 30 minutes old whose person is not in the lab after their time |
| ToLab.CheckTolabSettles | ToLab.py:52-83 | a second check at the same minute with the same people removes nothing |
| ToLab.ToLab.constructor | ToLab.py:8-14 | the entries read from the file, nothing saved yet |
| ToLab.ToLab.Save | ToLab.py:85-92 | records a copy of the entries written; the list in memory is unchanged |
| ToLab.ToLab.DeleteUser | ToLab.py:16-21 | the list becomes the entries of other people, in order |
| ToLab.ToLab.DeleteEntry | ToLab.py:41-43 | removes the person's entries and saves the result |
| ToLab.ToLab.SetEntry | ToLab.py:45-50 | replaces the person's entries by the new one at the end, saves and returns the day count; a bad time leaves the entries already deleted and saves nothing |
| ToLab.ToLab.CheckTolab | ToLab.py:52-83 | keeps the entries `Keeps` accepts, saves only when something was dropped, and returns how many remain |
| Quotes.FormatQuote | Quotes.py:58-66 | the triple when both quote and author are present and non-empty, else three Nones; a missing context is None |
| Quotes.FormatQuoteReadsBack | Quotes.py:58-66 | a quote with a text and an author is printed as it was stored |
| Quotes.NormalizedIsLowerAlnum | Quotes.py:53-56 | a normalised name holds only lower-case letters and digits |
| Quotes.NormalizeIdempotent | Quotes.py:53-56 | normalising twice is normalising once |
| Quotes.IndexMembers | Quotes.py:26-33 | corrected index: an author's entry only grows and holds exactly the quotes it held and the quotes that name the author |
| Quotes.IndexAsWrittenFails | Quotes.py:26-33 | as written, any quote with an author raises TypeError, and no entry of the index gains a quote |
| Quotes.IndexOneQuote | Quotes.py:26-33 | one quote by "A": as written the entry for `a` stays empty; corrected, it holds the quote |
| Quotes.Pick | Quotes.py:41-51 | an author with no quotes gives three Nones; with no author an empty file raises IndexError; otherwise a formatted quote of the pool |
| Quotes.PickByAuthor | Quotes.py:41-51 | from a freshly indexed file, a pick by author is a quote naming that author, or three Nones when there is none |
| Quotes.Quotes.constructor | Quotes.py:9-14 | no quotes, an empty index, never downloaded |
| Quotes.Quotes.Download | Quotes.py:16-35 | within 48 hours nothing changes; otherwise the quotes are replaced, indexed by author, and the time is stamped |
| Quotes.Quotes.IndexAll | Quotes.py:26-33 | the loop computes the corrected `Index` |
| Quotes.Quotes.AddQuote | Quotes.py:27-33 | a quote is added under each of its authors |
| Quotes.Quotes.GetRandomQuote | Quotes.py:41-51 | download as `Download`, then `Pick` on the current quotes |
| Quotes.Quotes.QuoteAt | Quotes.py:68-71 | None iff the position is outside the list, else that quote formatted |
| Quotes.Quotes.DeleteCache | Quotes.py:73-80 | returns the count, forgets everything, and the next download fetches again |
| Variables.SplitMachine | variables.py:8-9 | no colon raises IndexError; otherwise the name has no colon and name + ":" + address is the segment |
| Variables.UnpackedWol | variables.py:4-10 | IndexError iff some segment has no colon; otherwise the keys are exactly the segment names, at most one per segment, each bound to the address of its last segment |
| Variables.UnpackWol | variables.py:4-10 | the loop computes `Unpacked` |
| Variables.AdminGroupsPieces | variables.py:38-40 | no group contains a bar, there is one more group than there are bars, and joining them gives the setting back |

## Left out

- Network and file I/O are parameters. This covers the OwnCloud and Telegram HTTP requests, the files read and written, and JSON encoding and decoding.
  - The content of a download is an argument.
  - A save is recorded in a list of writes.
- Clocks and randomness are parameters.
  - `time()`, `datetime.now()` and `date.today()` become a `now` argument.
  - `random.choice` becomes a `pick` index, taken modulo the pool's size.
- Message text is not modelled: HTML and Markdown formatting, the `/stat`, `/help` and `/inlab` replies, and the text of `/log` and `/top` lines. The models keep the values that the text is made of.
- `get_log`, `get_old_logs`, `get_users` and `store_new_user` download or upload files. The constructor of `WeeelabLogs` takes the current log and the user entries as already loaded. The bot's copy of `store_new_user` is not modelled either.
- `/log` calls `try_get_name_and_surname` for each line. A `KeyError` it raises would end the command, and the model does not propagate it: `GroupLog` keeps the lines, not the names printed for them.
- Bot.Top takes the minutes dictionary's items in its iteration order, as an argument.
- Bot.Top reads `entry["level"]` as text. The code compares it with the integers 1 and 2; entry values are strings in this model.
- Logs.WeeelabLogs.UpdateOldLogs requires `0 <= maxMonth <= 11`. Its only caller, `get_old_logs`, passes `today.month - 1`. The `prev_month == 12` branch of `get_old_logs` cannot happen and is not modelled.
- Logs.WeeelabLogs.CountTimeUser and the other counters are specified with the line reader as a parameter, and the class passes `DurationMinutes`.
- `str.splitlines` and `bytes.decode` are not modelled. A month's file is given as the sequence of its parsed lines.
- Basics.ParseInt reads ASCII digits only. It does not accept `_` separators or non-ASCII digits, which Python's `int()` does.
- LdapPeople.Lookup: `Basics.Lower` folds ASCII letters only, while Python's `str.lower()` folds every Unicode letter. A uid such as "Élise" is stored and looked up under "Élise" here, and under "élise" by the program. Unicode case tables are not modelled.
- LdapPeople.FoundInAnyCase: "any letter case" covers ASCII letters only, for the same reason as LdapPeople.Lookup.
- LdapPeople.SyncKeepsKeying: the key is the ASCII lower-casing of the uid, for the same reason as LdapPeople.Lookup.
- Bot.DaysToPrintOf: `IsDigitWord` accepts ASCII digits only, while Python's `str.isdigit()` accepts every Unicode digit. The program prints three days for `/log ٣`; the model prints one. Unicode digit tables are not modelled.
- Ldap.Matches: filter values and DNs (`HasValue`, `InTree`) are compared by exact string equality. A server applies each attribute's equality matching rule instead, commonly case-insensitive for `objectClass`, nicknames and DN components, so a nickname or DN differing only in letter case matches there and not here. This shapes LdapUser.SearchFallback's "no unlinked entry with the nickname" and LdapUsers.InviteCountRule. Matching rules are not modelled.
- Ldap.DoRead: the directory value may hold two entries with one DN, which a server does not allow; the read then returns the first. The `None` that python-ldap's `read_s` returns for an empty base search cannot happen, because the filter `(objectClass=*)` matches every entry.
- Quotes.NormalizeAuthor lower-cases and keeps letters and digits of ASCII only. Python's `lower` and `isalnum` also act on other letters.
- Quotes.Quotes.Download records the time of the fetch as one `now`. The code reads the clock twice, and that difference is not modelled.
- The `Lock` of `People` is not modelled. Calls are sequential here.
- The `LdapConnection` bind details (`start_tls_s`, protocol version) are left out. Failure is the `reachable` flag.
- `escape_filter_chars` is not modelled: filters are structured values, so there is nothing to escape.
- ToLab keeps times as whole minutes.
  - Time zones, and pytz's `replace(tzinfo=...)` with local mean time, are not modelled.
  - The seconds of `now` are dropped, so a time within the current minute counts as not passed.
  - `strftime` text is not modelled.
  - `strptime`'s `\d` also matches non-ASCII digits; this model does not.
- ToLab.ToLab.constructor takes the entries as already parsed from the file.
- `os.environ` reads in variables.py are left out. Variables.AdminGroups takes the setting as an `Option`.

## Findings

| source | as written | input that shows it | evidently intended | confidence | as-written member | corrected member |
|---|---|---|---|---|---|---|
| LdapWrapper.py:236-267 | `update` passes the result of python-ldap's `read_s` to checks written for a list of results. `read_s` returns the entry's attribute dictionary, so `len(result)` counts attributes, and it raises `NO_SUCH_OBJECT` for a DN with no entry, which `Users.get` does not catch. Behind those checks, the copy reads `attributes['surname']`, an attribute never requested (it requests `sn`, as `search` does at line 317), and calls a `_schac_to_date` that `User` does not have. | a cached user past the one-hour limit whose entry has a `uid` and a `cn`: `update` raises `DuplicateEntryError`, so `get` drops the record and searches again, and no record is ever refreshed in place. A cached user whose entry was deleted: `NO_SUCH_OBJECT` escapes `get` and the stale record stays cached | read the entries at the DN as a list, treat a DN with no entry as no result (`AccountNotFoundError`), copy `sn` into `surname`, and decode the date as `search` does | high, not executed | LdapUser.RefreshedAsWrittenRaises | LdapUser.RefreshedMirrorsEntry |
| Weeelablib.py:55-92 | when the loop passes `(max_month, max_year)` it has already stepped the month, and it stores that month as the last one fetched, although it was never downloaded | April of any year as the last month fetched, files for April to July, a call up to May and then a call up to July: June is never read | store the last month actually fetched | high, not executed | Logs.WalkAsWrittenSkips | Logs.WalksChain |
| Quotes.py:31-33 | `self.authors[author] = {}` and then `self.authors[author] += quote` apply `+=` to two dictionaries | a file holding `{"quote": "x", "author": "A"}`: `_download` raises `TypeError`, and the entry for `a` stays empty, so no quote is ever found by author | a list per author, with the quote appended to it | high, not executed | Quotes.IndexAsWrittenFails | Quotes.IndexMembers |

/**
  * `Quotes` of Quotes.py: the quotes file kept in memory for 48 hours, a
  * lookup by position, a random pick (overall or by author) and the helpers
  * that normalise an author's name and turn a stored quote into the triple
  * `(quote, author, context)` the bot prints.
  */
module Quotes {
  import opened Basics

  /** A quote as the JSON file stores it: a dictionary of strings. */
  type QuoteObj = map<string, string>

  /** `60*60*48`: the quotes are fetched again only when older than this many seconds. */
  const RefreshSeconds: real := 172800.0

  /** The triple `(quote, author, context)`, each of which may be `None`. */
  datatype Formatted = Formatted(quote: Option<string>, author: Option<string>, context: Option<string>)

  const Nothing: Formatted := Formatted(None, None, None)

  /** `d[key] if key in d else None`. */
  function Field(q: QuoteObj, key: string): (r: Option<string>)
    ensures r.Some? <==> key in q
  {
    if key in q then Some(q[key]) else None
  }

  /** `if s` for a value that may be `None`: present and not the empty string. */
  predicate Truthy(s: Option<string>) {
    s.Some? && s.value != ""
  }

  /**
    * `_format_quote(json_quote)`: the three fields when both the quote and
    * the author are present and non-empty, otherwise three `None`s; a
    * missing context is `None`.
    */
  function FormatQuote(q: QuoteObj): (r: Formatted)
    ensures r != Nothing <==> Truthy(Field(q, "quote")) && Truthy(Field(q, "author"))
    ensures r != Nothing ==> r.quote == Some(q["quote"]) && r.author == Some(q["author"])
                             && r.context == Field(q, "context")
  {
    var quote := Field(q, "quote");
    var author := Field(q, "author");
    var context := Field(q, "context");
    if Truthy(author) && Truthy(quote) then Formatted(quote, author, context) else Nothing
  }

  /** The stored form of a triple: one key per field that is present. */
  function Stored(f: Formatted): QuoteObj {
    var withQuote: QuoteObj := if f.quote.Some? then map["quote" := f.quote.value] else map[];
    var withAuthor := if f.author.Some? then withQuote["author" := f.author.value] else withQuote;
    if f.context.Some? then withAuthor["context" := f.context.value] else withAuthor
  }

  /** A quote with a text and an author is printed back as it was stored. */
  lemma FormatQuoteReadsBack(f: Formatted)
    requires Truthy(f.quote) && Truthy(f.author)
    ensures FormatQuote(Stored(f)) == f
  {
    var q := Stored(f);
    assert "quote" in q && q["quote"] == f.quote.value;
    assert "author" in q && q["author"] == f.author.value;
    assert Field(q, "context") == f.context;
  }

  // ---------------------------------------------------------------------------
  // `_normalize_author`

  /** `''.join(filter(str.isalnum, s))`. */
  function KeepAlnum(s: string): (r: string)
    ensures |r| <= |s|
    ensures forall i :: 0 <= i < |r| ==> IsAlnum(r[i]) && r[i] in s
  {
    if s == [] then [] else (if IsAlnum(s[0]) then [s[0]] else []) + KeepAlnum(s[1..])
  }

  /** `''.join(filter(str.isalnum, author.strip().lower()))`. */
  function NormalizeAuthor(author: string): (r: string)
  {
    KeepAlnum(Lower(Strip(author)))
  }

  /** A normalised name is made of lower-case letters and digits only. */
  lemma NormalizedIsLowerAlnum(author: string)
    ensures forall i :: 0 <= i < |NormalizeAuthor(author)| ==> IsLowerAlnum(NormalizeAuthor(author)[i])
  {
    var lowered := Lower(Strip(author));
    assert forall c :: c in lowered ==> !('A' <= c <= 'Z');
  }

  lemma {:induction false} KeepAlnumKeepsAlnum(s: string)
    requires forall i :: 0 <= i < |s| ==> IsAlnum(s[i])
    ensures KeepAlnum(s) == s
  {
    if s != [] {
      KeepAlnumKeepsAlnum(s[1..]);
    }
  }

  /** Normalising a normalised name changes nothing, so an index key is found again. */
  lemma NormalizeIdempotent(author: string)
    ensures NormalizeAuthor(NormalizeAuthor(author)) == NormalizeAuthor(author)
  {
    var r := NormalizeAuthor(author);
    NormalizedIsLowerAlnum(author);
    if r != [] {
      StripNoSpaceEnds(r);
    }
    assert Strip(r) == r;
    assert Lower(r) == r;
    KeepAlnumKeepsAlnum(r);
  }

  // ---------------------------------------------------------------------------
  // The index by author that `_download` builds

  /** `self.authors.get(k, [])`: the quotes indexed under `k`. */
  function PoolOf(authors: map<string, seq<QuoteObj>>, k: string): seq<QuoteObj> {
    if k in authors then authors[k] else []
  }

  /** One of the `/`-separated authors of `x` normalises to `k`. */
  predicate Authored(x: QuoteObj, k: string) {
    "author" in x && exists p :: p in Split(x["author"], '/') && NormalizeAuthor(p) == k
  }

  /** The inner loop of the indexing: `q` appended to the entry of each of `pieces`, in order. */
  function AddToPools(acc: map<string, seq<QuoteObj>>, pieces: seq<string>, q: QuoteObj): map<string, seq<QuoteObj>>
    decreases |pieces|
  {
    if pieces == [] then acc
    else
      var prev := AddToPools(acc, pieces[..|pieces| - 1], q);
      var k := NormalizeAuthor(pieces[|pieces| - 1]);
      prev[k := PoolOf(prev, k) + [q]]
  }

  /** One quote of the indexing: nothing when it has no author. */
  function IndexQuote(acc: map<string, seq<QuoteObj>>, q: QuoteObj): map<string, seq<QuoteObj>> {
    if "author" in q then AddToPools(acc, Split(q["author"], '/'), q) else acc
  }

  /**
    * The loop of `_download` over the quotes, appending each quote to the
    * entry of every one of its authors, as the code evidently intends. The
    * index is not emptied first, so it keeps what `acc` held.
    */
  function Index(acc: map<string, seq<QuoteObj>>, quotes: seq<QuoteObj>): map<string, seq<QuoteObj>>
    decreases |quotes|
  {
    if quotes == [] then acc else IndexQuote(Index(acc, quotes[..|quotes| - 1]), quotes[|quotes| - 1])
  }

  /** One of `pieces` normalises to `k`. */
  predicate Names(pieces: seq<string>, k: string) {
    exists p :: p in pieces && NormalizeAuthor(p) == k
  }

  lemma NamesSnoc(init: seq<string>, last: string, k: string)
    ensures Names(init + [last], k) <==> Names(init, k) || NormalizeAuthor(last) == k
  {
    if Names(init + [last], k) {
      var p :| p in init + [last] && NormalizeAuthor(p) == k;
      assert p in init || p == last;
    }
    if Names(init, k) {
      var p :| p in init && NormalizeAuthor(p) == k;
      assert p in init + [last];
    }
    if NormalizeAuthor(last) == k {
      assert last in init + [last];
    }
  }

  /**
    * Adding one quote under some names: only those names gain the quote, at
    * the end of their entries, and no entry loses anything.
    */
  lemma {:induction false} AddToPoolsMembers(acc: map<string, seq<QuoteObj>>, pieces: seq<string>, q: QuoteObj, k: string)
    ensures var r := AddToPools(acc, pieces, q);
            && (k in r <==> k in acc || Names(pieces, k))
            && PoolOf(acc, k) <= PoolOf(r, k)
            && forall x :: x in PoolOf(r, k) <==> x in PoolOf(acc, k) || (x == q && Names(pieces, k))
    decreases |pieces|
  {
    if pieces == [] {
      assert !Names(pieces, k);
    } else {
      var init := pieces[..|pieces| - 1];
      var last := pieces[|pieces| - 1];
      assert pieces == init + [last];
      AddToPoolsMembers(acc, init, q, k);
      NamesSnoc(init, last, k);
      var prev := AddToPools(acc, init, q);
      var kk := NormalizeAuthor(last);
      assert AddToPools(acc, pieces, q) == prev[kk := PoolOf(prev, kk) + [q]];
      PoolAppend(acc, prev, kk, q, k, Names(init, k));
    }
  }

  /**
    * Appending `q` to the entry of `kk` keeps the three facts of
    * `AddToPoolsMembers` about `k`, with `kk` now among the names.
    */
  lemma PoolAppend(acc: map<string, seq<QuoteObj>>, prev: map<string, seq<QuoteObj>>, kk: string, q: QuoteObj, k: string, named: bool)
    requires k in prev <==> k in acc || named
    requires PoolOf(acc, k) <= PoolOf(prev, k)
    requires forall x :: x in PoolOf(prev, k) <==> x in PoolOf(acc, k) || (x == q && named)
    ensures var r := prev[kk := PoolOf(prev, kk) + [q]];
            && (k in r <==> k in acc || named || k == kk)
            && PoolOf(acc, k) <= PoolOf(r, k)
            && forall x :: x in PoolOf(r, k) <==> x in PoolOf(acc, k) || (x == q && (named || k == kk))
  {
    var r := prev[kk := PoolOf(prev, kk) + [q]];
    if k == kk {
      assert PoolOf(r, k) == PoolOf(prev, k) + [q];
    } else {
      assert PoolOf(r, k) == PoolOf(prev, k);
    }
  }

  /** Some quote of `quotes` names `k` among its authors. */
  predicate AnyAuthored(quotes: seq<QuoteObj>, k: string) {
    exists x :: x in quotes && Authored(x, k)
  }

  /**
    * The corrected index: a name has an entry iff it had one or some quote
    * names it, its entry only grows, and it holds exactly the quotes it held
    * before and the quotes that name it among their authors.
    */
  lemma {:induction false} IndexMembers(acc: map<string, seq<QuoteObj>>, quotes: seq<QuoteObj>, k: string)
    ensures var r := Index(acc, quotes);
            && (k in r <==> k in acc || AnyAuthored(quotes, k))
            && PoolOf(acc, k) <= PoolOf(r, k)
            && forall x :: x in PoolOf(r, k) <==> x in PoolOf(acc, k) || (x in quotes && Authored(x, k))
    decreases |quotes|
  {
    if quotes == [] {
      assert !AnyAuthored(quotes, k);
    } else {
      var init := quotes[..|quotes| - 1];
      var last := quotes[|quotes| - 1];
      assert quotes == init + [last];
      IndexMembers(acc, init, k);
      var prev := Index(acc, init);
      assert Index(acc, quotes) == IndexQuote(prev, last);
      assert forall x :: x in quotes <==> x in init || x == last;
      assert AnyAuthored(quotes, k) <==> AnyAuthored(init, k) || Authored(last, k);
      if "author" in last {
        AddToPoolsMembers(prev, Split(last["author"], '/'), last, k);
        assert Authored(last, k) <==> Names(Split(last["author"], '/'), k);
      }
    }
  }

  /**
    * The indexing as written: the first quote with an author stores an empty
    * dictionary under its first author, then `+=` on two dictionaries raises
    * `TypeError`; the pair is the index left behind and the exception.
    */
  function IndexAsWritten(acc: map<string, seq<QuoteObj>>, quotes: seq<QuoteObj>)
    : (map<string, seq<QuoteObj>>, Option<PyError>)
    decreases |quotes|
  {
    if quotes == [] then (acc, None)
    else if "author" !in quotes[0] then IndexAsWritten(acc, quotes[1..])
    else
      var k := NormalizeAuthor(Split(quotes[0]["author"], '/')[0]);
      (if k in acc then acc else acc[k := []], Some(TypeError))
  }

  /**
    * As written, any quote with an author makes the indexing raise
    * `TypeError`, and no entry of the index ever gains a quote.
    */
  lemma {:induction false} IndexAsWrittenFails(acc: map<string, seq<QuoteObj>>, quotes: seq<QuoteObj>)
    ensures var (r, error) := IndexAsWritten(acc, quotes);
            && (error.Some? <==> exists x :: x in quotes && "author" in x)
            && (error.Some? ==> error.value == TypeError)
            && forall k :: PoolOf(r, k) == PoolOf(acc, k)
    decreases |quotes|
  {
    if quotes != [] && "author" !in quotes[0] {
      IndexAsWrittenFails(acc, quotes[1..]);
      assert forall x :: x in quotes <==> x == quotes[0] || x in quotes[1..];
    }
  }

  /** A file of one quote by "A": as written the entry for `a` stays empty, corrected it holds the quote. */
  lemma IndexOneQuote()
    ensures var q: QuoteObj := map["quote" := "x", "author" := "A"];
            && IndexAsWritten(map[], [q]).1 == Some(TypeError)
            && PoolOf(IndexAsWritten(map[], [q]).0, "a") == []
            && PoolOf(Index(map[], [q]), "a") == [q]
  {
    var q: QuoteObj := map["quote" := "x", "author" := "A"];
    var empty: map<string, seq<QuoteObj>> := map[];
    var one: seq<string> := ["A"];
    assert "A"[1..] == "";
    assert Split("A", '/') == [['A'] + Split("", '/')[0]] + Split("", '/')[1..];
    assert NormalizeAuthor("A") == "a";
    assert [q][..0] == [] && one[..0] == [];
    assert Index(empty, [q]) == AddToPools(empty, one, q);
    assert AddToPools(empty, one, q) == empty["a" := PoolOf(empty, "a") + [q]];
    assert PoolOf(empty, "a") + [q] == [q];
  }

  // ---------------------------------------------------------------------------
  // `get_random_quote`, with the random choice as a parameter

  /** `q` of `get_random_quote(author)`: every quote, or the author's entry of the index. */
  function Pool(quotes: seq<QuoteObj>, authors: map<string, seq<QuoteObj>>, author: Option<string>)
    : seq<QuoteObj>
  {
    if author.None? then quotes else PoolOf(authors, NormalizeAuthor(author.value))
  }

  /**
    * The rest of `get_random_quote(author)` once the quotes are loaded:
    * `choice(q)` picks the element `pick` modulo the pool's size. An author
    * with no quotes gives three `None`s; with no author, an empty file makes
    * `choice` raise `IndexError`.
    */
  function Pick(quotes: seq<QuoteObj>, authors: map<string, seq<QuoteObj>>, author: Option<string>, pick: nat)
    : (r: Result<Formatted, PyError>)
    ensures author.Some? && Pool(quotes, authors, author) == [] ==> r == Ok(Nothing)
    ensures author.None? ==> (r.Err? <==> quotes == [])
    ensures r.Err? ==> r.error == IndexError
    ensures r.Ok? && Pool(quotes, authors, author) != [] ==>
              exists i :: 0 <= i < |Pool(quotes, authors, author)| && r.value == FormatQuote(Pool(quotes, authors, author)[i])
  {
    var q := Pool(quotes, authors, author);
    if author.Some? && |q| <= 0 then Ok(Nothing)
    else if |q| == 0 then Err(IndexError)
    else Ok(FormatQuote(q[pick % |q|]))
  }

  /**
    * A pick by author from a freshly indexed file: three `None`s when no
    * quote names the author, otherwise one of the quotes that name them.
    */
  lemma PickByAuthor(fetched: seq<QuoteObj>, author: string, pick: nat)
    ensures var k := NormalizeAuthor(author);
            var r := Pick(fetched, Index(map[], fetched), Some(author), pick);
            && r.Ok?
            && (!AnyAuthored(fetched, k) ==> r.value == Nothing)
            && (AnyAuthored(fetched, k) ==> exists x :: x in fetched && Authored(x, k) && r.value == FormatQuote(x))
  {
    var k := NormalizeAuthor(author);
    var empty: map<string, seq<QuoteObj>> := map[];
    IndexMembers(empty, fetched, k);
    var pool := Pool(fetched, Index(empty, fetched), Some(author));
    assert pool == PoolOf(Index(empty, fetched), k);
    if AnyAuthored(fetched, k) {
      var x :| x in fetched && Authored(x, k);
      assert x in pool;
      var r := Pick(fetched, Index(empty, fetched), Some(author), pick);
      var i :| 0 <= i < |pool| && r.value == FormatQuote(pool[i]);
      assert pool[i] in pool;
    } else {
      assert forall x :: x !in pool;
    }
  }

  /** Whether `_download` fetches the file: never fetched, or fetched at least 48 hours ago. */
  predicate NeedsDownload(last: Option<real>, now: real) {
    last.None? || now - last.value >= RefreshSeconds
  }

  class Quotes {
    /** The quotes of the file, in its order. */
    var quotes: seq<QuoteObj>
    /** The index by normalised author name. */
    var authors: map<string, seq<QuoteObj>>
    /** `quotes_last_download`: the time, in seconds, of the last fetch. */
    var lastDownload: Option<real>

    constructor ()
      ensures quotes == [] && authors == map[] && lastDownload == None
    {
      quotes := [];
      authors := map[];
      lastDownload := None;
    }

    /**
      * `_download()` at time `now`, where `fetched` is the content of the
      * file: within 48 hours of the last fetch nothing changes; otherwise
      * the quotes are replaced and each is added to the index under every
      * one of its authors (the corrected indexing of `Index`).
      */
    method Download(now: real, fetched: seq<QuoteObj>)
      modifies this`quotes, this`authors, this`lastDownload
      ensures NeedsDownload(old(lastDownload), now) ==>
                quotes == fetched && authors == Index(old(authors), fetched) && lastDownload == Some(now)
      ensures !NeedsDownload(old(lastDownload), now) ==>
                quotes == old(quotes) && authors == old(authors) && lastDownload == old(lastDownload)
      ensures lastDownload.Some? && !NeedsDownload(lastDownload, now)
    {
      if lastDownload.Some? && now - lastDownload.value < RefreshSeconds {
        return;
      }
      quotes := fetched;
      lastDownload := Some(now);
      IndexAll(fetched);
    }

    /** The loop of `_download` over the fetched quotes, corrected as in `Index`. */
    method IndexAll(fetched: seq<QuoteObj>)
      modifies this`authors
      ensures authors == Index(old(authors), fetched)
    {
      for i := 0 to |fetched|
        invariant authors == Index(old(authors), fetched[..i])
      {
        assert fetched[..i + 1] == fetched[..i] + [fetched[i]];
        AddQuote(fetched[i]);
      }
      assert fetched[..|fetched|] == fetched;
    }

    /** The loop over the authors of one quote, `quote["author"].split('/')`. */
    method AddQuote(quote: QuoteObj)
      modifies this`authors
      ensures authors == IndexQuote(old(authors), quote)
    {
      if "author" in quote {
        var pieces := Split(quote["author"], '/');
        for j := 0 to |pieces|
          invariant authors == AddToPools(old(authors), pieces[..j], quote)
        {
          assert pieces[..j + 1][..j] == pieces[..j];
          var author := NormalizeAuthor(pieces[j]);
          authors := authors[author := PoolOf(authors, author) + [quote]];
        }
        assert pieces[..|pieces|] == pieces;
      }
    }

    /** `get_random_quote(author)` at time `now`, with `pick` standing for the random choice. */
    method GetRandomQuote(now: real, fetched: seq<QuoteObj>, author: Option<string>, pick: nat)
      returns (r: Result<Formatted, PyError>)
      modifies this`quotes, this`authors, this`lastDownload
      ensures NeedsDownload(old(lastDownload), now) ==>
                quotes == fetched && authors == Index(old(authors), fetched) && lastDownload == Some(now)
      ensures !NeedsDownload(old(lastDownload), now) ==>
                quotes == old(quotes) && authors == old(authors) && lastDownload == old(lastDownload)
      ensures r == Pick(quotes, authors, author, pick)
    {
      Download(now, fetched);
      var q: seq<QuoteObj>;
      if author.None? {
        q := quotes;
      } else {
        q := PoolOf(authors, NormalizeAuthor(author.value));
        if |q| <= 0 {
          return Ok(Nothing);
        }
      }
      if |q| == 0 {
        return Err(IndexError);
      }
      return Ok(FormatQuote(q[pick % |q|]));
    }

    /** `_get_quote_at(pos)`: the formatted quote at `pos`, or `None` outside the list. */
    function QuoteAt(pos: int): (r: Option<Formatted>)
      reads this
      ensures r.None? <==> pos < 0 || pos >= |quotes|
      ensures r.Some? ==> r.value == FormatQuote(quotes[pos])
    {
      if pos < 0 || pos >= |quotes| then None else Some(FormatQuote(quotes[pos]))
    }

    /**
      * `delete_cache()`: forgets the quotes and the index and returns how
      * many quotes there were; the next `_download` fetches again.
      */
    method DeleteCache() returns (lines: int)
      modifies this
      ensures lines == |old(quotes)|
      ensures quotes == [] && authors == map[] && lastDownload == None
      ensures forall now :: NeedsDownload(lastDownload, now)
    {
      lines := |quotes|;
      quotes := [];
      authors := map[];
      lastDownload := None;
    }
  }
}

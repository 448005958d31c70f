/**
 * The result handling of the search page (components/exa-search-form.tsx):
 * CSV export, the choice of the companies sent for enrichment, the merge
 * of the returned contacts into the search results, and the bounded
 * polling for phone numbers.
 *
 * React state becomes ordinary values threaded through the operations;
 * the status endpoint polled for each job is an oracle indexed by pass and
 * job id; a score (a float in the program) is an integer key here and its
 * text form in the export is a parameter.
 */
module ExaSearchForm {
  import opened Wrappers
  import opened Js
  import JsMap
  import Types
  import ApolloEnrich

  /** A search result, with the contacts merged in once enrichment ran. */
  datatype ExaResult = ExaResult(
    url: string,
    title: string,
    summary: Option<string>,
    text: Option<string>,
    highlights: Option<seq<string>>,
    publishedDate: Option<string>,
    author: Option<string>,
    score: Option<int>,
    apolloContacts: Option<seq<Types.Contact>>)

  // ---------------------------------------------------------------------
  // escapeCSVField

  /** `s.replace(/"/g, '""')`: every double quote doubled. */
  function DoubleQuotes(s: string): (r: string)
    ensures |r| >= |s|
    ensures forall c :: c in r <==> c in s
  {
    if s == [] then []
    else
      var rest := DoubleQuotes(s[1..]);
      assert forall c :: c in s <==> c == s[0] || c in s[1..] by {
        assert s == [s[0]] + s[1..];
      }
      (if s[0] == '"' then "\"\"" else [s[0]]) + rest
  }

  lemma {:induction false} DoubleQuotesNoQuotes(s: string)
    requires '"' !in s
    ensures DoubleQuotes(s) == s
  {
    if s != [] {
      assert '"' !in s[1..];
      DoubleQuotesNoQuotes(s[1..]);
      assert s == [s[0]] + s[1..];
    }
  }

  /** The inverse of `DoubleQuotes`: every `""` read as one `"`. */
  function UnDouble(s: string): string {
    if |s| >= 2 && s[0] == '"' && s[1] == '"' then "\"" + UnDouble(s[2..])
    else if s == [] then []
    else [s[0]] + UnDouble(s[1..])
  }

  lemma {:induction false} UnDoubleDoubleQuotes(s: string)
    ensures UnDouble(DoubleQuotes(s)) == s
  {
    if s != [] {
      UnDoubleDoubleQuotes(s[1..]);
      var d := DoubleQuotes(s);
      if s[0] == '"' {
        assert d[2..] == DoubleQuotes(s[1..]);
      } else {
        assert d[1..] == DoubleQuotes(s[1..]);
      }
      assert s == [s[0]] + s[1..];
    }
  }

  /** A text without double quotes is its own un-doubling. */
  lemma {:induction false} UnDoubleNoQuotes(s: string)
    requires '"' !in s
    ensures UnDouble(s) == s
  {
    if s != [] {
      assert '"' !in s[1..];
      UnDoubleNoQuotes(s[1..]);
      assert s == [s[0]] + s[1..];
    }
  }

  predicate NeedsQuoting(s: string) {
    ',' in s || '\n' in s || '"' in s
  }

  /**
   * `escapeCSVField`: an absent or empty field is empty; otherwise the
   * quotes are doubled, and the result is wrapped in quotes exactly when
   * the field holds a comma, a line feed or a quote.
   */
  function EscapeCSVField(field: Option<string>): (r: string)
    ensures !Truthy(field) ==> r == ""
    ensures Truthy(field) && !NeedsQuoting(field.value) ==> r == field.value
    ensures Truthy(field) && NeedsQuoting(field.value) ==> r == "\"" + DoubleQuotes(field.value) + "\""
  {
    if !Truthy(field) then ""
    else
      var escaped := DoubleQuotes(field.value);
      if NeedsQuoting(escaped) then "\"" + escaped + "\""
      else
        DoubleQuotesNoQuotes(field.value);
        escaped
  }

  /** Reading a field back: strip the wrapping quotes, if any, and un-double. */
  function UnescapeCSVField(r: string): string {
    if |r| >= 2 && r[0] == '"' && r[|r| - 1] == '"' then UnDouble(r[1..|r| - 1]) else UnDouble(r)
  }

  /** Escaping loses nothing: the field, with absent read as empty, comes back. */
  lemma EscapeRoundTrip(field: Option<string>)
    ensures UnescapeCSVField(EscapeCSVField(field)) == OrEmpty(field)
  {
    if Truthy(field) {
      var s := field.value;
      var r := EscapeCSVField(field);
      if NeedsQuoting(s) {
        assert r[1..|r| - 1] == DoubleQuotes(s);
        UnDoubleDoubleQuotes(s);
      } else {
        assert r == s;
        if |s| >= 2 {
          assert s[0] != '"';
        }
        UnDoubleNoQuotes(s);
      }
    }
  }

  // ---------------------------------------------------------------------
  // handleExportCSV

  const Headers: seq<string> := [
    "Company Name", "Company URL", "Company Summary", "Company Text",
    "Company Highlights", "Company Author", "Company Published Date", "Company Score",
    "Contact Name", "Contact Email", "Contact Phone", "Contact Title", "Contact LinkedIn URL"]

  /** The five contact columns of a result without contacts. */
  const NullColumns: seq<string> := ["null", "null", "null", "null", "null"]

  /** `result.score?.toString() || ''`, unescaped. */
  function ScoreColumn(score: Option<int>, show: int -> string): string {
    if score.Some? then show(score.value) else ""
  }

  function HighlightsText(h: Option<seq<string>>): Option<string> {
    if h.Some? then Some(Join(h.value, " | ")) else None
  }

  /** The eight company columns. */
  function CompanyColumns(r: ExaResult, show: int -> string): (cols: seq<string>)
    ensures |cols| == 8
  {
    [EscapeCSVField(Some(r.title)), EscapeCSVField(Some(r.url)), EscapeCSVField(r.summary),
     EscapeCSVField(r.text), EscapeCSVField(HighlightsText(r.highlights)), EscapeCSVField(r.author),
     EscapeCSVField(r.publishedDate), ScoreColumn(r.score, show)]
  }

  /** The five contact columns; `x || ''` escapes like `x` itself, since both give "". */
  function ContactColumns(c: Types.Contact): (cols: seq<string>)
    ensures |cols| == 5
  {
    [EscapeCSVField(Some(c.name)), EscapeCSVField(c.email), EscapeCSVField(c.phone),
     EscapeCSVField(c.title), EscapeCSVField(c.linkedinUrl)]
  }

  /** The rows of one result: one per contact, or a single row of `null`s. */
  function ResultRows(r: ExaResult, show: int -> string): seq<seq<string>> {
    var contacts := r.apolloContacts.GetOr([]);
    if contacts == [] then [CompanyColumns(r, show) + NullColumns]
    else seq(|contacts|, k requires 0 <= k < |contacts| => CompanyColumns(r, show) + ContactColumns(contacts[k]))
  }

  /** One row per contact, or a single one; each as wide as the header and led by the company columns. */
  lemma ResultRowsShape(r: ExaResult, show: int -> string)
    ensures |ResultRows(r, show)| == if r.apolloContacts.GetOr([]) == [] then 1 else |r.apolloContacts.GetOr([])|
    ensures forall k :: 0 <= k < |ResultRows(r, show)| ==>
      |ResultRows(r, show)[k]| == |Headers| && ResultRows(r, show)[k][..8] == CompanyColumns(r, show)
  {
  }

  /** The rows of all results, in order: at least one per result. */
  function Rows(data: seq<ExaResult>, show: int -> string): (rows: seq<seq<string>>)
    ensures |rows| >= |data|
  {
    if data == [] then [] else Rows(data[..|data| - 1], show) + ResultRows(data[|data| - 1], show)
  }

  /** One turn of the `forEach`: the rows of one result pushed after `rows`. */
  method PushResultRows(rows: seq<seq<string>>, result: ExaResult, show: int -> string) returns (rows': seq<seq<string>>)
    ensures rows' == rows + ResultRows(result, show)
  {
    var contacts := result.apolloContacts.GetOr([]);
    var company := CompanyColumns(result, show);
    rows' := rows;
    if |contacts| == 0 {
      rows' := rows' + [company + NullColumns];
    } else {
      ghost var all := ResultRows(result, show);
      ResultRowsOfContacts(result, show, contacts, company, all);
      for k := 0 to |contacts|
        invariant rows' == rows + all[..k]
      {
        PrefixSnoc(all, k, company + ContactColumns(contacts[k]));
        rows' := rows' + [company + ContactColumns(contacts[k])];
      }
      assert all[..|contacts|] == all;
    }
  }

  /** With contacts, row `k` of a result is its company columns and contact `k`'s columns. */
  lemma ResultRowsOfContacts(r: ExaResult, show: int -> string, contacts: seq<Types.Contact>,
                             company: seq<string>, all: seq<seq<string>>)
    requires contacts == r.apolloContacts.GetOr([]) && contacts != []
    requires company == CompanyColumns(r, show) && all == ResultRows(r, show)
    ensures |all| == |contacts|
    ensures forall k :: 0 <= k < |contacts| ==> all[k] == company + ContactColumns(contacts[k])
  {
  }

  /** Extending a prefix by the next element. */
  lemma PrefixSnoc<T>(s: seq<T>, k: nat, x: T)
    requires k < |s| && s[k] == x
    ensures s[..k + 1] == s[..k] + [x]
  {
  }

  /** The `forEach` that pushes the rows. */
  method BuildRows(data: seq<ExaResult>, show: int -> string) returns (rows: seq<seq<string>>)
    ensures rows == Rows(data, show)
  {
    rows := [];
    for i := 0 to |data|
      invariant rows == Rows(data[..i], show)
    {
      assert data[..i + 1][..i] == data[..i];
      rows := PushResultRows(rows, data[i], show);
    }
    assert data[..|data|] == data;
  }

  function ContactCount(r: ExaResult): nat {
    |r.apolloContacts.GetOr([])|
  }

  function RowCount(data: seq<ExaResult>): nat {
    if data == [] then 0
    else RowCount(data[..|data| - 1]) + (if ContactCount(data[|data| - 1]) == 0 then 1 else ContactCount(data[|data| - 1]))
  }

  /** `max(1, contacts.length)` rows per result, each as wide as the header. */
  lemma {:induction false} RowsShape(data: seq<ExaResult>, show: int -> string)
    ensures |Rows(data, show)| == RowCount(data)
    ensures forall k :: 0 <= k < |Rows(data, show)| ==> |Rows(data, show)[k]| == |Headers|
  {
    if data != [] {
      RowsShape(data[..|data| - 1], show);
    }
  }

  /** A result without contacts exports a single row ending in five `null`s. */
  lemma NoContactRow(r: ExaResult, show: int -> string)
    requires ContactCount(r) == 0
    ensures ResultRows(r, show) == [CompanyColumns(r, show) + NullColumns]
    ensures ResultRows(r, show)[0][8..] == ["null", "null", "null", "null", "null"]
  {
  }

  /** The file: the header line, then one line per row. */
  function CsvContent(rows: seq<seq<string>>): string {
    Join([Join(Headers, ",")] + seq(|rows|, k requires 0 <= k < |rows| => Join(rows[k], ",")), "\n")
  }

  /** `handleExportCSV`: `enrichedResults || results`; nothing to export gives no file. */
  method HandleExportCSV(enriched: Option<seq<ExaResult>>, results: Option<seq<ExaResult>>, show: int -> string)
    returns (csv: Option<string>)
    ensures var data := if enriched.Some? then enriched else results;
      (data.None? || data.value == []) <==> csv.None?
    ensures var data := if enriched.Some? then enriched else results;
      csv.Some? ==> csv.value == CsvContent(Rows(data.value, show))
  {
    var data := if enriched.Some? then enriched else results;
    if data.None? || |data.value| == 0 {
      return None;
    }
    var rows := BuildRows(data.value, show);
    csv := Some(CsvContent(rows));
  }

  // ---------------------------------------------------------------------
  // handleApolloEnrich: the top companies, by score

  /** `r.score || 0`. */
  function ScoreKey(r: ExaResult): int {
    r.score.GetOr(0)
  }

  predicate SortedByScore(s: seq<ExaResult>) {
    forall i, j :: 0 <= i < j < |s| ==> ScoreKey(s[i]) >= ScoreKey(s[j])
  }

  /** `x` placed after every leading element whose score is at least its own. */
  function Insert(t: seq<ExaResult>, x: ExaResult): (r: seq<ExaResult>)
    ensures |r| == |t| + 1
  {
    if t == [] then [x]
    else if ScoreKey(t[0]) >= ScoreKey(x) then [t[0]] + Insert(t[1..], x)
    else [x] + t
  }

  lemma {:induction false} InsertPermutes(t: seq<ExaResult>, x: ExaResult)
    ensures multiset(Insert(t, x)) == multiset(t) + multiset{x}
  {
    if t != [] && ScoreKey(t[0]) >= ScoreKey(x) {
      InsertPermutes(t[1..], x);
      assert t == [t[0]] + t[1..];
    }
  }

  /**
   * `results.sort((a, b) => (b.score || 0) - (a.score || 0))`: descending by
   * score, and stable (equal scores keep their order), as the language
   * requires of `sort`.
   */
  function SortByScore(s: seq<ExaResult>): (r: seq<ExaResult>)
    ensures |r| == |s|
  {
    if s == [] then [] else Insert(SortByScore(s[..|s| - 1]), s[|s| - 1])
  }

  /** Inserting under a bound every element already meets keeps every element under it. */
  lemma {:induction false} InsertBounded(t: seq<ExaResult>, x: ExaResult, b: int)
    requires forall k :: 0 <= k < |t| ==> ScoreKey(t[k]) <= b
    requires ScoreKey(x) <= b
    ensures forall k :: 0 <= k < |Insert(t, x)| ==> ScoreKey(Insert(t, x)[k]) <= b
  {
    if t != [] && ScoreKey(t[0]) >= ScoreKey(x) {
      var rest := t[1..];
      forall k | 0 <= k < |rest| ensures ScoreKey(rest[k]) <= b {
        assert rest[k] == t[k + 1];
      }
      InsertBounded(rest, x, b);
      var ins := Insert(rest, x);
      var r := Insert(t, x);
      assert r == [t[0]] + ins;
      forall k | 0 <= k < |r| ensures ScoreKey(r[k]) <= b {
        if k > 0 {
          assert r[k] == ins[k - 1];
        }
      }
    }
  }

  /** A head at least as high as every element of a sorted list keeps it sorted. */
  lemma SortedCons(h: ExaResult, s: seq<ExaResult>)
    requires SortedByScore(s)
    requires forall k :: 0 <= k < |s| ==> ScoreKey(s[k]) <= ScoreKey(h)
    ensures SortedByScore([h] + s)
  {
    var r := [h] + s;
    forall i, j | 0 <= i < j < |r| ensures ScoreKey(r[i]) >= ScoreKey(r[j]) {
      assert r[j] == s[j - 1];
      if i > 0 {
        assert r[i] == s[i - 1];
      }
    }
  }

  lemma {:induction false} InsertSorted(t: seq<ExaResult>, x: ExaResult)
    requires SortedByScore(t)
    ensures SortedByScore(Insert(t, x))
  {
    if t != [] {
      var rest := t[1..];
      SortedTail(t);
      if ScoreKey(t[0]) >= ScoreKey(x) {
        InsertSorted(rest, x);
        forall k | 0 <= k < |rest| ensures ScoreKey(rest[k]) <= ScoreKey(t[0]) {
          assert rest[k] == t[k + 1];
        }
        InsertBounded(rest, x, ScoreKey(t[0]));
        var ins := Insert(rest, x);
        assert Insert(t, x) == [t[0]] + ins;
        SortedCons(t[0], ins);
      } else {
        assert Insert(t, x) == [x] + t;
        SortedCons(x, t);
      }
    }
  }

  /** The sort orders by descending score, a missing score counting as 0. */
  lemma {:induction false} SortOrdered(s: seq<ExaResult>)
    ensures SortedByScore(SortByScore(s))
  {
    if s != [] {
      var init, last := s[..|s| - 1], s[|s| - 1];
      assert SortByScore(s) == Insert(SortByScore(init), last);
      SortOrdered(init);
      InsertSorted(SortByScore(init), last);
    }
  }

  /** The sort loses and adds nothing: it is a permutation. */
  lemma {:induction false} SortPermutes(s: seq<ExaResult>)
    ensures multiset(SortByScore(s)) == multiset(s)
  {
    if s != [] {
      var init, last := s[..|s| - 1], s[|s| - 1];
      SortPermutes(init);
      var t := SortByScore(init);
      var r := SortByScore(s);
      assert r == Insert(t, last);
      InsertStepPermutes(s, init, last, t, r);
    }
  }

  lemma InsertStepPermutes(s: seq<ExaResult>, init: seq<ExaResult>, last: ExaResult, t: seq<ExaResult>, r: seq<ExaResult>)
    requires s == init + [last] && multiset(t) == multiset(init) && r == Insert(t, last)
    ensures multiset(r) == multiset(s)
  {
    InsertPermutes(t, last);
  }

  /** The elements with score `v`, in order. */
  function WithScore(s: seq<ExaResult>, v: int): seq<ExaResult> {
    if s == [] then [] else (if ScoreKey(s[0]) == v then [s[0]] else []) + WithScore(s[1..], v)
  }

  lemma {:induction false} WithScoreAppend(a: seq<ExaResult>, b: seq<ExaResult>, v: int)
    ensures WithScore(a + b, v) == WithScore(a, v) + WithScore(b, v)
  {
    if a == [] {
      assert a + b == b;
    } else {
      var a0, rest := a[0], a[1..];
      var xs := if ScoreKey(a0) == v then [a0] else [];
      assert a == [a0] + rest;
      assert a + b == [a0] + (rest + b);
      WithScoreAppend(rest, b, v);
      WithScoreCons(a0, rest + b, v);
      WithScoreCons(a0, rest, v);
      assert xs + (WithScore(rest, v) + WithScore(b, v)) == (xs + WithScore(rest, v)) + WithScore(b, v);
    }
  }

  lemma {:induction false} WithScoreBelow(t: seq<ExaResult>, v: int)
    requires forall k :: 0 <= k < |t| ==> ScoreKey(t[k]) < v
    ensures WithScore(t, v) == []
  {
    if t != [] {
      WithScoreBelow(t[1..], v);
    }
  }

  lemma WithScoreCons(a: ExaResult, s: seq<ExaResult>, v: int)
    ensures WithScore([a] + s, v) == (if ScoreKey(a) == v then [a] else []) + WithScore(s, v)
  {
    assert ([a] + s)[0] == a && ([a] + s)[1..] == s;
  }

  lemma SortedTail(t: seq<ExaResult>)
    requires t != [] && SortedByScore(t)
    ensures SortedByScore(t[1..])
    ensures forall k :: 0 <= k < |t| ==> ScoreKey(t[k]) <= ScoreKey(t[0])
  {
    var rest := t[1..];
    forall i, j | 0 <= i < j < |rest| ensures ScoreKey(rest[i]) >= ScoreKey(rest[j]) {
      assert rest[i] == t[i + 1] && rest[j] == t[j + 1];
    }
  }

  /** Inserting `x` after the head `t0`: the head's entry stays in front. */
  lemma InsertAfterHead(t0: ExaResult, rest: seq<ExaResult>, ins: seq<ExaResult>, xs: seq<ExaResult>, v: int)
    requires WithScore(ins, v) == WithScore(rest, v) + xs
    ensures WithScore([t0] + ins, v) == WithScore([t0] + rest, v) + xs
  {
    WithScoreCons(t0, ins, v);
    WithScoreCons(t0, rest, v);
    var t0s := if ScoreKey(t0) == v then [t0] else [];
    assert t0s + (WithScore(rest, v) + xs) == (t0s + WithScore(rest, v)) + xs;
  }

  /** Inserting `x` in front of a sorted list whose scores are all below its own. */
  lemma InsertInFront(t: seq<ExaResult>, x: ExaResult, v: int)
    requires t != [] && SortedByScore(t) && ScoreKey(t[0]) < ScoreKey(x)
    ensures WithScore([x] + t, v) == WithScore(t, v) + (if ScoreKey(x) == v then [x] else [])
  {
    WithScoreCons(x, t, v);
    if ScoreKey(x) == v {
      SortedTail(t);
      WithScoreBelow(t, v);
      assert [x] + [] == [] + [x];
    } else {
      assert [] + WithScore(t, v) == WithScore(t, v) + [];
    }
  }

  lemma {:induction false} InsertWithScore(t: seq<ExaResult>, x: ExaResult, v: int)
    requires SortedByScore(t)
    ensures WithScore(Insert(t, x), v) == WithScore(t, v) + (if ScoreKey(x) == v then [x] else [])
  {
    var xs := if ScoreKey(x) == v then [x] else [];
    if t == [] {
      assert Insert(t, x) == [x] + [];
      WithScoreCons(x, [], v);
    } else {
      var t0, rest := t[0], t[1..];
      assert t == [t0] + rest;
      if ScoreKey(t0) >= ScoreKey(x) {
        SortedTail(t);
        InsertWithScore(rest, x, v);
        var ins := Insert(rest, x);
        assert Insert(t, x) == [t0] + ins;
        InsertAfterHead(t0, rest, ins, xs, v);
      } else {
        assert Insert(t, x) == [x] + t;
        InsertInFront(t, x, v);
      }
    }
  }

  /** Stability: among equal scores the sort keeps the input order. */
  lemma {:induction false} SortStable(s: seq<ExaResult>, v: int)
    ensures WithScore(SortByScore(s), v) == WithScore(s, v)
  {
    if s != [] {
      var init, last := s[..|s| - 1], s[|s| - 1];
      SortStable(init, v);
      SortOrdered(init);
      var t := SortByScore(init);
      assert SortByScore(s) == Insert(t, last);
      assert s == init + [last];
      StableStep(init, last, t, v);
    }
  }

  /** Inserting the next element into the sorted prefix keeps its equal-score elements in input order. */
  lemma StableStep(init: seq<ExaResult>, last: ExaResult, t: seq<ExaResult>, v: int)
    requires SortedByScore(t) && WithScore(t, v) == WithScore(init, v)
    ensures WithScore(Insert(t, last), v) == WithScore(init + [last], v)
  {
    InsertWithScore(t, last, v);
    WithScoreAppend(init, [last], v);
    WithScoreCons(last, [], v);
    assert [last] + [] == [last];
  }

  /** `.slice(0, apolloLimit).map((r) => ({ title: r.title, url: r.url }))` of the sorted results. */
  function TopCompanies(sorted: seq<ExaResult>, limit: nat): (cs: seq<Types.Company>)
    ensures |cs| == if limit < |sorted| then limit else |sorted|
    ensures forall k :: 0 <= k < |cs| ==> cs[k] == Types.Company(sorted[k].title, sorted[k].url)
  {
    var n := if limit < |sorted| then limit else |sorted|;
    seq(n, k requires 0 <= k < n => Types.Company(sorted[k].title, sorted[k].url))
  }

  /** No company left out of the top `limit` scores higher than one sent. */
  lemma TopCompaniesAreBest(s: seq<ExaResult>, limit: nat, i: nat, j: nat)
    requires i < limit && i < |s| && limit <= j < |s|
    ensures ScoreKey(SortByScore(s)[i]) >= ScoreKey(SortByScore(s)[j])
  {
    SortOrdered(s);
  }

  // ---------------------------------------------------------------------
  // handleApolloEnrich: merging the returned contacts

  /** `data.results.find((r) => r.url === url)`. */
  function FindByUrl(data: seq<ApolloEnrich.CompanyResult>, url: string): (r: Option<nat>)
    ensures r.Some? ==> (r.value < |data| && data[r.value].url == url &&
      forall k :: 0 <= k < r.value ==> data[k].url != url)
    ensures r.None? ==> forall k :: 0 <= k < |data| ==> data[k].url != url
  {
    if data == [] then None
    else if data[0].url == url then Some(0)
    else
      match FindByUrl(data[1..], url)
      case None => None
      case Some(k) => Some(k + 1)
  }

  function MergedContacts(data: seq<ApolloEnrich.CompanyResult>, url: string): seq<Types.Contact> {
    match FindByUrl(data, url)
    case Some(k) => data[k].contacts
    case None => []
  }

  /**
   * The merge: every result, in order, gets the contacts of the first
   * enrichment entry with the same url, or none.
   */
  function Merge(results: seq<ExaResult>, data: seq<ApolloEnrich.CompanyResult>): (merged: seq<ExaResult>)
    ensures |merged| == |results|
    ensures forall i :: 0 <= i < |results| ==>
      merged[i] == results[i].(apolloContacts := Some(MergedContacts(data, results[i].url)))
  {
    seq(|results|, i requires 0 <= i < |results| =>
      results[i].(apolloContacts := Some(MergedContacts(data, results[i].url))))
  }

  /** An entry gets the contacts of the first match, and an unmatched one gets none. */
  lemma MergeFirstMatch(results: seq<ExaResult>, data: seq<ApolloEnrich.CompanyResult>, i: nat, k: nat)
    requires i < |results| && k < |data| && data[k].url == results[i].url
    requires forall m :: 0 <= m < k ==> data[m].url != results[i].url
    ensures Merge(results, data)[i].apolloContacts == Some(data[k].contacts)
  {
    var f := FindByUrl(data, results[i].url);
    assert f.Some?;
  }

  // ---------------------------------------------------------------------
  // handleApolloEnrich: the jobs to poll

  /** The map built by `forEach`: after the first `k` results. */
  function JobIdsUpTo(data: seq<ApolloEnrich.CompanyResult>, k: nat): (m: JsMap.JsMap<string>)
    requires k <= |data|
    ensures m.Valid()
  {
    if k == 0 then JsMap.Empty()
    else
      var m := JobIdsUpTo(data, k - 1);
      var r := data[k - 1];
      if Truthy(r.phoneJobId) then m.Set(r.phoneJobId.value, r.url) else m
  }

  /** `jobIds.set(result.phoneJobId, result.url)` for every result with a truthy job id. */
  method JobIdsToPoll(data: seq<ApolloEnrich.CompanyResult>) returns (jobIds: JsMap.JsMap<string>)
    ensures jobIds == JobIdsUpTo(data, |data|)
  {
    jobIds := JsMap.Empty();
    for k := 0 to |data|
      invariant jobIds == JobIdsUpTo(data, k)
    {
      if Truthy(data[k].phoneJobId) {
        jobIds := jobIds.Set(data[k].phoneJobId.value, data[k].url);
      }
    }
  }

  /**
   * The map holds exactly the truthy job ids, each with the url of the last
   * result that carried it.
   */
  lemma {:induction false} JobIdsExactly(data: seq<ApolloEnrich.CompanyResult>, k: nat, id: string)
    requires k <= |data|
    ensures id in JobIdsUpTo(data, k).entries <==>
      exists i :: 0 <= i < k && Truthy(data[i].phoneJobId) && data[i].phoneJobId.value == id
    ensures id in JobIdsUpTo(data, k).entries ==> exists i :: (0 <= i < k &&
      data[i].phoneJobId == Some(id) && JobIdsUpTo(data, k).entries[id] == data[i].url &&
      forall m :: i < m < k ==> data[m].phoneJobId != Some(id))
  {
    if k > 0 {
      JobIdsExactly(data, k - 1, id);
      var prev, m := JobIdsUpTo(data, k - 1), JobIdsUpTo(data, k);
      var r := data[k - 1];
      JobIdsStep(data, k, prev, m);
      if Truthy(r.phoneJobId) && r.phoneJobId.value == id {
        assert m.entries[id] == r.url;
      } else if id in prev.entries {
        var i :| 0 <= i < k - 1 && data[i].phoneJobId == Some(id) && prev.entries[id] == data[i].url &&
          forall j :: i < j < k - 1 ==> data[j].phoneJobId != Some(id);
        assert Truthy(data[i].phoneJobId);
        assert m.entries[id] == data[i].url;
      }
    }
  }

  /** One `set` of the `forEach`, when the job id is truthy. */
  lemma JobIdsStep(data: seq<ApolloEnrich.CompanyResult>, k: nat, prev: JsMap.JsMap<string>, m: JsMap.JsMap<string>)
    requires 0 < k <= |data| && prev == JobIdsUpTo(data, k - 1) && m == JobIdsUpTo(data, k)
    ensures Truthy(data[k - 1].phoneJobId) ==> m.entries == prev.entries[data[k - 1].phoneJobId.value := data[k - 1].url]
    ensures !Truthy(data[k - 1].phoneJobId) ==> m == prev
  {
  }

  // ---------------------------------------------------------------------
  // handleApolloEnrich as a whole

  datatype EnrichOutcome =
    | NothingToEnrich
    | EnrichError(message: string, sorted: seq<ExaResult>)
    | EnrichDone(sorted: seq<ExaResult>, merged: seq<ExaResult>, poll: Option<JsMap.JsMap<string>>)

  /**
   * `handleApolloEnrich`: sorts the results in place (the list shown is the
   * sorted one from then on), posts the top companies, merges the reply and
   * hands the jobs to poll, if any, to the polling loop.
   */
  method HandleApolloEnrich(results: Option<seq<ExaResult>>, apolloLimit: nat, includePhones: bool,
                            post: Types.EnrichRequest -> Call<seq<ApolloEnrich.CompanyResult>>)
    returns (outcome: EnrichOutcome)
    ensures (results.None? || results.value == []) <==> outcome == NothingToEnrich
    ensures outcome.EnrichError? || outcome.EnrichDone? ==> outcome.sorted == SortByScore(results.value)
    ensures outcome.EnrichError? ==> var req := Types.EnrichRequest(TopCompanies(SortByScore(results.value), apolloLimit), apolloLimit, Some(includePhones));
      post(req).Threw? && outcome.message == MessageOr(post(req).thrown, "Enrichment failed")
    ensures outcome.EnrichDone? ==> var req := Types.EnrichRequest(TopCompanies(SortByScore(results.value), apolloLimit), apolloLimit, Some(includePhones));
      post(req).Returned? && outcome.merged == Merge(outcome.sorted, post(req).value) &&
      (outcome.poll.Some? <==> includePhones && JobIdsUpTo(post(req).value, |post(req).value|).keys != []) &&
      (outcome.poll.Some? ==> outcome.poll.value == JobIdsUpTo(post(req).value, |post(req).value|))
  {
    if results.None? || |results.value| == 0 {
      return NothingToEnrich;
    }
    var sorted := SortByScore(results.value);
    var top := TopCompanies(sorted, apolloLimit);
    var reply := post(Types.EnrichRequest(top, apolloLimit, Some(includePhones)));
    if reply.Threw? {
      return EnrichError(MessageOr(reply.thrown, "Enrichment failed"), sorted);
    }
    var merged := Merge(sorted, reply.value);
    var poll: Option<JsMap.JsMap<string>> := None;
    if includePhones {
      var jobIds := JobIdsToPoll(reply.value);
      if |jobIds.keys| > 0 {
        poll := Some(jobIds);
      }
    }
    outcome := EnrichDone(sorted, merged, poll);
  }

  // ---------------------------------------------------------------------
  // pollPhoneEnrichment

  /** What one status request gave: it threw, or a body with a status and contacts. */
  datatype PollReply = PollThrew | PollStatus(status: Option<string>, contacts: seq<Types.Contact>)

  datatype PollOutcome = AllDone | TimedOut

  const MaxAttempts: nat := 30

  /** A job the pass removes: its status is `completed` or `failed`. */
  predicate Terminal(reply: PollReply) {
    reply.PollStatus? && (reply.status == Some("completed") || reply.status == Some("failed"))
  }

  /** `data.contacts.find((c) => c.name === name)`. */
  function FindByName(contacts: seq<Types.Contact>, name: string): (r: Option<Types.Contact>)
    ensures r.Some? ==> exists k :: (0 <= k < |contacts| && contacts[k] == r.value && r.value.name == name &&
      forall m :: 0 <= m < k ==> contacts[m].name != name)
    ensures r.None? ==> forall k :: 0 <= k < |contacts| ==> contacts[k].name != name
  {
    if contacts == [] then None
    else if contacts[0].name == name then Some(contacts[0])
    else
      var r := FindByName(contacts[1..], name);
      assert r.Some? ==> exists k :: (0 <= k < |contacts| && contacts[k] == r.value && r.value.name == name &&
        forall m :: 0 <= m < k ==> contacts[m].name != name) by {
        if r.Some? {
          var k :| 0 <= k < |contacts[1..]| && contacts[1..][k] == r.value && r.value.name == name &&
            forall m :: 0 <= m < k ==> contacts[1..][m].name != name;
          assert contacts[k + 1] == r.value;
          forall m | 0 <= m < k + 1 ensures contacts[m].name != name {
            if m > 0 {
              assert contacts[m] == contacts[1..][m - 1];
            }
          }
        }
      }
      r
  }

  /** A contact takes the phone of the first enriched contact with its name, when that phone is truthy. */
  function WithPhone(contact: Types.Contact, enriched: seq<Types.Contact>): (c: Types.Contact)
    ensures c == contact.(phone := c.phone)
    ensures var e := FindByName(enriched, contact.name);
      (e.Some? && Truthy(e.value.phone)) ==> c.phone == e.value.phone
    ensures var e := FindByName(enriched, contact.name);
      !(e.Some? && Truthy(e.value.phone)) ==> c == contact
  {
    var e := FindByName(enriched, contact.name);
    if e.Some? && Truthy(e.value.phone) then contact.(phone := e.value.phone) else contact
  }

  function WithPhones(contacts: seq<Types.Contact>, enriched: seq<Types.Contact>): (r: seq<Types.Contact>)
    ensures |r| == |contacts| && forall k :: 0 <= k < |contacts| ==> r[k] == WithPhone(contacts[k], enriched)
  {
    seq(|contacts|, k requires 0 <= k < |contacts| => WithPhone(contacts[k], enriched))
  }

  /** The state update of a completed job: only results with the job's url change, and only in phones. */
  function MergePhones(results: seq<ExaResult>, url: string, enriched: seq<Types.Contact>): (r: seq<ExaResult>)
    ensures |r| == |results|
    ensures forall i :: 0 <= i < |results| && results[i].url != url ==> r[i] == results[i]
    ensures forall i :: 0 <= i < |results| && results[i].url == url ==>
      r[i] == results[i].(apolloContacts := r[i].apolloContacts) &&
      (results[i].apolloContacts.None? ==> r[i].apolloContacts.None?) &&
      (results[i].apolloContacts.Some? ==>
        r[i].apolloContacts == Some(WithPhones(results[i].apolloContacts.value, enriched)))
  {
    seq(|results|, i requires 0 <= i < |results| =>
      if results[i].url != url then results[i]
      else if results[i].apolloContacts.None? then results[i]
      else results[i].(apolloContacts := Some(WithPhones(results[i].apolloContacts.value, enriched))))
  }

  /** The jobs a pass marks for removal after visiting its first `k` entries, in visiting order. */
  function PassDone(jobIds: JsMap.JsMap<string>, status: (nat, string) -> PollReply, pass: nat, k: nat): seq<string>
    requires jobIds.Valid() && k <= |jobIds.keys|
  {
    if k == 0 then []
    else
      var id := jobIds.keys[k - 1];
      PassDone(jobIds, status, pass, k - 1) + (if Terminal(status(pass, id)) then [id] else [])
  }

  /** The results after visiting the first `k` entries of a pass: completed jobs merge their phones. */
  function PassResults(jobIds: JsMap.JsMap<string>, results: seq<ExaResult>, status: (nat, string) -> PollReply,
                       pass: nat, k: nat): (r: seq<ExaResult>)
    requires jobIds.Valid() && k <= |jobIds.keys|
    ensures |r| == |results|
  {
    if k == 0 then results
    else
      var res := PassResults(jobIds, results, status, pass, k - 1);
      var id := jobIds.keys[k - 1];
      var reply := status(pass, id);
      if reply.PollStatus? && reply.status == Some("completed") then MergePhones(res, jobIds.entries[id], reply.contacts)
      else res
  }

  /** A pass removes exactly the jobs whose own reply was terminal; a throw elsewhere does not matter. */
  lemma {:induction false} PassRemovesTerminal(jobIds: JsMap.JsMap<string>, status: (nat, string) -> PollReply,
                                               pass: nat, k: nat, id: string)
    requires jobIds.Valid() && k <= |jobIds.keys|
    ensures id in PassDone(jobIds, status, pass, k) <==> id in jobIds.keys[..k] && Terminal(status(pass, id))
  {
    if k > 0 {
      PassRemovesTerminal(jobIds, status, pass, k - 1, id);
      assert jobIds.keys[..k] == jobIds.keys[..k - 1] + [jobIds.keys[k - 1]];
    }
  }

  /** One pass of `poll` over the entries of the map. */
  method PollPass(jobIds: JsMap.JsMap<string>, results: seq<ExaResult>, status: (nat, string) -> PollReply, pass: nat)
    returns (completed: seq<string>, after: seq<ExaResult>)
    requires jobIds.Valid()
    ensures completed == PassDone(jobIds, status, pass, |jobIds.keys|)
    ensures after == PassResults(jobIds, results, status, pass, |jobIds.keys|)
  {
    completed := [];
    after := results;
    var entries := jobIds.keys;
    for k := 0 to |entries|
      invariant completed == PassDone(jobIds, status, pass, k)
      invariant after == PassResults(jobIds, results, status, pass, k)
    {
      var jobId := entries[k];
      var url := jobIds.entries[jobId];
      var reply := status(pass, jobId);
      if reply.PollStatus? && reply.status == Some("completed") {
        completed := completed + [jobId];
        after := MergePhones(after, url, reply.contacts);
      } else if reply.PollStatus? && reply.status == Some("failed") {
        completed := completed + [jobId];
      }
    }
  }

  /** `completedJobs.forEach((jobId) => jobIds.delete(jobId))`. */
  function DeleteAll(m: JsMap.JsMap<string>, ids: seq<string>): (r: JsMap.JsMap<string>)
    requires m.Valid()
    ensures r.Valid()
    ensures forall id :: id in r.entries <==> id in m.entries && id !in ids
    ensures forall id :: id in r.entries ==> r.entries[id] == m.entries[id]
  {
    if ids == [] then m
    else
      var r := DeleteAll(m, ids[..|ids| - 1]).Delete(ids[|ids| - 1]);
      assert forall id :: id in ids <==> id in ids[..|ids| - 1] || id == ids[|ids| - 1] by {
        assert ids == ids[..|ids| - 1] + [ids[|ids| - 1]];
      }
      r
  }

  method DeleteCompleted(m: JsMap.JsMap<string>, ids: seq<string>) returns (r: JsMap.JsMap<string>)
    requires m.Valid()
    ensures r == DeleteAll(m, ids)
  {
    r := m;
    for k := 0 to |ids|
      invariant r == DeleteAll(m, ids[..k])
    {
      assert ids[..k + 1][..k] == ids[..k];
      r := r.Delete(ids[k]);
    }
    assert ids[..|ids|] == ids;
  }

  /** Polling from pass `attempts` on: the outcome, the results, the jobs left and the passes made. */
  function PollFrom(jobIds: JsMap.JsMap<string>, results: seq<ExaResult>, status: (nat, string) -> PollReply,
                    attempts: nat): (r: (PollOutcome, seq<ExaResult>, JsMap.JsMap<string>, nat))
    requires jobIds.Valid() && attempts < MaxAttempts
    ensures r.2.Valid()
    decreases MaxAttempts - attempts
  {
    var done := PassDone(jobIds, status, attempts, |jobIds.keys|);
    var res := PassResults(jobIds, results, status, attempts, |jobIds.keys|);
    var rest := DeleteAll(jobIds, done);
    if |rest.keys| == 0 then (AllDone, res, rest, attempts + 1)
    else if attempts + 1 >= MaxAttempts then (TimedOut, res, rest, attempts + 1)
    else PollFrom(rest, res, status, attempts + 1)
  }

  /** `pollPhoneEnrichment`: passes until no job is left or 30 passes were made; the 2-second wait is not modelled. */
  method PollPhoneEnrichment(jobIds0: JsMap.JsMap<string>, results0: seq<ExaResult>, status: (nat, string) -> PollReply)
    returns (outcome: PollOutcome, results: seq<ExaResult>, remaining: JsMap.JsMap<string>, attempts: nat)
    requires jobIds0.Valid()
    ensures (outcome, results, remaining, attempts) == PollFrom(jobIds0, results0, status, 0)
  {
    var jobIds := jobIds0;
    results := results0;
    attempts := 0;
    while true
      invariant jobIds.Valid() && attempts < MaxAttempts
      invariant PollFrom(jobIds0, results0, status, 0) == PollFrom(jobIds, results, status, attempts)
      decreases MaxAttempts - attempts
    {
      ghost var before := PollFrom(jobIds, results, status, attempts);
      var completed, after := PollPass(jobIds, results, status, attempts);
      attempts := attempts + 1;
      var rest := DeleteCompleted(jobIds, completed);
      if |rest.keys| == 0 {
        return AllDone, after, rest, attempts;
      } else if attempts >= MaxAttempts {
        return TimedOut, after, rest, attempts;
      }
      jobIds, results := rest, after;
    }
  }

  /** Polling ends with no job left, or with jobs left after exactly 30 passes. */
  lemma {:induction false} PollBounded(jobIds: JsMap.JsMap<string>, results: seq<ExaResult>,
                                       status: (nat, string) -> PollReply, attempts: nat)
    requires jobIds.Valid() && attempts < MaxAttempts
    ensures var (outcome, _, rest, passes) := PollFrom(jobIds, results, status, attempts);
      attempts < passes <= MaxAttempts &&
      (outcome == AllDone <==> rest.keys == []) &&
      (outcome == TimedOut ==> passes == MaxAttempts) &&
      (forall id :: id in rest.entries ==> id in jobIds.entries)
    decreases MaxAttempts - attempts
  {
    var done := PassDone(jobIds, status, attempts, |jobIds.keys|);
    var res := PassResults(jobIds, results, status, attempts, |jobIds.keys|);
    var rest := DeleteAll(jobIds, done);
    if |rest.keys| != 0 && attempts + 1 < MaxAttempts {
      PollBounded(rest, res, status, attempts + 1);
    }
  }

  /** A job whose status is pending, unknown or unreadable stays for the next pass. */
  lemma PassKeepsNonTerminal(jobIds: JsMap.JsMap<string>, status: (nat, string) -> PollReply, pass: nat, id: string)
    requires jobIds.Valid() && id in jobIds.entries
    ensures var done := PassDone(jobIds, status, pass, |jobIds.keys|);
      (id in DeleteAll(jobIds, done).entries <==> !Terminal(status(pass, id)))
  {
    PassRemovesTerminal(jobIds, status, pass, |jobIds.keys|, id);
    assert jobIds.keys[..|jobIds.keys|] == jobIds.keys;
  }
}

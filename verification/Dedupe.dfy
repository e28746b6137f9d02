/** Removing duplicate catalogue rows (core/catalog_dedupe.py): one greedy pass over several key
    indexes, and a second pass that explains what was dropped. */
module Dedupe {
  import opened Text

  /** One catalogue row with the keys derived from it; absent or empty keys are `None`. */
  datatype Row = Row(
    title: string,             // unique in the catalogue
    norm: Option<string>,      // normalized label
    url: Option<string>,       // normalized checkpoint URL
    nameMatches: bool,         // the local checkpoint name is the remote basename
    withdrawn: bool,           // a reviewed withdrawal of this URL
    rehost: Option<string>,    // reviewed upstream checkpoint name, case-folded
    name: Option<string>,      // checkpoint file name, case-folded
    content: Option<string>,   // content digest
    bag: Option<string>)       // full file-to-URL map of a Demucs bag
  {
    function Checkpoint(): Option<string> {
      if rehost.Some? then rehost else name
    }
  }

  predicate DistinctLabels(rows: seq<Row>) {
    forall i, j :: 0 <= i < j < |rows| ==> rows[i].title != rows[j].title
  }

  // ---- the quadratic specification -------------------------------------------

  predicate SameKey(a: Option<string>, b: Option<string>) {
    a.Some? && a == b
  }

  /** Both rows have one of the keys that make them duplicates. */
  predicate Conflict(bags: bool, a: Row, b: Row) {
    || SameKey(a.norm, b.norm)
    || (if bags then SameKey(a.bag, b.bag)
        else SameKey(a.Checkpoint(), b.Checkpoint()) || SameKey(a.url, b.url) || SameKey(a.content, b.content))
  }

  function At(rows: seq<Row>, url: string): (r: seq<Row>)
    ensures forall x :: x in r <==> x in rows && x.url == Some(url)
  {
    if rows == [] then []
    else
      var n := |rows| - 1;
      assert rows == rows[..n] + [rows[n]];
      At(rows[..n], url) + if rows[n].url == Some(url) then [rows[n]] else []
  }

  function Matching(rows: seq<Row>): (r: seq<Row>)
    ensures forall x :: x in r <==> x in rows && x.nameMatches
  {
    if rows == [] then []
    else
      var n := |rows| - 1;
      assert rows == rows[..n] + [rows[n]];
      Matching(rows[..n]) + if rows[n].nameMatches then [rows[n]] else []
  }

  /** The row to keep among several with one URL: the only one whose name matches it. */
  function Preferred(all: seq<Row>, url: string): Option<string> {
    var rows := At(all, url);
    if |rows| > 1 && |Matching(rows)| == 1 then Some(Matching(rows)[0].title) else None
  }

  predicate Eligible(bags: bool, all: seq<Row>, row: Row) {
    && !row.withdrawn
    && (bags || row.url.None? || Preferred(all, row.url.value).None?
        || Preferred(all, row.url.value) == Some(row.title))
  }

  predicate NoConflict(bags: bool, kept: seq<Row>, row: Row) {
    forall k :: k in kept ==> !Conflict(bags, k, row)
  }

  /** Keep each eligible row that conflicts with no row kept before it. */
  function Greedy(bags: bool, all: seq<Row>, rows: seq<Row>): (r: seq<Row>)
    ensures forall x :: x in r ==> x in rows
  {
    if rows == [] then []
    else
      var n := |rows| - 1;
      assert rows == rows[..n] + [rows[n]];
      var before := Greedy(bags, all, rows[..n]);
      if Eligible(bags, all, rows[n]) && NoConflict(bags, before, rows[n]) then before + [rows[n]] else before
  }

  function Result(bags: bool, rows: seq<Row>): seq<Row> {
    Greedy(bags, rows, rows)
  }

  // ---- what the specification means ------------------------------------------

  lemma {:induction false} GreedyPrefix(bags: bool, all: seq<Row>, rows: seq<Row>, i: nat)
    requires i <= |rows|
    ensures Greedy(bags, all, rows[..i]) <= Greedy(bags, all, rows)
  {
    if i == |rows| {
      assert rows[..i] == rows;
    } else {
      var n := |rows| - 1;
      GreedyPrefix(bags, all, rows[..n], i);
      assert rows[..n][..i] == rows[..i];
    }
  }

  lemma {:induction false} GreedyDecides(bags: bool, all: seq<Row>, rows: seq<Row>, i: nat)
    requires DistinctLabels(rows) && i < |rows|
    ensures rows[i] in Greedy(bags, all, rows) <==>
              Eligible(bags, all, rows[i]) && NoConflict(bags, Greedy(bags, all, rows[..i]), rows[i])
    ensures rows[i] in Greedy(bags, all, rows) <==> rows[i] in Greedy(bags, all, rows[..i + 1])
  {
    hide Eligible, Conflict;
    var n := |rows| - 1;
    if i < n {
      GreedyDecides(bags, all, rows[..n], i);
      assert rows[..n][..i] == rows[..i] && rows[..n][..i + 1] == rows[..i + 1];
    } else {
      assert rows[..n + 1] == rows;
      assert forall x :: x in rows[..n] ==> x.title != rows[n].title;
    }
  }

  lemma GreedyEarlier(bags: bool, all: seq<Row>, rows: seq<Row>, i: nat, j: nat)
    requires DistinctLabels(rows) && j < i < |rows|
    ensures rows[j] in Greedy(bags, all, rows[..i]) <==> rows[j] in Greedy(bags, all, rows)
  {
    assert rows[..i][..j + 1] == rows[..j + 1];
    GreedyDecides(bags, all, rows, j);
    GreedyDecides(bags, all, rows[..i], j);
  }

  /** A row is kept exactly when it is eligible and shares no key with an earlier kept row. */
  lemma KeptIff(bags: bool, rows: seq<Row>, i: nat)
    requires DistinctLabels(rows) && i < |rows|
    ensures rows[i] in Result(bags, rows) <==>
              Eligible(bags, rows, rows[i]) &&
              forall j :: 0 <= j < i && rows[j] in Result(bags, rows) ==> !Conflict(bags, rows[j], rows[i])
  {
    hide Eligible, Conflict;
    var before := Greedy(bags, rows, rows[..i]);
    GreedyDecides(bags, rows, rows, i);
    forall j | 0 <= j < i ensures rows[j] in before <==> rows[j] in Result(bags, rows) {
      GreedyEarlier(bags, rows, rows, i, j);
    }
    forall x | x in before ensures exists j :: 0 <= j < i && rows[j] == x {
      assert x in rows[..i];
    }
  }

  /** No two kept rows share a key, and they stand in catalogue order. */
  lemma {:induction false} KeptApart(bags: bool, all: seq<Row>, rows: seq<Row>)
    ensures var r := Greedy(bags, all, rows);
            && |r| <= |rows|
            && (forall i, j :: 0 <= i < j < |r| ==> !Conflict(bags, r[i], r[j]))
            && (forall k :: 0 <= k < |r| ==> Eligible(bags, all, r[k]))
            && (DistinctLabels(rows) ==> DistinctLabels(r))
  {
    hide Eligible, Conflict;
    if rows != [] {
      var n := |rows| - 1;
      KeptApart(bags, all, rows[..n]);
      assert DistinctLabels(rows) ==> forall x :: x in rows[..n] ==> x.title != rows[n].title;
    }
  }

  /** With no conflicts and everybody eligible, nothing is dropped. */
  lemma {:induction false} GreedyKeepsAll(bags: bool, all: seq<Row>, rows: seq<Row>)
    requires forall i, j :: 0 <= i < j < |rows| ==> !Conflict(bags, rows[i], rows[j])
    requires forall k :: 0 <= k < |rows| ==> Eligible(bags, all, rows[k])
    ensures Greedy(bags, all, rows) == rows
  {
    hide Eligible, Conflict;
    if rows != [] {
      var n := |rows| - 1;
      GreedyKeepsAll(bags, all, rows[..n]);
      assert rows == rows[..n] + [rows[n]];
      forall x | x in rows[..n] ensures !Conflict(bags, x, rows[n]) {
        var k :| 0 <= k < n && rows[k] == x;
      }
    }
  }

  lemma {:induction false} NoneAt(rows: seq<Row>, url: string)
    requires forall x :: x in rows ==> x.url != Some(url)
    ensures At(rows, url) == []
  {
    if rows != [] {
      NoneAt(rows[..|rows| - 1], url);
    }
  }

  lemma {:induction false} AtMostOneAt(rows: seq<Row>, url: string)
    requires forall i, j :: 0 <= i < j < |rows| ==> !SameKey(rows[i].url, rows[j].url)
    ensures |At(rows, url)| <= 1
  {
    if rows != [] {
      var n := |rows| - 1;
      AtMostOneAt(rows[..n], url);
      if rows[n].url == Some(url) {
        assert forall x :: x in rows[..n] ==> x.url != Some(url);
        NoneAt(rows[..n], url);
      }
    }
  }

  /** Deduplicating twice changes nothing. */
  lemma Idempotent(bags: bool, rows: seq<Row>)
    ensures Result(bags, Result(bags, rows)) == Result(bags, rows)
  {
    var r := Result(bags, rows);
    KeptApart(bags, rows, rows);
    forall k | 0 <= k < |r| ensures Eligible(bags, r, r[k]) {
      if !bags && r[k].url.Some? {
        forall i, j | 0 <= i < j < |r| ensures !SameKey(r[i].url, r[j].url) {
          assert !Conflict(bags, r[i], r[j]);
        }
        AtMostOneAt(r, r[k].url.value);
      }
    }
    GreedyKeepsAll(bags, r, r);
  }

  // ---- the rules in plain terms ----------------------------------------------

  /** The checkpoint name a row goes by: the reviewed upstream one, else its own. */
  ghost predicate GoesBy(row: Row, name: string) {
    row.rehost == Some(name) || (row.rehost.None? && row.name == Some(name))
  }

  ghost predicate Shares(bags: bool, a: Row, b: Row) {
    || (a.norm.Some? && a.norm == b.norm)
    || (bags && a.bag.Some? && a.bag == b.bag)
    || (!bags && ((exists n :: GoesBy(a, n) && GoesBy(b, n)) || (a.url.Some? && a.url == b.url)
                  || (a.content.Some? && a.content == b.content)))
  }

  lemma ConflictIffShares(bags: bool, a: Row, b: Row)
    ensures Conflict(bags, a, b) <==> Shares(bags, a, b)
  {
    if a.Checkpoint().Some? && a.Checkpoint() == b.Checkpoint() {
      assert GoesBy(a, a.Checkpoint().value) && GoesBy(b, a.Checkpoint().value);
    }
    if n :| GoesBy(a, n) && GoesBy(b, n) {
      assert a.Checkpoint() == Some(n) == b.Checkpoint();
    }
  }

  ghost predicate Named(rows: seq<Row>, i: nat, url: string) {
    i < |rows| && rows[i].url == Some(url) && rows[i].nameMatches
  }

  ghost predicate OnlyNamed(rows: seq<Row>, i: nat, url: string) {
    forall j: nat :: j != i ==> !Named(rows, j, url)
  }

  /** Of several rows with one URL, row `i` alone has the name of the remote file. */
  ghost predicate SoleMatch(rows: seq<Row>, i: nat, url: string) {
    && Named(rows, i, url)
    && (exists j :: 0 <= j < |rows| && j != i && rows[j].url == Some(url))
    && OnlyNamed(rows, i, url)
  }

  lemma {:induction false} AtSize(rows: seq<Row>, url: string, i: nat)
    requires i < |rows| && rows[i].url == Some(url)
    ensures |At(rows, url)| >= 1
    ensures |At(rows, url)| == 1 <==> forall j :: 0 <= j < |rows| && j != i ==> rows[j].url != Some(url)
    decreases |rows|
  {
    hide At;
    var n := |rows| - 1;
    var front := rows[..n];
    assert rows == front + [rows[n]];
    AtAppend(front, rows[n], url);
    if i < n {
      AtSize(front, url, i);
    } else if j :| 0 <= j < n && rows[j].url == Some(url) {
      AtSize(front, url, j);
    } else {
      NoneAt(front, url);
    }
  }

  function NamedAt(rows: seq<Row>, url: string): seq<Row> {
    Matching(At(rows, url))
  }

  lemma NamedAtLast(rows: seq<Row>, url: string)
    requires rows != []
    ensures var n := |rows| - 1;
            NamedAt(rows, url) == NamedAt(rows[..n], url) + if Named(rows, n, url) then [rows[n]] else []
  {
    var n := |rows| - 1;
    var before := At(rows[..n], url);
    assert (before + [rows[n]])[..|before|] == before;
    assert NamedAt(rows[..n], url) + [] == NamedAt(rows[..n], url) && before + [] == before;
  }

  lemma {:induction false} NoneNamed(rows: seq<Row>, url: string)
    requires forall j: nat :: !Named(rows, j, url)
    ensures NamedAt(rows, url) == []
  {
    hide NamedAt, Named;
    if rows == [] {
      NothingNamed(url);
    } else {
      var front := rows[..|rows| - 1];
      NamedAtLast(rows, url);
      NamedInFront(rows, front, url);
      NoneNamed(front, url);
    }
  }

  lemma NothingNamed(url: string)
    ensures NamedAt([], url) == []
  {
  }

  lemma NamedInFront(rows: seq<Row>, front: seq<Row>, url: string)
    requires rows != [] && front == rows[..|rows| - 1]
    ensures forall j: nat :: Named(front, j, url) <==> j < |front| && Named(rows, j, url)
  {
  }

  lemma OnlyInFront(rows: seq<Row>, front: seq<Row>, url: string, i: nat)
    requires rows != [] && front == rows[..|rows| - 1] && i < |rows|
    ensures OnlyNamed(rows, i, url) <==>
              if i < |front| then OnlyNamed(front, i, url) && !Named(rows, |front|, url)
              else forall j: nat :: !Named(front, j, url)
  {
    NamedInFront(rows, front, url);
    assert forall j: nat :: Named(rows, j, url) ==> j <= |front|;
    hide Named;
  }

  lemma {:induction false} NamedSize(rows: seq<Row>, url: string, i: nat)
    requires Named(rows, i, url)
    ensures |NamedAt(rows, url)| >= 1
    ensures |NamedAt(rows, url)| == 1 <==> OnlyNamed(rows, i, url)
    ensures |NamedAt(rows, url)| == 1 ==> NamedAt(rows, url)[0] == rows[i]
    decreases |rows|
  {
    assert i < |rows|;
    hide NamedAt, Named, OnlyNamed;
    var n := |rows| - 1;
    var front := rows[..n];
    NamedAtLast(rows, url);
    OnlyInFront(rows, front, url, i);
    if i < n {
      NamedInFront(rows, front, url);
      NamedSize(front, url, i);
    } else if j: nat :| Named(front, j, url) {
      NamedSize(front, url, j);
    } else {
      NoneNamed(front, url);
    }
  }

  /** The preferred label of a URL is that of its sole match. */
  lemma PreferredIffSole(rows: seq<Row>, url: string, title: string)
    ensures Preferred(rows, url) == Some(title) <==>
              exists i: nat :: SoleMatch(rows, i, url) && rows[i].title == title
  {
    hide At, Matching;
    if i: nat :| SoleMatch(rows, i, url) && rows[i].title == title {
      AtSize(rows, url, i);
      NamedSize(rows, url, i);
      assert NamedAt(rows, url) == Matching(At(rows, url));
    }
    if Preferred(rows, url) == Some(title) {
      assert |NamedAt(rows, url)| == 1;
      assert exists i: nat :: Named(rows, i, url) by {
        if forall j: nat :: !Named(rows, j, url) {
          NoneNamed(rows, url);
        }
      }
      var i: nat :| Named(rows, i, url);
      AtSize(rows, url, i);
      NamedSize(rows, url, i);
      assert SoleMatch(rows, i, url);
    }
  }

  /** Which rows are kept, without reference to how it is decided: not withdrawn, not standing back
      for the sole match of their URL, and sharing no key with an earlier kept row. */
  lemma KeptMeans(bags: bool, rows: seq<Row>, i: nat)
    requires DistinctLabels(rows) && i < |rows|
    ensures rows[i] in Result(bags, rows) <==>
              && !rows[i].withdrawn
              && (bags || rows[i].url.None? || forall s: nat :: SoleMatch(rows, s, rows[i].url.value) ==> s == i)
              && forall j :: 0 <= j < i && rows[j] in Result(bags, rows) ==> !Shares(bags, rows[j], rows[i])
  {
    hide Preferred, Conflict, Result, Shares, SoleMatch;
    KeptIff(bags, rows, i);
    forall j | 0 <= j < i ensures Conflict(bags, rows[j], rows[i]) <==> Shares(bags, rows[j], rows[i]) {
      ConflictIffShares(bags, rows[j], rows[i]);
    }
    if rows[i].url.Some? {
      StandsBack(rows, i, rows[i].url.value);
    }
  }

  lemma StandsBack(rows: seq<Row>, i: nat, url: string)
    requires DistinctLabels(rows) && i < |rows|
    ensures Preferred(rows, url).None? || Preferred(rows, url) == Some(rows[i].title) <==>
              forall s: nat :: SoleMatch(rows, s, url) ==> s == i
  {
    hide Preferred;
    forall title ensures Preferred(rows, url) == Some(title) <==>
                           exists s: nat :: SoleMatch(rows, s, url) && rows[s].title == title {
      PreferredIffSole(rows, url, title);
    }
    forall s: nat | SoleMatch(rows, s, url) ensures Preferred(rows, url) == Some(rows[s].title) {
      assert rows[s].title == rows[s].title;
    }
  }

  // ---- explaining dropped rows -----------------------------------------------

  datatype Evidence = Sha256 | RehostOf | SameUrl | SameCheckpoint

  datatype Duplicate = Duplicate(kept: string, evidence: Evidence)

  /** The key a dropped row puts forward as evidence. */
  function KeyOf(row: Row, e: Evidence): Option<string> {
    match e
    case Sha256 => row.content
    case RehostOf => row.rehost
    case SameUrl => row.url
    case SameCheckpoint => if row.rehost.None? then row.name else None
  }

  /** The key a kept row claims for it. */
  function Claim(row: Row, e: Evidence): Option<string> {
    match e
    case Sha256 => row.content
    case SameUrl => row.url
    case _ => row.Checkpoint()
  }

  ghost predicate Owns(kept: seq<Row>, title: string, row: Row, e: Evidence) {
    exists k :: k in kept && k.title == title && SameKey(KeyOf(row, e), Claim(k, e))
  }

  /** A dropped row is explained by the one kept row that owns all its exact keys, with the
      strongest evidence there is. */
  ghost predicate Explains(kept: seq<Row>, row: Row, d: Duplicate) {
    && Owns(kept, d.kept, row, d.evidence)
    && (forall e, t :: Owns(kept, t, row, e) ==> t == d.kept)
    && (forall e, t :: Owns(kept, t, row, e) ==> Rank(d.evidence) <= Rank(e))
  }

  function Rank(e: Evidence): nat {
    match e
    case Sha256 => 0
    case RehostOf => 1
    case SameUrl => 2
    case SameCheckpoint => 3
  }

  /** What kept row `k` shows for dropping `row`: the same content, a reviewed re-host of it, the same
      URL, or the same checkpoint name of a row without a reviewed upstream. */
  ghost predicate Shows(k: Row, row: Row, e: Evidence) {
    match e
    case Sha256 => row.content.Some? && k.content == row.content
    case RehostOf => row.rehost.Some? && GoesBy(k, row.rehost.value)
    case SameUrl => row.url.Some? && k.url == row.url
    case SameCheckpoint => row.rehost.None? && row.name.Some? && GoesBy(k, row.name.value)
  }

  ghost predicate Stronger(a: Evidence, b: Evidence) {
    || (a.Sha256? && !b.Sha256?)
    || (a.RehostOf? && (b.SameUrl? || b.SameCheckpoint?))
    || (a.SameUrl? && b.SameCheckpoint?)
  }

  /** Every kept row with any evidence carries the recorded label, and none has stronger evidence. */
  ghost predicate ExplainedBy(kept: seq<Row>, row: Row, d: Duplicate) {
    && (exists k :: k in kept && k.title == d.kept && Shows(k, row, d.evidence))
    && (forall k, e :: k in kept && Shows(k, row, e) ==> k.title == d.kept && !Stronger(e, d.evidence))
  }

  lemma OwnsIffShows(kept: seq<Row>, title: string, row: Row, e: Evidence)
    ensures Owns(kept, title, row, e) <==> exists k :: k in kept && k.title == title && Shows(k, row, e)
  {
    forall k: Row ensures SameKey(KeyOf(row, e), Claim(k, e)) <==> Shows(k, row, e) {
    }
  }

  lemma ExplainsIff(kept: seq<Row>, row: Row, d: Duplicate)
    ensures Explains(kept, row, d) <==> ExplainedBy(kept, row, d)
  {
    hide Owns, Shows;
    forall title, e
      ensures Owns(kept, title, row, e) <==> exists k :: k in kept && k.title == title && Shows(k, row, e)
    {
      OwnsIffShows(kept, title, row, e);
    }
    forall k, e | k in kept && Shows(k, row, e) ensures Owns(kept, k.title, row, e) {
      assert k.title == k.title;
    }
    forall a, b ensures Stronger(a, b) <==> Rank(a) < Rank(b) {
    }
  }

  /** A dictionary from the keys the kept rows claim to their labels. */
  ghost predicate Indexes(seen: map<string, string>, kept: seq<Row>, e: Evidence) {
    && (forall k :: k in kept && Claim(k, e).Some? ==>
          Claim(k, e).value in seen && seen[Claim(k, e).value] == k.title)
    && (forall key :: key in seen ==> exists k :: k in kept && Claim(k, e) == Some(key))
  }

  function Lookup(seen: map<string, string>, key: Option<string>): Option<string> {
    if key.Some? && key.value in seen then Some(seen[key.value]) else None
  }

  lemma LookupOwns(seen: map<string, string>, kept: seq<Row>, row: Row, e: Evidence)
    requires Indexes(seen, kept, if e.SameCheckpoint? then RehostOf else e)
    ensures forall t :: Lookup(seen, KeyOf(row, e)) == Some(t) <==> Owns(kept, t, row, e)
  {
    var c := if e.SameCheckpoint? then RehostOf else e;
    assert forall k: Row :: Claim(k, c) == Claim(k, e);
    var owner := Lookup(seen, KeyOf(row, e));
    if owner.Some? {
      var k :| k in kept && Claim(k, c) == KeyOf(row, e);
      assert Owns(kept, owner.value, row, e);
    }
  }

  /** The first `Some`, unless two of them differ. */
  function Agreed(sha: Option<string>, rehost: Option<string>, url: Option<string>, name: Option<string>)
    : (r: Option<Duplicate>)
  {
    var first :=
      if sha.Some? then Some(Duplicate(sha.value, Sha256))
      else if rehost.Some? then Some(Duplicate(rehost.value, RehostOf))
      else if url.Some? then Some(Duplicate(url.value, SameUrl))
      else if name.Some? then Some(Duplicate(name.value, SameCheckpoint))
      else None;
    if first.Some? && Same(sha, first.value) && Same(rehost, first.value) && Same(url, first.value)
       && Same(name, first.value)
    then first else None
  }

  predicate Same(owner: Option<string>, d: Duplicate) {
    owner.Some? ==> owner.value == d.kept
  }

  /** What the dictionaries answer for one kind of evidence. */
  function Answer(row: Row, e: Evidence, sha: map<string, string>, ckpts: map<string, string>,
                  urls: map<string, string>): Option<string>
  {
    match e
    case Sha256 => Lookup(sha, KeyOf(row, e))
    case SameUrl => Lookup(urls, KeyOf(row, e))
    case _ => Lookup(ckpts, KeyOf(row, e))
  }

  function Explanation(row: Row, sha: map<string, string>, ckpts: map<string, string>, urls: map<string, string>)
    : Option<Duplicate>
  {
    Agreed(Answer(row, Sha256, sha, ckpts, urls), Answer(row, RehostOf, sha, ckpts, urls),
           Answer(row, SameUrl, sha, ckpts, urls), Answer(row, SameCheckpoint, sha, ckpts, urls))
  }

  lemma ExplanationExplains(kept: seq<Row>, row: Row, sha: map<string, string>, ckpts: map<string, string>,
                            urls: map<string, string>)
    requires Indexes(sha, kept, Sha256) && Indexes(ckpts, kept, RehostOf) && Indexes(urls, kept, SameUrl)
    ensures forall d :: Explanation(row, sha, ckpts, urls) == Some(d) <==> Explains(kept, row, d)
  {
    hide Indexes, Owns, KeyOf, Claim, Lookup;
    forall e, t ensures Answer(row, e, sha, ckpts, urls) == Some(t) <==> Owns(kept, t, row, e) {
      LookupOwns(match e case Sha256 => sha case SameUrl => urls case _ => ckpts, kept, row, e);
    }
    forall d | Explanation(row, sha, ckpts, urls) == Some(d) ensures Explains(kept, row, d) {
      assert Answer(row, d.evidence, sha, ckpts, urls) == Some(d.kept);
      forall e, t | Owns(kept, t, row, e) ensures t == d.kept && Rank(d.evidence) <= Rank(e) {
        assert Answer(row, e, sha, ckpts, urls) == Some(t);
      }
    }
    forall d | Explains(kept, row, d) ensures Explanation(row, sha, ckpts, urls) == Some(d) {
      assert Answer(row, d.evidence, sha, ckpts, urls) == Some(d.kept);
      forall e | Answer(row, e, sha, ckpts, urls).Some?
        ensures Answer(row, e, sha, ckpts, urls).value == d.kept && Rank(d.evidence) <= Rank(e)
      {
        assert Owns(kept, Answer(row, e, sha, ckpts, urls).value, row, e);
      }
    }
  }

  // ---- the program -----------------------------------------------------------

  function GroupAt(groups: map<string, seq<Row>>, url: string): seq<Row> {
    if url in groups then groups[url] else []
  }

  ghost predicate Groups(groups: map<string, seq<Row>>, rows: seq<Row>) {
    forall u :: At(rows, u) == GroupAt(groups, u)
  }

  lemma GroupsGrow(groups: map<string, seq<Row>>, rows: seq<Row>, row: Row)
    requires Groups(groups, rows)
    ensures Groups(if row.url.Some? then groups[row.url.value := GroupAt(groups, row.url.value) + [row]] else groups,
                   rows + [row])
  {
    var next := if row.url.Some? then groups[row.url.value := GroupAt(groups, row.url.value) + [row]] else groups;
    forall u ensures At(rows + [row], u) == GroupAt(next, u) {
      AtAppend(rows, row, u);
    }
  }

  lemma AtAppend(rows: seq<Row>, row: Row, url: string)
    ensures At(rows + [row], url) == if row.url == Some(url) then At(rows, url) + [row] else At(rows, url)
  {
    assert (rows + [row])[..|rows|] == rows;
  }

  /** Group the rows by URL and pick the preferred label of each group. */
  method PreferredLabels(rows: seq<Row>) returns (preferred: map<string, string>)
    ensures forall u :: Preferred(rows, u) == if u in preferred then Some(preferred[u]) else None
  {
    hide At, Matching;
    var groups: map<string, seq<Row>> := map[];
    NoGroups(rows);
    for i := 0 to |rows|
      invariant Groups(groups, rows[..i])
    {
      hide Groups;
      GroupsGrow(groups, rows[..i], rows[i]);
      assert rows[..i + 1] == rows[..i] + [rows[i]];
      if rows[i].url.Some? {
        var u := rows[i].url.value;
        groups := groups[u := GroupAt(groups, u) + [rows[i]]];
      }
    }
    assert rows[..|rows|] == rows;
    preferred := map u | u in groups && |groups[u]| > 1 && |Matching(groups[u])| == 1 :: Matching(groups[u])[0].title;
  }

  lemma NoGroups(rows: seq<Row>)
    ensures Groups(map[], rows[..0])
  {
  }

  predicate Claims(seen: map<string, string>, key: Option<string>) {
    key.Some? && key.value in seen
  }

  function Claiming(seen: map<string, string>, key: Option<string>, title: string): map<string, string> {
    if key.Some? then seen[key.value := title] else seen
  }

  lemma ClaimIndexes(seen: map<string, string>, kept: seq<Row>, row: Row, e: Evidence)
    requires Indexes(seen, kept, e) && forall k :: k in kept ==> !SameKey(Claim(k, e), Claim(row, e))
    ensures Indexes(Claiming(seen, Claim(row, e), row.title), kept + [row], e)
  {
    var all := kept + [row];
    assert forall k :: k in all <==> k in kept || k == row;
    forall key | key in Claiming(seen, Claim(row, e), row.title) ensures exists k :: k in all && Claim(k, e) == Some(key) {
      if key in seen {
        var k :| k in kept && Claim(k, e) == Some(key);
        assert k in all;
      } else {
        assert row in all;
      }
    }
  }

  lemma ClaimedIff(seen: map<string, string>, kept: seq<Row>, row: Row, e: Evidence)
    requires Indexes(seen, kept, e)
    ensures Claims(seen, Claim(row, e)) <==> exists k :: k in kept && SameKey(Claim(k, e), Claim(row, e))
  {
    if Claims(seen, Claim(row, e)) {
      var k :| k in kept && Claim(k, e) == Claim(row, e);
      assert SameKey(Claim(k, e), Claim(row, e));
    }
  }

  lemma KeysApart(kept: seq<Row>, row: Row)
    requires NoConflict(false, kept, row)
    ensures forall k :: k in kept ==>
      !SameKey(Claim(k, RehostOf), Claim(row, RehostOf)) && !SameKey(Claim(k, SameUrl), Claim(row, SameUrl))
      && !SameKey(Claim(k, Sha256), Claim(row, Sha256))
    ensures Claim(row, RehostOf) == row.Checkpoint() && Claim(row, SameUrl) == row.url && Claim(row, Sha256) == row.content
  {
  }

  ghost predicate NormsOf(labels: set<string>, kept: seq<Row>) {
    forall n :: n in labels <==> exists k :: k in kept && k.norm == Some(n)
  }

  ghost predicate BagsOf(bags: set<string>, kept: seq<Row>) {
    forall b :: b in bags <==> exists k :: k in kept && k.bag == Some(b)
  }

  lemma SetsGrow(labels: set<string>, bags: set<string>, kept: seq<Row>, row: Row)
    ensures NormsOf(labels, kept) ==>
      NormsOf(labels + if row.norm.Some? then {row.norm.value} else {}, kept + [row])
    ensures BagsOf(bags, kept) ==>
      BagsOf(bags + if row.bag.Some? then {row.bag.value} else {}, kept + [row])
  {
    assert row in kept + [row] && forall k :: k in kept + [row] <==> k in kept || k == row;
  }

  /** The keys claimed so far. */
  class Seen {
    var ckpts: map<string, string>
    var urls: map<string, string>
    var content: map<string, string>
    var labels: set<string>
    var bags: set<string>

    constructor ()
      ensures Valid(true, []) && Valid(false, [])
    {
      ckpts, urls, content, labels, bags := map[], map[], map[], {}, {};
    }

    ghost predicate Valid(bagMode: bool, kept: seq<Row>)
      reads this
    {
      && NormsOf(labels, kept)
      && (if bagMode then BagsOf(bags, kept)
          else Indexes(ckpts, kept, RehostOf) && Indexes(urls, kept, SameUrl) && Indexes(content, kept, Sha256))
    }

    /** Whether a kept row shares a key with `row`. */
    method Collides(bagMode: bool, row: Row, ghost kept: seq<Row>) returns (hit: bool)
      requires Valid(bagMode, kept)
      ensures hit <==> !NoConflict(bagMode, kept, row)
    {
      hide Indexes;
      if row.norm.Some? && row.norm.value in labels {
        return true;
      }
      if bagMode {
        return row.bag.Some? && row.bag.value in bags;
      }
      ClaimedIff(ckpts, kept, row, RehostOf);
      ClaimedIff(urls, kept, row, SameUrl);
      ClaimedIff(content, kept, row, Sha256);
      hit := Claims(ckpts, row.Checkpoint()) || Claims(urls, row.url) || Claims(content, row.content);
    }

    /** Claim the keys of a kept row. */
    method ClaimAll(bagMode: bool, row: Row, ghost kept: seq<Row>)
      requires Valid(bagMode, kept) && NoConflict(bagMode, kept, row)
      modifies this
      ensures Valid(bagMode, kept + [row])
    {
      hide Indexes, Claim, NormsOf, BagsOf, Conflict;
      SetsGrow(labels, bags, kept, row);
      labels := labels + if row.norm.Some? then {row.norm.value} else {};
      if bagMode {
        bags := bags + if row.bag.Some? then {row.bag.value} else {};
      } else {
        KeysApart(kept, row);
        ClaimIndexes(ckpts, kept, row, RehostOf);
        ClaimIndexes(urls, kept, row, SameUrl);
        ClaimIndexes(content, kept, row, Sha256);
        ckpts, urls, content := Claiming(ckpts, row.Checkpoint(), row.title), Claiming(urls, row.url, row.title),
                                Claiming(content, row.content, row.title);
      }
    }
  }

  /** `_dedupe`, first pass. */
  method KeepRows(bags: bool, rows: seq<Row>) returns (kept: seq<Row>, seen: Seen)
    ensures kept == Result(bags, rows) && seen.Valid(bags, kept) && fresh(seen)
  {
    hide Conflict, Preferred, Indexes;
    var preferred := PreferredLabels(rows);
    seen := new Seen();
    kept := [];
    for i := 0 to |rows|
      invariant kept == Greedy(bags, rows, rows[..i]) && seen.Valid(bags, kept) && fresh(seen)
    {
      var row := rows[i];
      assert rows[..i + 1][..i] == rows[..i];
      if !row.withdrawn
         && (bags || row.url.None? || row.url.value !in preferred || preferred[row.url.value] == row.title) {
        assert Eligible(bags, rows, row);
        var hit := seen.Collides(bags, row, kept);
        if !hit {
          seen.ClaimAll(bags, row, kept);
          kept := kept + [row];
        }
      } else {
        assert !Eligible(bags, rows, row);
      }
    }
    assert rows[..|rows|] == rows;
  }

  function Verdict(kept: seq<Row>, row: Row, sha: map<string, string>, ckpts: map<string, string>,
                   urls: map<string, string>): Option<Duplicate>
  {
    if row in kept || row.withdrawn then None else Explanation(row, sha, ckpts, urls)
  }

  ghost predicate Records(duplicates: map<string, Duplicate>, kept: seq<Row>, rows: seq<Row>, sha: map<string, string>,
                          ckpts: map<string, string>, urls: map<string, string>)
  {
    && (forall t :: t in duplicates ==> exists r :: r in rows && r.title == t)
    && (forall r :: r in rows ==>
          Verdict(kept, r, sha, ckpts, urls) == if r.title in duplicates then Some(duplicates[r.title]) else None)
  }

  lemma RecordsNext(duplicates: map<string, Duplicate>, kept: seq<Row>, rows: seq<Row>, row: Row,
                    sha: map<string, string>, ckpts: map<string, string>, urls: map<string, string>)
    requires Records(duplicates, kept, rows, sha, ckpts, urls) && forall r :: r in rows ==> r.title != row.title
    ensures var v := Verdict(kept, row, sha, ckpts, urls);
            Records(if v.Some? then duplicates[row.title := v.value] else duplicates, kept, rows + [row], sha, ckpts, urls)
  {
    hide Verdict;
    assert forall r :: r in rows + [row] <==> r in rows || r == row;
    assert forall r :: r in rows ==> r in rows + [row];
  }

  /** The second pass of `_dedupe`. */
  method ExplainDropped(rows: seq<Row>, kept: seq<Row>, sha: map<string, string>, ckpts: map<string, string>,
                        urls: map<string, string>) returns (duplicates: map<string, Duplicate>)
    requires DistinctLabels(rows)
    ensures Records(duplicates, kept, rows, sha, ckpts, urls)
  {
    hide Explanation, Records;
    duplicates := map[];
    NothingRecorded(kept, rows, sha, ckpts, urls);
    for i := 0 to |rows|
      invariant Records(duplicates, kept, rows[..i], sha, ckpts, urls)
    {
      var row := rows[i];
      assert forall r :: r in rows[..i] ==> r.title != row.title;
      assert rows[..i + 1] == rows[..i] + [row];
      RecordsNext(duplicates, kept, rows[..i], row, sha, ckpts, urls);
      if row !in kept && !row.withdrawn {
        var found := Explanation(row, sha, ckpts, urls);
        if found.Some? {
          duplicates := duplicates[row.title := found.value];
        }
      }
    }
    assert rows[..|rows|] == rows;
  }

  lemma NothingRecorded(kept: seq<Row>, rows: seq<Row>, sha: map<string, string>, ckpts: map<string, string>,
                        urls: map<string, string>)
    ensures Records(map[], kept, rows[..0], sha, ckpts, urls)
  {
  }

  /** `find_catalogue_duplicates`: the kept rows, and why each other row was dropped. */
  method FindDuplicates(rows: seq<Row>) returns (kept: seq<Row>, duplicates: map<string, Duplicate>)
    requires DistinctLabels(rows)
    ensures kept == Result(false, rows)
    ensures forall row, d :: row in rows ==>
      (row.title in duplicates && duplicates[row.title] == d <==>
       row !in kept && !row.withdrawn && Explains(kept, row, d))
    ensures forall row, d :: row in rows ==>
      (row.title in duplicates && duplicates[row.title] == d <==>
       row !in kept && !row.withdrawn && ExplainedBy(kept, row, d))
  {
    hide Explains, Explanation, Result, Indexes, ExplainedBy;
    var seen;
    kept, seen := KeepRows(false, rows);
    var sha, ckpts, urls := seen.content, seen.ckpts, seen.urls;
    duplicates := ExplainDropped(rows, kept, sha, ckpts, urls);
    forall row | row in rows ensures forall d :: Explanation(row, sha, ckpts, urls) == Some(d) <==> Explains(kept, row, d) {
      ExplanationExplains(kept, row, sha, ckpts, urls);
    }
    forall row, d ensures Explains(kept, row, d) <==> ExplainedBy(kept, row, d) {
      ExplainsIff(kept, row, d);
    }
  }
}

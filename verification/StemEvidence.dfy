/** The cache of validated stem evidence (core/catalogue_stem_cache.py): what every outcome of a
    fetch does to an entry, what callers see of it, and what a write and reload preserves. */
module StemEvidence {
  import opened Text

  datatype Failure = Failure(kind: string, message: string, at: real)

  /** A stored record. `ok` only occurs in records of the older format; absent timestamps are
      `None`. */
  datatype Entry = Entry(
    stems: seq<string>,
    target: Option<string>,
    digest: string,
    etag: Option<string>,
    lastModified: Option<string>,
    fetchedAt: Option<real>,
    checkedAt: Option<real>,
    error: Option<Failure>,
    ok: Option<bool>)

  datatype Hit = Hit(
    stems: seq<string>,
    target: Option<string>,
    digest: string,
    etag: Option<string>,
    lastModified: Option<string>,
    fetchedAt: real,
    checkedAt: real,
    error: Option<Failure>,
    stale: bool,
    revalidationDue: bool,
    warning: string)

  const SuccessTtl: real := 604800.0
  const FailureTtl: real := 21600.0

  // ---- reading a record ------------------------------------------------------

  predicate HexDigit(c: char) {
    '0' <= c <= '9' || 'a' <= c <= 'f'
  }

  function ValidDigest(s: string): string {
    if |s| == 64 && (forall k :: 0 <= k < 64 ==> HexDigit(s[k])) then s else ""
  }

  function OptionalText(s: Option<string>): Option<string> {
    if s == Some("") then None else s
  }

  predicate HasEvidence(e: Entry) {
    e.stems != [] && e.ok != Some(false)
  }

  function Number(x: Option<real>, default: real): real {
    if x.Some? then x.value else default
  }

  /** `_normalized_entry` */
  function Normalized(e: Entry): (r: Entry)
    ensures r.fetchedAt.Some? && r.checkedAt.Some? && r.ok.None?
    ensures HasEvidence(r) <==> HasEvidence(e)
    ensures if HasEvidence(e) then r.stems == e.stems && (r.digest == e.digest || r.digest == "")
            else r.stems == [] && r.target.None? && r.digest == "" && r.fetchedAt == Some(0.0)
    ensures r.digest != "" ==> |r.digest| == 64 && forall k :: 0 <= k < 64 ==> HexDigit(r.digest[k])
    ensures r.target != Some("") && r.etag != Some("") && r.lastModified != Some("")
    ensures r.checkedAt.value > 0.0 || r.checkedAt == Some(Number(e.fetchedAt, 0.0))
    ensures e.checkedAt.Some? && e.checkedAt.value > 0.0 ==> r.checkedAt == e.checkedAt
    ensures (e.error.Some? ==> r.error == e.error) && (e.ok == Some(false) ==> r.error.Some?)
    ensures e.error.None? && e.ok != Some(false) ==> r.error.None?
  {
    var fetched := Number(e.fetchedAt, 0.0);
    var given := Number(e.checkedAt, fetched);
    var checked := if given <= 0.0 then fetched else given;
    var error :=
      if e.ok == Some(false) && e.error.None?
      then Some(Failure("legacy_failure", "legacy cache validation failed", checked))
      else e.error;
    if HasEvidence(e)
    then Entry(e.stems, OptionalText(e.target), ValidDigest(e.digest), OptionalText(e.etag), OptionalText(e.lastModified),
               Some(fetched), Some(checked), error, None)
    else Entry([], None, "", OptionalText(e.etag), OptionalText(e.lastModified), Some(0.0), Some(checked), error, None)
  }

  function Ttl(e: Entry): real {
    if e.error.Some? || !HasEvidence(e) then FailureTtl else SuccessTtl
  }

  /** The timestamp `_entry_fresh` reads, without any repair. */
  function RawChecked(e: Entry): Option<real> {
    if e.checkedAt.Some? then e.checkedAt else e.fetchedAt
  }

  predicate IsFresh(e: Entry, now: real) {
    RawChecked(e).Some? && now - RawChecked(e).value <= Ttl(e)
  }

  /** `_entry_to_hit` */
  function HitOf(e: Entry, now: real): Hit {
    var n := Normalized(e);
    Hit(n.stems, n.target, n.digest, n.etag, n.lastModified, n.fetchedAt.value, n.checkedAt.value, n.error,
        n.error.Some? || !IsFresh(n, now), !IsFresh(n, now), if n.error.Some? then n.error.value.message else "")
  }

  /** `lookup_stems` on one entry */
  function View(e: Entry, now: real): Option<Hit> {
    var hit := HitOf(e, now);
    if hit.stems != [] then Some(hit) else if IsFresh(e, now) then Some(hit) else None
  }

  // ---- one fetch outcome -----------------------------------------------------

  datatype Outcome =
    | Valid(stems: seq<string>, target: Option<string>, digest: string, etag: Option<string>, lastModified: Option<string>)
    | Failed(kind: string, message: string)
    | NotModified(etag: Option<string>, lastModified: Option<string>)

  /** `remember_stems` for a failure: prior evidence stays. */
  function AfterFailure(prior: Option<Entry>, kind: string, message: string, now: real): Entry {
    var error := Some(Failure(kind, message, now));
    if prior.Some? && HasEvidence(prior.value)
    then Normalized(prior.value).(checkedAt := Some(now), error := error)
    else Entry([], None, "", None, None, Some(0.0), Some(now), error, None)
  }

  function Apply(prior: Option<Entry>, o: Outcome, now: real): Entry {
    match o
    case Valid(stems, target, digest, etag, lastModified) =>
      if stems == [] then AfterFailure(prior, "validation", "YAML validation failed", now)
      else Entry(stems, OptionalText(target), ValidDigest(digest), OptionalText(etag), OptionalText(lastModified),
                 Some(now), Some(now), None, None)
    case Failed(kind, message) => AfterFailure(prior, kind, message, now)
    case NotModified(etag, lastModified) =>
      if prior.Some? && HasEvidence(prior.value) then
        var n := Normalized(prior.value);
        n.(etag := if etag.Some? then etag else n.etag,
           lastModified := if lastModified.Some? then lastModified else n.lastModified,
           checkedAt := Some(now), error := None)
      else AfterFailure(prior, "protocol", "HTTP 304 without cached evidence", now)
  }

  datatype Fetch = Fetch(outcome: Outcome, at: real)

  function ApplyAll(fetches: seq<Fetch>): Option<Entry> {
    if fetches == [] then None
    else
      var n := |fetches| - 1;
      Some(Apply(ApplyAll(fetches[..n]), fetches[n].outcome, fetches[n].at))
  }

  // ---- last known good -------------------------------------------------------

  predicate Succeeded(f: Fetch) {
    f.outcome.Valid? && f.outcome.stems != []
  }

  /** The latest fetch that delivered a valid body. */
  function LatestValid(fetches: seq<Fetch>): (r: Option<Fetch>)
    ensures r.Some? ==> r.value in fetches && Succeeded(r.value)
    ensures r.None? <==> forall f :: f in fetches ==> !Succeeded(f)
  {
    if fetches == [] then None
    else
      var n := |fetches| - 1;
      assert fetches == fetches[..n] + [fetches[n]];
      if Succeeded(fetches[n]) then Some(fetches[n]) else LatestValid(fetches[..n])
  }

  /** The latest fetch failed; a 304 needs something to confirm. */
  predicate LatestFailed(fetches: seq<Fetch>)
    requires fetches != []
  {
    var f := fetches[|fetches| - 1];
    && !Succeeded(f)
    && !(f.outcome.NotModified? && LatestValid(fetches).Some?)
  }

  /** `e` holds the evidence of the latest valid body, and an error exactly when the latest
      fetch failed. */
  ghost predicate LastKnownGood(e: Entry, fetches: seq<Fetch>)
    requires fetches != []
  {
    var good := LatestValid(fetches);
    && (if good.None? then e.stems == [] && e.target.None? && e.digest == "" && e.fetchedAt == Some(0.0)
        else
          var v := good.value.outcome;
          && e.stems == v.stems && e.target == OptionalText(v.target) && e.digest == ValidDigest(v.digest)
          && e.fetchedAt == Some(good.value.at))
    && (e.error.Some? <==> LatestFailed(fetches))
    && e.checkedAt == Some(fetches[|fetches| - 1].at) && e.ok.None?
  }

  lemma NextIsLastKnownGood(e: Entry, fetches: seq<Fetch>, f: Fetch)
    requires fetches != [] && LastKnownGood(e, fetches)
    ensures LastKnownGood(Apply(Some(e), f.outcome, f.at), fetches + [f])
  {
    hide ValidDigest, OptionalText;
    assert (fetches + [f])[..|fetches|] == fetches;
    ValidDigestStays(fetches);
  }

  /** After any sequence of fetches the entry is last-known-good: no failure harms evidence. */
  lemma {:induction false} EvidenceIsLastKnownGood(fetches: seq<Fetch>)
    requires fetches != []
    ensures LastKnownGood(ApplyAll(fetches).value, fetches)
  {
    var n := |fetches| - 1;
    assert fetches == fetches[..n] + [fetches[n]];
    if n > 0 {
      hide LastKnownGood, Apply;
      EvidenceIsLastKnownGood(fetches[..n]);
      NextIsLastKnownGood(ApplyAll(fetches[..n]).value, fetches[..n], fetches[n]);
    } else {
      assert fetches[..0] == [] && LatestValid(fetches[..0]) == None;
    }
  }

  lemma ValidDigestStays(fetches: seq<Fetch>)
    ensures forall s :: ValidDigest(ValidDigest(s)) == ValidDigest(s)
    ensures forall t :: OptionalText(OptionalText(t)) == OptionalText(t)
  {
  }

  // ---- write and reload ------------------------------------------------------

  predicate Timed(e: Entry) {
    (e.fetchedAt.Some? ==> e.fetchedAt.value >= 0.0) && (e.checkedAt.Some? ==> e.checkedAt.value >= 0.0)
  }

  lemma NormalizedTwice(e: Entry)
    requires Timed(e)
    ensures Normalized(Normalized(e)) == Normalized(e)
  {
    ValidDigestStays([]);
  }

  /** Exactly when an entry looks the same, at every time, after it was written and read back:
      it has evidence, or its own timestamp needs no repair. */
  lemma ReloadKeepsViewIff(e: Entry)
    requires Timed(e)
    ensures (forall now: real :: now >= 0.0 ==> View(Normalized(e), now) == View(e, now)) <==>
            HasEvidence(e) || RawChecked(e) == Normalized(e).checkedAt
  {
    NormalizedTwice(e);
    var c := Normalized(e).checkedAt.value;
    if !HasEvidence(e) && RawChecked(e) != Some(c) {
      var now := c + FailureTtl;
      assert IsFresh(Normalized(e), now) && !IsFresh(e, now);
      assert View(Normalized(e), now) != View(e, now);
    }
  }

  /** Every entry the cache itself ever stores meets the condition. */
  lemma OwnEntriesReload(prior: Option<Entry>, o: Outcome, now: real)
    requires now >= 0.0 && (prior.Some? ==> Timed(prior.value))
    ensures Timed(Apply(prior, o, now))
    ensures HasEvidence(Apply(prior, o, now))
            || RawChecked(Apply(prior, o, now)) == Normalized(Apply(prior, o, now)).checkedAt
  {
  }

  // ---- the cache object ------------------------------------------------------

  const MaxBody: nat := 2097152

  /** What a request comes back with; `parsed` is `None` when the body is no valid config. */
  datatype Response =
    | NoResponse(message: string)
    | Response(status: int, etag: Option<string>, lastModified: Option<string>, size: nat,
               parsed: Option<(seq<string>, Option<string>)>, sha256: string)

  /** The branches of `_fetch_and_remember`; header values are absent or non-empty. */
  function OutcomeOf(r: Response): Outcome {
    match r
    case NoResponse(message) => Failed("network", message)
    case Response(status, etag, lastModified, size, parsed, sha256) =>
      if status == 304 then NotModified(OptionalText(etag), OptionalText(lastModified))
      else if status != 200 then Failed("http", "HTTP status")
      else if size > MaxBody then Failed("size", "response body exceeds 2 MiB")
      else if parsed.None? || parsed.value.0 == [] then Failed("parse", "YAML parse failed")
      else Valid(parsed.value.0, parsed.value.1, sha256, etag, lastModified)
  }

  predicate Reloads(e: Entry) {
    Timed(e) && (HasEvidence(e) || RawChecked(e) == Normalized(e).checkedAt)
  }

  // ---- the rules in plain terms ----------------------------------------------

  /** A complete, valid body: status 200, at most 2 MiB, parsed to at least one stem. */
  ghost predicate Delivered(r: Response) {
    r.Response? && r.status == 200 && r.size <= 2097152 && r.parsed.Some? && r.parsed.value.0 != []
  }

  ghost predicate Unchanged(r: Response) {
    r.Response? && r.status == 304
  }

  /** A stored record with stems that is not marked as failed. */
  ghost predicate Known(prior: Option<Entry>) {
    prior.Some? && prior.value.stems != [] && prior.value.ok != Some(false)
  }

  /** A record counts for a week after its last successful check, else for six hours. */
  ghost predicate WithinTtl(e: Entry, now: real) {
    var t := if e.checkedAt.Some? then e.checkedAt else e.fetchedAt;
    t.Some? && now - t.value <= (if e.stems != [] && e.ok != Some(false) && e.error.None? then 604800.0 else 21600.0)
  }

  /** An empty text counts as none. */
  ghost predicate TextKept(kept: Option<string>, given: Option<string>) {
    kept == if given == Some("") then None else given
  }

  /** The evidence after a response: a valid body replaces it, everything else keeps what was known. */
  ghost predicate EvidenceSettles(prior: Option<Entry>, r: Response, now: real, e: Entry) {
    if Delivered(r) then
      && e.stems == r.parsed.value.0 && e.fetchedAt == Some(now) && DigestOf(e.digest, r.sha256)
      && TextKept(e.target, r.parsed.value.1)
    else if Known(prior) then
      && e.stems == prior.value.stems && TextKept(e.target, prior.value.target)
      && DigestOf(e.digest, prior.value.digest)
      && e.fetchedAt == Some(if prior.value.fetchedAt.Some? then prior.value.fetchedAt.value else 0.0)
    else e.stems == [] && e.target.None? && e.digest == "" && e.fetchedAt == Some(0.0)
  }

  /** The error after a response: none after a valid body or a 304 that confirms known stems. */
  ghost predicate ErrorSettles(prior: Option<Entry>, r: Response, now: real, e: Entry) {
    && e.checkedAt == Some(now)
    && (e.error.None? <==> Delivered(r) || (Unchanged(r) && Known(prior)))
    && (e.error.Some? ==> e.error.value.at == now)
    && (r.NoResponse? ==> e.error.value.kind == "network")
    && (r.Response? && r.status != 200 && r.status != 304 ==> e.error.value.kind == "http")
    && (r.Response? && r.status == 200 && r.size > 2097152 ==> e.error.value.kind == "size")
    && (r.Response? && r.status == 200 && r.size <= 2097152 && r.parsed.None? ==> e.error.value.kind == "parse")
    && (Unchanged(r) && !Known(prior) ==> e.error.value.kind == "protocol")
  }

  /** The validators after a response: those of a valid body, or those a 304 brings, if any. */
  ghost predicate HeadersSettle(prior: Option<Entry>, r: Response, e: Entry) {
    && (Delivered(r) ==> TextKept(e.etag, r.etag) && TextKept(e.lastModified, r.lastModified))
    && (Unchanged(r) && Known(prior) ==>
          && TextKept(e.etag, if r.etag.None? || r.etag == Some("") then prior.value.etag else r.etag)
          && TextKept(e.lastModified,
                      if r.lastModified.None? || r.lastModified == Some("") then prior.value.lastModified
                      else r.lastModified))
  }

  /** What one response makes of an entry. */
  ghost predicate Settles(prior: Option<Entry>, r: Response, now: real, e: Entry) {
    EvidenceSettles(prior, r, now, e) && ErrorSettles(prior, r, now, e) && HeadersSettle(prior, r, e)
  }

  /** A digest is kept when it is one: 64 hexadecimal digits. */
  ghost predicate DigestOf(kept: string, given: string) {
    if |given| == 64 && (forall c :: c in given ==> c in "0123456789abcdef") then kept == given else kept == ""
  }

  lemma DigestKept(given: string)
    ensures DigestOf(ValidDigest(given), given)
  {
    assert forall c: char :: HexDigit(c) <==> c in "0123456789abcdef";
    assert forall k :: 0 <= k < |given| ==> given[k] in given;
  }

  lemma ResponseSettles(prior: Option<Entry>, r: Response, now: real)
    ensures Settles(prior, r, now, Apply(prior, OutcomeOf(r), now))
  {
    hide EvidenceSettles, ErrorSettles, HeadersSettle, Apply, OutcomeOf;
    ResponseEvidence(prior, r, now);
    ResponseError(prior, r, now);
    ResponseHeaders(prior, r, now);
  }

  lemma ResponseEvidence(prior: Option<Entry>, r: Response, now: real)
    ensures EvidenceSettles(prior, r, now, Apply(prior, OutcomeOf(r), now))
  {
    hide ValidDigest, DigestOf;
    if r.Response? {
      DigestKept(r.sha256);
    }
    if prior.Some? {
      DigestKept(prior.value.digest);
    }
  }

  lemma ResponseError(prior: Option<Entry>, r: Response, now: real)
    ensures ErrorSettles(prior, r, now, Apply(prior, OutcomeOf(r), now))
  {
    hide ValidDigest;
  }

  lemma ResponseHeaders(prior: Option<Entry>, r: Response, now: real)
    ensures HeadersSettle(prior, r, Apply(prior, OutcomeOf(r), now))
  {
    hide ValidDigest;
  }

  lemma FreshIffWithinTtl(e: Entry, now: real)
    ensures IsFresh(e, now) <==> WithinTtl(e, now)
  {
  }

  /** What a caller sees: known stems at any age, anything else only while it counts; out of date once
      the time is up, a warning exactly when the last check failed. */
  lemma ViewMeans(e: Entry, now: real)
    ensures View(e, now).Some? <==> Known(Some(e)) || WithinTtl(e, now)
    ensures View(e, now).Some? ==>
      var hit := View(e, now).value;
      && hit.stems == (if Known(Some(e)) then e.stems else [])
      && (hit.revalidationDue <==>
            now - hit.checkedAt > if hit.stems != [] && hit.error.None? then 604800.0 else 21600.0)
      && (hit.stale <==> hit.revalidationDue || hit.error.Some?)
      && (e.error.Some? ==> hit.error == e.error) && (hit.error.Some? <==> e.error.Some? || e.ok == Some(false))
      && hit.warning == (if hit.error.Some? then hit.error.value.message else "")
  {
    hide ValidDigest;
  }

  class StemCache {
    var entries: map<string, Entry>   // in memory
    var disk: map<string, Entry>      // the cache file

    /** A cache as read from its file, whose records may be of the older format. */
    constructor (stored: map<string, Entry>)
      ensures entries == stored && disk == stored
    {
      entries, disk := stored, stored;
    }

    function Get(key: string): Option<Entry>
      reads this
    {
      if key in entries then Some(entries[key]) else None
    }

    /** `_fetch_and_remember`: a fresh entry is not fetched again; otherwise the outcome is
        applied and, if it can be, the whole cache is written. */
    method FetchAndRemember(key: string, force: bool, response: Response, now: real, writable: bool)
      returns (ok: bool, asked: bool, ifNoneMatch: Option<string>, ifModifiedSince: Option<string>)
      requires now >= 0.0
      modifies this
      ensures asked <==> force || key !in old(entries) || !IsFresh(old(entries)[key], now)
      ensures asked <==> force || key !in old(entries) || !WithinTtl(old(entries)[key], now)
      ensures asked ==> entries.Keys == old(entries).Keys + {key} && Settles(old(Get(key)), response, now, entries[key])
      ensures !asked ==> entries == old(entries) && disk == old(disk) && ok == HasEvidence(entries[key])
      ensures asked ==>
        && entries == old(entries)[key := Apply(old(Get(key)), OutcomeOf(response), now)]
        && (ok <==> entries[key].error.None?)
        && (writable ==> disk.Keys == entries.Keys)
      ensures asked && writable ==>
        forall k, t: real :: k in entries && Reloads(entries[k]) && t >= 0.0 ==> View(disk[k], t) == View(entries[k], t)
      ensures asked && (key in old(entries) ==> Timed(old(entries)[key])) ==> Reloads(entries[key])
      ensures asked && !writable ==> disk == old(disk)
      ensures asked ==> TextKept(ifNoneMatch, if key in old(entries) then old(entries)[key].etag else None)
      ensures asked ==> TextKept(ifModifiedSince, if key in old(entries) then old(entries)[key].lastModified else None)
    {
      hide Reloads, Apply, View, OutcomeOf, Timed, Settles, WithinTtl, IsFresh;
      ResponseSettles(Get(key), response, now);
      if key in entries {
        FreshIffWithinTtl(entries[key], now);
      }
      ifNoneMatch, ifModifiedSince := None, None;
      if key in entries {
        asked := force || !IsFresh(entries[key], now);
        if !asked {
          ok := HasEvidence(entries[key]);
          return;
        }
        var hit := HitOf(entries[key], now);
        ifNoneMatch, ifModifiedSince := hit.etag, hit.lastModified;
      }
      asked := true;
      if key in entries ==> Timed(entries[key]) {
        StoresReload(Get(key), OutcomeOf(response), now);
      }
      var entry := Apply(Get(key), OutcomeOf(response), now);
      entries := entries[key := entry];
      ok := entry.error.None?;
      if writable {
        ViewsReload(entries);
        disk := map k | k in entries :: Normalized(entries[k]);
      }
    }
  }

  lemma StoresReload(prior: Option<Entry>, o: Outcome, now: real)
    requires now >= 0.0 && (prior.Some? ==> Timed(prior.value))
    ensures Reloads(Apply(prior, o, now))
  {
    OwnEntriesReload(prior, o, now);
  }

  lemma ViewsReload(entries: map<string, Entry>)
    ensures forall k, t: real :: k in entries && Reloads(entries[k]) && t >= 0.0 ==>
      View(Normalized(entries[k]), t) == View(entries[k], t)
  {
    forall k | k in entries && Reloads(entries[k])
      ensures forall t: real :: t >= 0.0 ==> View(Normalized(entries[k]), t) == View(entries[k], t)
    {
      ReloadKeepsViewIff(entries[k]);
    }
  }

  /** A record of the older format that does not: nothing is shown before the reload, a failure
      after it. */
  lemma OldRecordChangesView(now: real)
    requires 0.0 <= now <= FailureTtl
    ensures var e := Entry([], None, "", None, None, None, None, None, Some(false));
            Timed(e) && View(e, now).None? && View(Normalized(e), now).Some?
  {
  }
}

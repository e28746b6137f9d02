/** Printing and parsing pairs of ensemble algorithms (core/ensemble_algorithms.py), whose names
    may contain the separator themselves. */
module EnsembleTypes {
  import opened Text

  // ---- trimming --------------------------------------------------------------

  predicate IsSpace(c: char) {
    c == ' ' || '\t' <= c <= '\r' || '\U{001c}' <= c <= '\U{001f}'
  }

  /** The ASCII characters `str.strip` removes. */
  lemma SpaceIsAscii(c: char)
    ensures IsSpace(c) <==> c in " \t\n\r\U{000b}\U{000c}\U{001c}\U{001d}\U{001e}\U{001f}"
  {
  }

  function TrimLeft(s: string): (r: string)
    ensures r == "" || !IsSpace(r[0])
    ensures |r| <= |s| && s[|s| - |r|..] == r
    ensures forall k :: 0 <= k < |s| - |r| ==> IsSpace(s[k])
  {
    if s != "" && IsSpace(s[0]) then TrimLeft(s[1..]) else s
  }

  function TrimRight(s: string): (r: string)
    ensures r == "" || !IsSpace(r[|r| - 1])
    ensures r <= s
    ensures forall k :: |r| <= k < |s| ==> IsSpace(s[k])
  {
    if s != "" && IsSpace(s[|s| - 1]) then TrimRight(s[..|s| - 1]) else s
  }

  /** `str.strip` */
  function Trim(s: string): string {
    TrimRight(TrimLeft(s))
  }

  predicate Trimmed(s: string) {
    s == "" || (!IsSpace(s[0]) && !IsSpace(s[|s| - 1]))
  }

  /** Trimming takes away white space at both ends, and all of it. */
  lemma TrimMeans(s: string) returns (before: string, after: string)
    ensures s == before + Trim(s) + after && Trimmed(Trim(s))
    ensures forall c :: c in before || c in after ==> IsSpace(c)
  {
    hide TrimLeft, TrimRight;
    var left := TrimLeft(s);
    before, after := s[..|s| - |left|], left[|TrimRight(left)|..];
    assert s == before + left && left == TrimRight(left) + after;
    StillTrimmed(left, TrimRight(left));
  }

  lemma StillTrimmed(left: string, both: string)
    requires left == "" || !IsSpace(left[0])
    requires both <= left && (both == "" || !IsSpace(both[|both| - 1]))
    ensures Trimmed(both)
  {
  }

  /** Nothing was given, or only white space. */
  ghost predicate Blank(value: Option<string>) {
    value.None? || forall c :: c in value.value ==> IsSpace(c)
  }

  lemma BlankIffTrimsAway(value: Option<string>)
    ensures Trim(if value.Some? then value.value else "") == "" <==> Blank(value)
  {
    var s := if value.Some? then value.value else "";
    var before, after := TrimMeans(s);
    hide Trim;
    assert Trim(s) != "" ==> Trim(s)[0] in s;
  }

  lemma TrimmedStays(s: string)
    requires Trimmed(s)
    ensures Trim(s) == s
  {
  }

  // ---- the program -----------------------------------------------------------

  datatype Result = Pair(primary: string, secondary: string) | Unknown(text: string) | Empty

  datatype Candidate = Candidate(score: nat, primary: string, secondary: string)

  /** `format_ensemble_type` */
  function Format(primary: string, secondary: string): string {
    primary + "/" + secondary
  }

  function SplitAt(text: string, i: nat, allowed: set<string>): Candidate
    requires i < |text|
  {
    var primary, secondary := Trim(text[..i]), Trim(text[i + 1..]);
    Candidate((if primary in allowed then 1 else 0) + (if secondary in allowed then 1 else 0), primary, secondary)
  }

  /** One candidate for every separator before `n`. */
  function Candidates(text: string, n: nat, allowed: set<string>): seq<Candidate>
    requires n <= |text|
  {
    if n == 0 then []
    else Candidates(text, n - 1, allowed) + if text[n - 1] == '/' then [SplitAt(text, n - 1, allowed)] else []
  }

  function Exact(candidates: seq<Candidate>): seq<Candidate> {
    if candidates == [] then []
    else
      var n := |candidates| - 1;
      Exact(candidates[..n]) + if candidates[n].score == 2 then [candidates[n]] else []
  }

  /** The first candidate of the highest score. */
  function Best(candidates: seq<Candidate>): (r: Candidate)
    requires candidates != []
    ensures r in candidates && forall c :: c in candidates ==> c.score <= r.score
  {
    var n := |candidates| - 1;
    assert candidates == candidates[..n] + [candidates[n]];
    if n == 0 then candidates[0]
    else
      assert candidates[n] in candidates && forall c :: c in candidates <==> c in candidates[..n] || c == candidates[n];
      var before := Best(candidates[..n]);
      if candidates[n].score > before.score then candidates[n] else before
  }

  /** `parse_ensemble_type`, with the fallback text and atoms as parameters. */
  method Parse(value: Option<string>, allowed: set<string>, strict: bool, fallback: string, first: string,
               second: string)
    returns (r: Result)
    ensures r == ParseOf(value, allowed, strict, fallback, first, second)
    ensures r.Empty? <==> strict && Blank(value)
    ensures !strict && Blank(value) ==> r == ParseText(fallback, allowed, false, first, second)
  {
    BlankIffTrimsAway(value);
    hide Trim, SplitAt, Exact, Best, Blank;
    var supplied := Trim(if value.Some? then value.value else "");
    if strict && supplied == "" {
      return Empty;
    }
    var text := if supplied == "" then fallback else supplied;
    if text in allowed {
      return Pair(text, text);
    }
    var candidates := [];
    for i := 0 to |text|
      invariant candidates == Candidates(text, i, allowed)
    {
      if text[i] == '/' {
        candidates := candidates + [SplitAt(text, i, allowed)];
      }
    }
    var exact := Exact(candidates);
    if |exact| == 1 {
      return Pair(exact[0].primary, exact[0].secondary);
    }
    if strict {
      return Unknown(text);
    }
    if exact != [] {
      return Pair(exact[0].primary, exact[0].secondary);
    }
    if candidates != [] {
      var best := Best(candidates);
      return Pair(if best.primary in allowed then best.primary else first,
                  if best.secondary in allowed then best.secondary else second);
    }
    r := Pair(first, second);
  }

  function ParseOf(value: Option<string>, allowed: set<string>, strict: bool, fallback: string, first: string,
                   second: string)
    : Result
  {
    var supplied := Trim(if value.Some? then value.value else "");
    if strict && supplied == "" then Empty
    else ParseText(if supplied == "" then fallback else supplied, allowed, strict, first, second)
  }

  function ParseText(text: string, allowed: set<string>, strict: bool, first: string, second: string): Result {
    var candidates := Candidates(text, |text|, allowed);
    var exact := Exact(candidates);
    if text in allowed then Pair(text, text)
    else if |exact| == 1 || (!strict && exact != []) then Pair(exact[0].primary, exact[0].secondary)
    else if strict then Unknown(text)
    else if candidates != [] then
      var best := Best(candidates);
      Pair(if best.primary in allowed then best.primary else first,
           if best.secondary in allowed then best.secondary else second)
    else Pair(first, second)
  }

  // ---- what parsing guarantees -----------------------------------------------

  /** The separator at `i` splits `text` into two known atoms. */
  predicate SplitsAt(text: string, i: nat, allowed: set<string>) {
    i < |text| && text[i] == '/' && Trim(text[..i]) in allowed && Trim(text[i + 1..]) in allowed
  }

  ghost predicate OnlySplit(text: string, i: nat, allowed: set<string>) {
    SplitsAt(text, i, allowed) && forall j: nat :: SplitsAt(text, j, allowed) ==> j == i
  }

  /** The positions before `n` that split `text` into two known atoms. */
  function Splits(text: string, n: nat, allowed: set<string>): seq<nat> {
    if n == 0 then [] else Splits(text, n - 1, allowed) + if SplitsAt(text, n - 1, allowed) then [n - 1] else []
  }

  lemma {:induction false} SplitsMembers(text: string, n: nat, allowed: set<string>)
    ensures var r := Splits(text, n, allowed);
            && (forall i: nat :: i in r <==> i < n && SplitsAt(text, i, allowed))
            && (forall a, b :: 0 <= a < b < |r| ==> r[a] < r[b])
            && (forall a :: 0 <= a < |r| ==> SplitsAt(text, r[a], allowed))
  {
    hide SplitsAt;
    if n > 0 {
      SplitsMembers(text, n - 1, allowed);
      var before := Splits(text, n - 1, allowed);
      assert forall a :: 0 <= a < |before| ==> before[a] in before;
    }
  }

  lemma FirstTwoDiffer(text: string, n: nat, allowed: set<string>, at: seq<nat>)
    requires at == Splits(text, n, allowed)
    ensures |at| > 1 ==> at[0] < at[1]
  {
    SplitsMembers(text, n, allowed);
  }

  /** The candidates of the splitting positions, which all lie inside `text`. */
  ghost predicate AreSplits(exact: seq<Candidate>, text: string, at: seq<nat>, allowed: set<string>) {
    && |exact| == |at|
    && (forall k :: 0 <= k < |at| ==> at[k] < |text| && exact[k] == SplitAt(text, at[k], allowed))
  }

  lemma ExactAppend(before: seq<Candidate>, c: Candidate)
    ensures Exact(before + [c]) == Exact(before) + if c.score == 2 then [c] else []
  {
    assert (before + [c])[..|before|] == before;
  }

  lemma SplitsAppend(exact: seq<Candidate>, text: string, at: seq<nat>, allowed: set<string>, i: nat)
    requires AreSplits(exact, text, at, allowed) && i < |text|
    ensures AreSplits(exact + [SplitAt(text, i, allowed)], text, at + [i], allowed)
  {
    hide SplitAt;
  }

  lemma {:induction false} ExactAreSplits(text: string, n: nat, allowed: set<string>)
    requires n <= |text|
    ensures AreSplits(Exact(Candidates(text, n, allowed)), text, Splits(text, n, allowed), allowed)
  {
    hide SplitsAt, SplitAt;
    if n > 0 {
      hide AreSplits, Exact;
      ExactAreSplits(text, n - 1, allowed);
      var before, c := Candidates(text, n - 1, allowed), SplitAt(text, n - 1, allowed);
      ScoreTwo(text, n - 1, allowed);
      SplitsAppend(Exact(before), text, Splits(text, n - 1, allowed), allowed, n - 1);
      ExactAppend(before, c);
      assert before + [] == before && Exact(before) + [] == Exact(before);
      assert Splits(text, n - 1, allowed) + [] == Splits(text, n - 1, allowed);
    }
  }

  lemma ScoreTwo(text: string, i: nat, allowed: set<string>)
    requires i < |text|
    ensures SplitsAt(text, i, allowed) <==> text[i] == '/' && SplitAt(text, i, allowed).score == 2
  {
    hide Trim;
  }

  /** Exactly one exact pair is exactly one splitting position. */
  lemma OneExact(text: string, allowed: set<string>) returns (i: nat)
    requires |Exact(Candidates(text, |text|, allowed))| == 1
    ensures OnlySplit(text, i, allowed) && i < |text|
    ensures Exact(Candidates(text, |text|, allowed))[0] == SplitAt(text, i, allowed)
  {
    hide Exact, Candidates, SplitsAt, SplitAt, Splits;
    ExactAreSplits(text, |text|, allowed);
    SplitsMembers(text, |text|, allowed);
    var at := Splits(text, |text|, allowed);
    i := at[0];
    forall j: nat | SplitsAt(text, j, allowed) ensures j == i {
      Inside(text, j, allowed);
      assert j in at;
    }
  }

  lemma OneSplit(text: string, i: nat, allowed: set<string>)
    requires OnlySplit(text, i, allowed)
    ensures |Exact(Candidates(text, |text|, allowed))| == 1 && i < |text|
    ensures Exact(Candidates(text, |text|, allowed))[0] == SplitAt(text, i, allowed)
  {
    hide Exact, Candidates, SplitAt, SplitsAt, Splits;
    var at := Splits(text, |text|, allowed);
    FirstTwoDiffer(text, |text|, allowed, at);
    Inside(text, i, allowed);
    ExactAreSplits(text, |text|, allowed);
    SplitsMembers(text, |text|, allowed);
    assert i in at;
    assert forall k :: 0 <= k < |at| ==> at[k] == i;
  }

  lemma Inside(text: string, i: nat, allowed: set<string>)
    requires SplitsAt(text, i, allowed)
    ensures i < |text|
  {
  }

  /** Strict parsing succeeds with known atoms only, and they rebuild the input up to spaces. */
  lemma StrictRebuilds(text: string, allowed: set<string>, first: string, second: string)
    ensures var r := ParseText(text, allowed, true, first, second);
            r.Pair? ==>
              && r.primary in allowed && r.secondary in allowed
              && ((r.primary == text && r.secondary == text) || RebuiltBy(text, allowed, r.primary, r.secondary))
  {
    hide Trim, Exact, Candidates;
    if text !in allowed && |Exact(Candidates(text, |text|, allowed))| == 1 {
      var i := OneExact(text, allowed);
    }
  }

  /** It succeeds exactly on an atom or on a text with one split into atoms. */
  lemma StrictSucceedsIff(text: string, allowed: set<string>, first: string, second: string)
    ensures var r := ParseText(text, allowed, true, first, second);
            && (r.Pair? <==> text in allowed || exists i: nat :: OnlySplit(text, i, allowed))
            && (text in allowed ==> r == Pair(text, text)) && (!r.Pair? ==> r == Unknown(text))
  {
    hide Trim, Exact, Candidates, OnlySplit, SplitAt;
    if |Exact(Candidates(text, |text|, allowed))| == 1 {
      var i := OneExact(text, allowed);
    }
    if i: nat :| OnlySplit(text, i, allowed) {
      OneSplit(text, i, allowed);
    }
  }

  ghost predicate RebuiltBy(text: string, allowed: set<string>, primary: string, secondary: string) {
    exists i: nat :: OnlySplit(text, i, allowed) && primary == Trim(text[..i]) && secondary == Trim(text[i + 1..])
  }

  /** Exactly when a printed pair of trimmed atoms parses back: the text is no atom itself and
      splits into two atoms in one way only. */
  lemma RoundTripIff(a: string, b: string, allowed: set<string>, fallback: string, first: string, second: string)
    requires a in allowed && b in allowed && a != "" && b != "" && Trimmed(a) && Trimmed(b)
    ensures ParseOf(Some(Format(a, b)), allowed, true, fallback, first, second) == Pair(a, b) <==>
              Format(a, b) !in allowed && OnlySplit(Format(a, b), |a|, allowed)
  {
    hide Trim, Exact, Candidates;
    var text := Format(a, b);
    PrintedSplits(a, b);
    TrimmedStays(text);
    if OnlySplit(text, |a|, allowed) {
      OneSplit(text, |a|, allowed);
    }
    if text !in allowed && |Exact(Candidates(text, |text|, allowed))| == 1 {
      var i := OneExact(text, allowed);
      assert SplitsAt(text, |a|, allowed);
    }
  }

  lemma PrintedSplits(a: string, b: string)
    requires a != "" && b != "" && Trimmed(a) && Trimmed(b)
    ensures var text := Format(a, b);
            Trimmed(text) && text[|a|] == '/' && Trim(text[..|a|]) == a && Trim(text[|a| + 1..]) == b
  {
    hide Trim;
    var text := Format(a, b);
    assert text[..|a|] == a && text[|a| + 1..] == b;
    TrimmedStays(a);
    TrimmedStays(b);
  }

  /** Lenient parsing always gives known atoms. */
  lemma LenientIsKnown(text: string, allowed: set<string>, first: string, second: string)
    requires first in allowed && second in allowed
    ensures var r := ParseText(text, allowed, false, first, second);
            r.Pair? && r.primary in allowed && r.secondary in allowed
  {
    hide Trim, Exact, Candidates, Splits, Best;
    ExactAreSplits(text, |text|, allowed);
    SplitsMembers(text, |text|, allowed);
    var exact, at := Exact(Candidates(text, |text|, allowed)), Splits(text, |text|, allowed);
    assert exact != [] ==> SplitsAt(text, at[0], allowed) && exact[0] == SplitAt(text, at[0], allowed);
  }

  /** The separator at `i` has at least one known atom beside it. */
  predicate HalfKnown(text: string, i: nat, allowed: set<string>) {
    i < |text| && text[i] == '/' && (Trim(text[..i]) in allowed || Trim(text[i + 1..]) in allowed)
  }

  lemma BestAppend(candidates: seq<Candidate>, c: Candidate)
    ensures Best(candidates + [c]) ==
              if candidates == [] || c.score > Best(candidates).score then c else Best(candidates)
  {
    assert (candidates + [c])[..|candidates|] == candidates;
  }

  lemma ScoreHalf(text: string, i: nat, allowed: set<string>)
    requires i < |text| && text[i] == '/'
    ensures var c := SplitAt(text, i, allowed);
            && (c.score > 0 <==> HalfKnown(text, i, allowed)) && (c.score >= 2 <==> SplitsAt(text, i, allowed))
  {
    hide Trim;
  }

  ghost predicate FirstSplit(text: string, i: nat, allowed: set<string>) {
    SplitsAt(text, i, allowed) && forall j: nat :: j < i ==> !SplitsAt(text, j, allowed)
  }

  ghost predicate FirstHalf(text: string, i: nat, allowed: set<string>) {
    HalfKnown(text, i, allowed) && forall j: nat :: j < i ==> !HalfKnown(text, j, allowed)
  }

  lemma {:induction false} NoHalves(text: string, n: nat, allowed: set<string>)
    requires n <= |text| && forall j: nat :: j < n ==> !HalfKnown(text, j, allowed)
    ensures var c := Candidates(text, n, allowed); c == [] || Best(c).score == 0
  {
    hide Best, SplitAt, HalfKnown;
    if n > 0 {
      NoHalves(text, n - 1, allowed);
      if text[n - 1] == '/' {
        BestAppend(Candidates(text, n - 1, allowed), SplitAt(text, n - 1, allowed));
        ScoreHalf(text, n - 1, allowed);
      }
    }
  }

  /** Without an exact split, the best candidate is the first one with a known half. */
  lemma {:induction false} FirstHalfIsBest(text: string, n: nat, i: nat, allowed: set<string>)
    requires i < n <= |text| && FirstHalf(text, i, allowed) && forall j: nat :: j < n ==> !SplitsAt(text, j, allowed)
    ensures var c := Candidates(text, n, allowed);
            c != [] && Best(c) == SplitAt(text, i, allowed) && Best(c).score == 1
    decreases n
  {
    hide Best, SplitAt, HalfKnown, SplitsAt;
    var before, last := Candidates(text, n - 1, allowed), SplitAt(text, n - 1, allowed);
    if text[n - 1] == '/' {
      BestAppend(before, last);
      ScoreHalf(text, n - 1, allowed);
    } else {
      assert before + [] == before;
    }
    if i == n - 1 {
      HalfAtSlash(text, i, allowed);
      NoHalves(text, i, allowed);
    } else {
      FirstHalfIsBest(text, n - 1, i, allowed);
    }
  }

  lemma HalfAtSlash(text: string, i: nat, allowed: set<string>)
    requires HalfKnown(text, i, allowed)
    ensures i < |text| && text[i] == '/'
  {
  }

  lemma SplitIsHalf(text: string, i: nat, allowed: set<string>)
    requires SplitsAt(text, i, allowed)
    ensures HalfKnown(text, i, allowed)
  {
  }

  /** Lenient parsing takes the first exact split. */
  lemma LenientTakesFirstSplit(text: string, i: nat, allowed: set<string>, first: string, second: string)
    requires text !in allowed && FirstSplit(text, i, allowed)
    ensures i < |text|
    ensures ParseText(text, allowed, false, first, second) == Pair(Trim(text[..i]), Trim(text[i + 1..]))
  {
    hide Trim, Exact, Candidates, Splits, Best, SplitsAt;
    Inside(text, i, allowed);
    ExactAreSplits(text, |text|, allowed);
    SplitsMembers(text, |text|, allowed);
    var at := Splits(text, |text|, allowed);
    assert i in at && SplitsAt(text, at[0], allowed) && at[0] == i;
  }

  lemma NoSplitNoExact(text: string, allowed: set<string>)
    requires forall i: nat :: !SplitsAt(text, i, allowed)
    ensures Exact(Candidates(text, |text|, allowed)) == []
  {
    hide Trim, Exact, Candidates, Splits, SplitsAt;
    ExactAreSplits(text, |text|, allowed);
    SplitsHead(text, |text|, allowed);
  }

  lemma SplitsHead(text: string, n: nat, allowed: set<string>)
    ensures Splits(text, n, allowed) != [] ==> SplitsAt(text, Splits(text, n, allowed)[0], allowed)
  {
    hide SplitsAt, Splits;
    SplitsMembers(text, n, allowed);
  }

  /** Without one it keeps the known half at the first separator that has one, and takes the
      default for the other half. */
  lemma LenientKeepsKnownHalf(text: string, i: nat, allowed: set<string>, first: string, second: string)
    requires text !in allowed && (forall j: nat :: !SplitsAt(text, j, allowed)) && FirstHalf(text, i, allowed)
    ensures i < |text|
    ensures ParseText(text, allowed, false, first, second) ==
              if Trim(text[..i]) in allowed then Pair(Trim(text[..i]), second) else Pair(first, Trim(text[i + 1..]))
  {
    hide Trim, Exact, Candidates, Best;
    HalfAtSlash(text, i, allowed);
    NoSplitNoExact(text, allowed);
    FirstHalfIsBest(text, |text|, i, allowed);
    assert !SplitsAt(text, i, allowed);
  }

  /** Without any known half it falls back to both defaults. */
  lemma LenientFallsBack(text: string, allowed: set<string>, first: string, second: string)
    requires text !in allowed && forall i: nat :: !HalfKnown(text, i, allowed)
    ensures ParseText(text, allowed, false, first, second) == Pair(first, second)
  {
    hide Trim, Exact, Candidates, Best, HalfKnown, SplitsAt;
    forall i: nat ensures !SplitsAt(text, i, allowed) {
      if SplitsAt(text, i, allowed) {
        SplitIsHalf(text, i, allowed);
      }
    }
    NoSplitNoExact(text, allowed);
    NoHalves(text, |text|, allowed);
    var c := Candidates(text, |text|, allowed);
    if c != [] {
      BestIsSplit(text, |text|, allowed);
    }
  }

  /** A candidate of score nought has no known half. */
  lemma {:induction false} BestIsSplit(text: string, n: nat, allowed: set<string>)
    requires n <= |text| && Candidates(text, n, allowed) != [] && Best(Candidates(text, n, allowed)).score == 0
    ensures var c := Best(Candidates(text, n, allowed)); c.primary !in allowed && c.secondary !in allowed
  {
    hide Trim, Best;
    if text[n - 1] == '/' {
      BestAppend(Candidates(text, n - 1, allowed), SplitAt(text, n - 1, allowed));
      if Candidates(text, n - 1, allowed) != [] {
        BestIsSplit(text, n - 1, allowed);
      }
    } else {
      assert Candidates(text, n - 1, allowed) + [] == Candidates(text, n - 1, allowed);
      BestIsSplit(text, n - 1, allowed);
    }
  }

  /** Lenient parsing agrees with strict parsing wherever that succeeds. */
  lemma LenientExtendsStrict(text: string, allowed: set<string>, first: string, second: string)
    requires ParseText(text, allowed, true, first, second).Pair?
    ensures ParseText(text, allowed, false, first, second) == ParseText(text, allowed, true, first, second)
  {
    hide Exact, Candidates;
  }

  /** Atoms that share a separator can print alike; strict parsing then refuses. */
  lemma AmbiguousIsRefused(text: string, i: nat, j: nat, allowed: set<string>, first: string, second: string)
    requires i != j && SplitsAt(text, i, allowed) && SplitsAt(text, j, allowed) && text !in allowed
    ensures ParseText(text, allowed, true, first, second) == Unknown(text)
  {
    hide Exact, Candidates, SplitsAt, SplitAt;
    if |Exact(Candidates(text, |text|, allowed))| == 1 {
      var k := OneExact(text, allowed);
    }
  }
}

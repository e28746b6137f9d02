/** Association and destination remapping for one staged output unit
    (cli/promotion_plan.py). */
module PromotionPlan {
  import opened Text
  import opened Files

  datatype Entry = Entry(source: Path, target: Path)

  datatype Plan = Plan(entries: seq<Entry>, trackBase: Option<string>, member: Option<string>) {
    function Base(): string {
      if trackBase.Some? then trackBase.value else ""
    }

    function Destinations(): seq<Path> {
      seq(|entries|, k requires 0 <= k < |entries| => entries[k].target)
    }

    function Remap(index: nat): (r: seq<Entry>)
      ensures |r| == |entries|
    {
      seq(|entries|, k requires 0 <= k < |entries| => RemapEntry(entries[k], Destinations(), Base(), index, member))
    }
  }

  function TrackBaseFromDestination(path: Path): Option<string> {
    var stem := SplitExt(path.name).0;
    var at := RFind(stem, " (");
    if at > 0 then Some(stem[..at])
    else if stem == "" then None else Some(stem)
  }

  predicate MatchesUnitName(name: string, base: string) {
    base + " (" <= name || base + "." <= name
  }

  predicate MatchesMemberName(name: string, prefix: string) {
    var (stem, extension) := SplitExt(name);
    extension != "" && prefix + " " <= stem && EndsWith(stem, ")") && RFind(stem, " (") > |prefix|
  }

  /** The prefix of `name` that a unit rename extends; `None` for a sidecar. */
  function UnitPrefix(name: string, base: string, member: Option<string>): (p: Option<string>)
    ensures p.Some? ==> p.value <= name && |p.value| < |name| && name[|p.value|] in " ."
    ensures p.Some? ==> p.value == base || member == Some(p.value)
    ensures p.Some? && p.value != base ==> name[|p.value|] == ' '
  {
    if MatchesUnitName(name, base) then Some(base)
    else if member.Some? && MatchesMemberName(name, member.value) then
      assert member.value + " " <= SplitExt(name).0 <= name;
      member
    else None
  }

  function WithUnitSuffix(path: Path, base: string, index: nat, member: Option<string>): (r: Path)
    ensures r.dir == path.dir
  {
    match UnitPrefix(path.name, base, member)
    case None => path
    case Some(prefix) => Path(path.dir, prefix + "_" + Digits(index) + path.name[|prefix|..])
  }

  function FirstTrackBase(destinations: seq<Path>): Option<string> {
    if destinations == [] then None
    else
      var base := TrackBaseFromDestination(destinations[0]);
      if base.Some? then base else FirstTrackBase(destinations[1..])
  }

  /** `base` is what stands before the last labelling " (" of the stem, which starts past the
      first character; the whole stem when there is none. */
  ghost predicate IsBaseOf(base: string, name: string) {
    var stem := SplitExt(name).0;
    && base != "" && base <= stem
    && (base != stem ==> OccursAt(stem, " (", |base|))
    && (forall at: nat :: at > 0 && OccursAt(stem, " (", at) ==> base != stem && at <= |base|)
  }

  /** Position `k` holds the first of the destinations that has a name at all. */
  ghost predicate FirstNamed(destinations: seq<Path>, k: nat) {
    && k < |destinations| && destinations[k].name != ""
    && (forall j :: 0 <= j < k ==> destinations[j].name == "")
  }

  /** The track base that a unit is renamed by: the expected one; failing that, the one of the
      first destination with a name. */
  ghost predicate IsUnitBase(base: string, expected: Option<string>, destinations: Option<seq<Path>>) {
    if expected.Some? then base == expected.value
    else
      destinations.Some? && exists k: nat :: FirstNamed(destinations.value, k) && IsBaseOf(base, destinations.value[k].name)
  }

  lemma TrackBaseMeans(path: Path)
    ensures TrackBaseFromDestination(path).None? <==> path.name == ""
    ensures forall base :: TrackBaseFromDestination(path) == Some(base) <==> IsBaseOf(base, path.name)
  {
    hide SplitExt;
    var stem := SplitExt(path.name).0;
    if path.name != "" {
      SplitKeepsStem(path.name);
    }
    var at := RFind(stem, " (");
    assert at > 0 ==> at < |stem| && stem[..at] <= stem;
    forall base ensures TrackBaseFromDestination(path) == Some(base) <==> IsBaseOf(base, path.name) {
      if IsBaseOf(base, path.name) {
        assert base != stem ==> OccursAt(stem, " (", |base|) && |base| <= at;
        assert base == stem[..|base|];
      }
    }
  }

  lemma SplitKeepsStem(name: string)
    requires name != ""
    ensures SplitExt(name).0 != ""
  {
  }

  lemma {:induction false} FirstTrackBaseMeans(destinations: seq<Path>)
    ensures FirstTrackBase(destinations).None? <==> forall p :: p in destinations ==> p.name == ""
    ensures forall base :: FirstTrackBase(destinations) == Some(base) <==> IsUnitBase(base, None, Some(destinations))
  {
    hide TrackBaseFromDestination, IsBaseOf;
    if destinations != [] {
      var rest := destinations[1..];
      TrackBaseMeans(destinations[0]);
      FirstTrackBaseMeans(rest);
      assert forall p :: p in destinations <==> p == destinations[0] || p in rest;
      if destinations[0].name != "" {
        assert forall k: nat :: FirstNamed(destinations, k) <==> k == 0;
      } else {
        assert forall k: nat :: k < |rest| ==> rest[k] == destinations[k + 1];
        forall base ensures IsUnitBase(base, None, Some(destinations)) <==> IsUnitBase(base, None, Some(rest)) {
          LaterNamed(destinations, base);
        }
      }
    }
  }

  lemma LaterNamed(destinations: seq<Path>, base: string)
    requires destinations != [] && destinations[0].name == ""
    ensures IsUnitBase(base, None, Some(destinations)) <==> IsUnitBase(base, None, Some(destinations[1..]))
  {
    hide IsBaseOf;
    var rest := destinations[1..];
    if k: nat :| FirstNamed(destinations, k) && IsBaseOf(base, destinations[k].name) {
      forall j | 0 <= j < k - 1 ensures rest[j].name == "" {
        assert rest[j] == destinations[j + 1];
      }
      assert rest[k - 1] == destinations[k];
      assert FirstNamed(rest, k - 1);
    }
    if k: nat :| FirstNamed(rest, k) && IsBaseOf(base, rest[k].name) {
      forall j | 0 <= j < k + 1 ensures destinations[j].name == "" {
        assert j > 0 ==> rest[j - 1] == destinations[j];
      }
      assert rest[k] == destinations[k + 1];
      assert FirstNamed(destinations, k + 1);
    }
  }

  /** `source` is the first staged file that matches neither prefix. */
  ghost predicate IsFirstUnexpected(entries: seq<Entry>, base: string, member: Option<string>, source: Path) {
    exists k :: 0 <= k < |entries| && entries[k].source == source && UnitPrefix(source.name, base, member).None?
                && forall j :: 0 <= j < k ==> UnitPrefix(entries[j].source.name, base, member).Some?
  }

  function FirstUnexpected(entries: seq<Entry>, base: string, member: Option<string>): (r: Option<Path>)
    ensures r.None? ==> forall e :: e in entries ==> UnitPrefix(e.source.name, base, member).Some?
    ensures r.Some? ==> IsFirstUnexpected(entries, base, member, r.value)
  {
    if entries == [] then None
    else if UnitPrefix(entries[0].source.name, base, member).None? then Some(entries[0].source)
    else
      var rest := FirstUnexpected(entries[1..], base, member);
      assert rest.Some? ==> IsFirstUnexpected(entries, base, member, rest.value) by {
        if rest.Some? { LaterUnexpected(entries, base, member, rest.value); }
      }
      rest
  }

  lemma LaterUnexpected(entries: seq<Entry>, base: string, member: Option<string>, source: Path)
    requires entries != [] && UnitPrefix(entries[0].source.name, base, member).Some?
    requires IsFirstUnexpected(entries[1..], base, member, source)
    ensures IsFirstUnexpected(entries, base, member, source)
  {
    hide UnitPrefix;
    var k :| 0 <= k < |entries| - 1 && entries[1..][k].source == source && UnitPrefix(source.name, base, member).None?
             && forall j :: 0 <= j < k ==> UnitPrefix(entries[1..][j].source.name, base, member).Some?;
    forall j | 0 <= j < k + 1 ensures UnitPrefix(entries[j].source.name, base, member).Some? {
      assert j > 0 ==> entries[j] == entries[1..][j - 1];
    }
    assert entries[k + 1].source == source;
  }

  datatype Association = Associated(plan: Plan) | Unexpected(source: Path)

  function Associate(entries: seq<Entry>, destinations: Option<seq<Path>>, expected: Option<string>,
                     member: Option<string>): (r: Association)
    ensures r.Associated? ==> r.plan.entries == entries && r.plan.member == member
    ensures expected.Some? && r.Associated? ==>
              forall e :: e in entries ==> UnitPrefix(e.source.name, expected.value, member).Some?
    ensures r.Unexpected? ==> expected.Some? && IsFirstUnexpected(entries, expected.value, member, r.source)
    ensures r.Associated? ==>
      forall base :: r.plan.trackBase == Some(base) <==> IsUnitBase(base, expected, destinations)
  {
    assert destinations.Some? ==> forall b :: FirstTrackBase(destinations.value) == Some(b)
                                              <==> IsUnitBase(b, None, destinations) by {
      if destinations.Some? { FirstTrackBaseMeans(destinations.value); }
    }
    var base :=
      if expected.None? && destinations.Some? then FirstTrackBase(destinations.value) else expected;
    if expected.Some? then
      match FirstUnexpected(entries, expected.value, member)
      case Some(source) => Unexpected(source)
      case None => Associated(Plan(entries, base, member))
    else Associated(Plan(entries, base, member))
  }

  /** `dest_by_name.get(name)`: of several destinations with one basename the last wins. */
  function DestinationNamed(destinations: seq<Path>, name: string): (r: Option<Path>)
    ensures r.Some? ==> r.value in destinations && r.value.name == name
    ensures r.None? ==> forall p :: p in destinations ==> p.name != name
  {
    if destinations == [] then None
    else if destinations[|destinations| - 1].name == name then Some(destinations[|destinations| - 1])
    else DestinationNamed(destinations[..|destinations| - 1], name)
  }

  lemma {:induction false} LastNameWins(destinations: seq<Path>, k: nat)
    requires k < |destinations|
    requires forall j :: k < j < |destinations| ==> destinations[j].name != destinations[k].name
    ensures DestinationNamed(destinations, destinations[k].name) == Some(destinations[k])
  {
    var last := |destinations| - 1;
    if k < last {
      LastNameWins(destinations[..last], k);
    }
  }

  function RemapEntry(entry: Entry, destinations: seq<Path>, base: string, index: nat,
                      member: Option<string>): (r: Entry)
    ensures r.source == entry.source
  {
    var original := DestinationNamed(destinations, entry.source.name);
    Entry(entry.source,
          WithUnitSuffix(if original.Some? then original.value else entry.target, base, index, member))
  }

  datatype Candidate = Candidate(entries: seq<Entry>, rewritten: seq<Path>, progressable: set<Path>)

  function Rewritten(destinations: seq<Path>, base: string, index: nat, member: Option<string>): (r: seq<Path>)
    ensures forall q :: q in r <==>
      exists p :: p in destinations && q == WithUnitSuffix(p, base, index, member) && q != p
  {
    if destinations == [] then []
    else
      var p := destinations[0];
      var q := WithUnitSuffix(p, base, index, member);
      assert forall x :: x in destinations <==> x == p || x in destinations[1..];
      (if q != p then [q] else []) + Rewritten(destinations[1..], base, index, member)
  }

  function SuffixCandidate(plan: Plan, index: nat): Candidate {
    var entries, next := plan.Remap(index), plan.Remap(index + 1);
    Candidate(
      entries,
      Rewritten(plan.Destinations(), plan.Base(), index, plan.member),
      set k | 0 <= k < |entries| && next[k].target != entries[k].target :: entries[k].source)
  }

  // ---- what the suffix scheme guarantees -------------------------------------

  predicate IsUnit(path: Path, base: string, member: Option<string>) {
    UnitPrefix(path.name, base, member).Some?
  }

  /** How the separation command relates the two: the track base is the member prefix,
      possibly extended by a space and more words. */
  predicate Related(base: string, member: Option<string>) {
    member.Some? ==> base == member.value || member.value + " " <= base
  }

  /** A file of the track: the base, then a label or an extension. */
  ghost predicate TrackFile(name: string, base: string) {
    exists rest: string :: name == base + rest && (" (" <= rest || "." <= rest)
  }

  /** A kept file of one ensemble member: the prefix, a space, more words, a label in
      parentheses and an extension. */
  ghost predicate MemberFile(name: string, prefix: string) {
    exists words: string, tag: string, extension: string ::
      extension != "" && SplitExt(name) == (prefix + " " + words + " (" + tag + ")", extension)
  }

  ghost predicate UnitFile(name: string, base: string, member: Option<string>) {
    TrackFile(name, base) || (member.Some? && MemberFile(name, member.value))
  }

  lemma TrackFileMatches(name: string, base: string)
    ensures MatchesUnitName(name, base) <==> TrackFile(name, base)
  {
    if rest: string :| name == base + rest && (" (" <= rest || "." <= rest) {
      if " (" <= rest {
        assert name[..|base| + 2] == base + " (";
      } else {
        assert name[..|base| + 1] == base + ".";
      }
    }
    if MatchesUnitName(name, base) {
      var rest, n := name[|base|..], if base + " (" <= name then 2 else 1;
      assert name == base + rest;
      assert rest[..n] == name[..|base| + n][|base|..];
    }
  }

  lemma LabelledStem(stem: string, prefix: string, words: string, tag: string)
    requires stem == prefix + " " + words + " (" + tag + ")"
    ensures prefix + " " <= stem && EndsWith(stem, ")") && RFind(stem, " (") > |prefix|
  {
    var head := prefix + " " + words;
    assert stem[..|prefix| + 1] == prefix + " ";
    assert stem[|stem| - 1..] == ")";
    assert stem[|head|..|head| + 2] == " (";
    assert OccursAt(stem, " (", |head|);
  }

  lemma StemHasLabel(stem: string, prefix: string) returns (words: string, tag: string)
    requires prefix + " " <= stem && EndsWith(stem, ")") && RFind(stem, " (") > |prefix|
    ensures stem == prefix + " " + words + " (" + tag + ")"
  {
    var at, last := RFind(stem, " ("), |stem| - 1;
    assert stem[at..at + 2] == " (" && stem[last..] == ")";
    assert stem[at + 1] == '(' && stem[last] == ')';
    words, tag := stem[|prefix| + 1..at], stem[at + 2..last];
    assert stem[..|prefix| + 1] == prefix + " ";
    assert stem == stem[..|prefix| + 1] + words + stem[at..at + 2] + tag + stem[last..];
  }

  lemma MemberFileMatches(name: string, prefix: string)
    ensures MatchesMemberName(name, prefix) <==> MemberFile(name, prefix)
  {
    hide SplitExt, RFind, EndsWith;
    var stem, extension := SplitExt(name).0, SplitExt(name).1;
    if MatchesMemberName(name, prefix) {
      var words, tag := StemHasLabel(stem, prefix);
      assert SplitExt(name) == (prefix + " " + words + " (" + tag + ")", extension);
    }
    if words: string, tag: string, e: string :|
      e != "" && SplitExt(name) == (prefix + " " + words + " (" + tag + ")", e)
    {
      LabelledStem(stem, prefix, words, tag);
    }
  }

  /** What a whole-unit suffix does to a path, by the form of its name: the mark stands after the
      track base, or after the member prefix in a member's file, and other files are left alone. */
  lemma SuffixMeans(path: Path, base: string, index: nat, member: Option<string>)
    ensures forall rest: string :: path.name == base + rest && (" (" <= rest || "." <= rest) ==>
              WithUnitSuffix(path, base, index, member) == Path(path.dir, base + "_" + Digits(index) + rest)
    ensures !TrackFile(path.name, base) && member.Some? && MemberFile(path.name, member.value) ==>
              exists rest: string :: path.name == member.value + rest &&
                WithUnitSuffix(path, base, index, member) ==
                Path(path.dir, member.value + "_" + Digits(index) + rest)
    ensures !UnitFile(path.name, base, member) ==> WithUnitSuffix(path, base, index, member) == path
    ensures IsUnit(path, base, member) <==> UnitFile(path.name, base, member)
  {
    hide MatchesUnitName, MatchesMemberName, Digits, TrackFile, MemberFile;
    TrackFileMatches(path.name, base);
    if member.Some? {
      MemberFileMatches(path.name, member.value);
    }
    forall rest | path.name == base + rest && (" (" <= rest || "." <= rest)
      ensures WithUnitSuffix(path, base, index, member) == Path(path.dir, base + "_" + Digits(index) + rest)
    {
      IsTrackFile(path.name, base, rest);
      assert path.name[|base|..] == rest;
    }
    if !TrackFile(path.name, base) && member.Some? && MemberFile(path.name, member.value) {
      assert UnitPrefix(path.name, base, member) == member;
      var rest := path.name[|member.value|..];
      assert path.name == member.value + rest;
    }
  }

  lemma IsTrackFile(name: string, base: string, rest: string)
    requires name == base + rest && (" (" <= rest || "." <= rest)
    ensures TrackFile(name, base)
  {
  }

  predicate DistinctNames(entries: seq<Entry>) {
    forall i, j :: 0 <= i < j < |entries| ==> entries[i].target.name != entries[j].target.name
  }

  predicate SameNames(entries: seq<Entry>) {
    forall e :: e in entries ==> e.source.name == e.target.name
  }

  /** The destination that gives the track base is itself a unit file, unless it has neither a
      label nor an extension. */
  lemma TrackBaseNamesItsUnit(path: Path)
    requires TrackBaseFromDestination(path).Some?
    ensures MatchesUnitName(path.name, TrackBaseFromDestination(path).value) <==>
              SplitExt(path.name).1 != "" || RFind(SplitExt(path.name).0, " (") > 0
  {
    var (stem, extension) := SplitExt(path.name);
    var at := RFind(stem, " (");
    if at > 0 {
      assert stem[..at] + " (" == stem[..at + 2];
    } else if extension != "" {
      assert stem + "." == path.name[..|stem| + 1];
    }
  }

  /** A suffixed unit name holds the whole numeral, so a name of known length bounds the
      index it can carry. This is what makes every renaming loop stop. */
  lemma SuffixBoundsIndex(path: Path, base: string, index: nat, member: Option<string>, limit: nat)
    requires IsUnit(path, base, member)
    requires |WithUnitSuffix(path, base, index, member).name| <= limit
    ensures index < Pow10(limit)
  {
    DigitsBelowPower(index);
    PowerMonotone(|Digits(index)|, limit);
  }

  lemma SuffixChangesUnits(path: Path, base: string, index: nat, member: Option<string>)
    ensures WithUnitSuffix(path, base, index, member) != path <==> IsUnit(path, base, member)
  {
    if IsUnit(path, base, member) {
      var n := |UnitPrefix(path.name, base, member).value|;
      assert WithUnitSuffix(path, base, index, member).name[n] == '_';
    }
  }

  lemma SamePrefixDecodes(prefix: string, i: nat, x: string, j: nat, y: string)
    requires x != [] && x[0] in " ." && y != [] && y[0] in " ."
    requires prefix + "_" + Digits(i) + x == prefix + "_" + Digits(j) + y
    ensures i == j && x == y
  {
    var w := prefix + "_" + Digits(i) + x;
    assert Digits(i) + x == w[|prefix| + 1..] == Digits(j) + y;
    NumeralThenText(i, x, j, y);
  }

  /** `text` goes on after `prefix` as a name suffixed with index `i` would, with `tail` next. */
  predicate ContinuesAt(text: string, prefix: string, i: nat, tail: string) {
    prefix + "_" + Digits(i) + tail <= text
  }

  /** One of the two prefixes looks like a suffixed unit name of the other. */
  ghost predicate Entangled(base: string, member: Option<string>) {
    member.Some? && exists i: nat :: EntangledAt(base, member.value, i)
  }

  ghost predicate EntangledAt(base: string, member: string, i: nat) {
    ContinuesAt(member, base, i, " (") || ContinuesAt(member, base, i, ".") || ContinuesAt(base, member, i, " ")
  }

  /** If two suffixed names with different prefixes are equal, the longer prefix goes on with
      the whole numeral and the start of the shorter name's rest. */
  lemma LongerPrefixContinues(a: string, i: nat, x: string, b: string, j: nat, y: string)
    requires |a| < |b| && x != [] && x[0] in " ."
    requires a + "_" + Digits(i) + x == b + "_" + Digits(j) + y
    ensures ContinuesAt(b, a, i, x[..1])
    ensures |x| >= 2 && x[1] != '_' ==> ContinuesAt(b, a, i, x[..2])
  {
    hide Digits;
    var n := |a| + 1 + |Digits(i)|;
    var w := a + "_" + Digits(i) + x;
    assert w == b + "_" + Digits(j) + y;
    assert w[|b|] == '_' && b == w[..|b|];
    assert forall k :: |a| < k < n ==> w[k] == Digits(i)[k - |a| - 1] && IsDigit(w[k]);
    assert w[n] == x[0];
    assert |b| > n;
    assert a + "_" + Digits(i) + x[..1] == w[..n + 1] == b[..n + 1];
    if |x| >= 2 && x[1] != '_' {
      assert w[n + 1] == x[1];
      assert a + "_" + Digits(i) + x[..2] == w[..n + 2] == b[..n + 2];
    }
  }

  /** What follows the prefix of a unit file. */
  lemma UnitRest(name: string, base: string, member: Option<string>)
    requires UnitPrefix(name, base, member).Some?
    ensures var a := UnitPrefix(name, base, member).value;
            var x := name[|a|..];
            && name == a + x && x != [] && x[0] in " ."
            && (a != base ==> member == Some(a) && x[..1] == " ")
            && (a == base && member != Some(base) ==> x[..1] == "." || (|x| >= 2 && x[..2] == " ("))
  {
    var a := UnitPrefix(name, base, member).value;
    if base + " (" <= name {
      assert name[|base|..][..2] == (base + " (")[|base|..];
    }
  }

  lemma LongerPrefixEntangles(p: string, i: nat, q: string, j: nat, base: string, member: Option<string>)
    requires UnitPrefix(p, base, member).Some? && UnitPrefix(q, base, member).Some?
    requires var a, b := UnitPrefix(p, base, member).value, UnitPrefix(q, base, member).value;
             |a| < |b| && a + "_" + Digits(i) + p[|a|..] == b + "_" + Digits(j) + q[|b|..]
    ensures Entangled(base, member)
  {
    hide UnitPrefix, Digits;
    var a, b := UnitPrefix(p, base, member).value, UnitPrefix(q, base, member).value;
    UnitRest(p, base, member);
    UnitRest(q, base, member);
    var x := p[|a|..];
    LongerPrefixContinues(a, i, x, b, j, q[|b|..]);
    assert a == base && x[..1] != "." ==> x[1] == '(' && x[..2] == " (";
    assert EntangledAt(base, member.value, i);
  }

  /** Unless the prefixes are entangled, different files or different indexes never meet: a
      suffixed path determines both the original path and the index. */
  lemma SuffixDecodes(p: Path, i: nat, q: Path, j: nat, base: string, member: Option<string>)
    requires !Entangled(base, member)
    requires IsUnit(p, base, member) && IsUnit(q, base, member)
    requires WithUnitSuffix(p, base, i, member) == WithUnitSuffix(q, base, j, member)
    ensures p == q && i == j
  {
    hide UnitPrefix, Digits, Entangled;
    var a, b := UnitPrefix(p.name, base, member).value, UnitPrefix(q.name, base, member).value;
    UnitRest(p.name, base, member);
    UnitRest(q.name, base, member);
    var w := a + "_" + Digits(i) + p.name[|a|..];
    assert w == b + "_" + Digits(j) + q.name[|b|..];
    if |a| < |b| {
      LongerPrefixEntangles(p.name, i, q.name, j, base, member);
    } else if |b| < |a| {
      LongerPrefixEntangles(q.name, j, p.name, i, base, member);
    } else {
      assert a == w[..|a|] == b;
      SamePrefixDecodes(a, i, p.name[|a|..], j, q.name[|b|..]);
    }
  }

  lemma SplitLabelled(stem: string)
    ensures SplitExt(stem + " (b).w") == (stem + " (b)", ".w")
  {
    var name, dot := stem + " (b).w", |stem| + 4;
    assert "." == ['.'];
    assert name[|stem|] == ' ' && name[dot] == '.' && name[dot + 1] == 'w' && |name| == dot + 2;
    forall k: nat {
      OccursOne(name, '.', k);
    }
    assert RFind(name, ".") == dot;
    assert name[..dot] == stem + " (b)" && name[dot..] == ".w";
  }

  lemma LabelledIsMember(stem: string, prefix: string)
    requires prefix + " " <= stem
    ensures MatchesMemberName(stem + " (b).w", prefix)
  {
    SplitLabelled(stem);
    var full := stem + " (b)";
    assert prefix + " " <= full;
    assert OccursAt(full, " (", |stem|);
  }

  /** Two different unit files whose suffixed paths are equal at one index. */
  ghost predicate MeetAt(p: Path, q: Path, i: nat, base: string, member: Option<string>) {
    && IsUnit(p, base, member) && IsUnit(q, base, member) && p != q
    && WithUnitSuffix(p, base, i, member) == WithUnitSuffix(q, base, i, member)
  }

  lemma LongMemberMeets(base: string, member: string, i: nat, tail: string) returns (p: Path, q: Path)
    requires (tail == " (" || tail == ".") && ContinuesAt(member, base, i, tail)
    ensures MeetAt(p, q, i, base, Some(member))
  {
    hide Digits, SplitExt, RFind, MatchesMemberName, UnitPrefix;
    var t, y := member[|base| + 1 + |Digits(i)|..], " a (b).w";
    assert member == base + "_" + Digits(i) + t && tail <= t;
    var x := t + "_" + Digits(i) + y;
    p, q := Path("", base + x), Path("", member + y);
    LabelledMember(member);
    assert base + tail <= p.name by { assert p.name[..|base| + |tail|] == base + tail; }
    assert q.name[|base|] == '_' && tail[0] != '_' && p.name[|base|] == tail[0];
    assert p.name[|base|..] == x && q.name[|member|..] == y;
    assert base + "_" + Digits(i) + x == member + "_" + Digits(i) + y;
    UnitByName(p.name, base, Some(member));
    UnitByMember(q.name, base, member);
  }

  lemma UnitByName(name: string, base: string, member: Option<string>)
    requires MatchesUnitName(name, base)
    ensures UnitPrefix(name, base, member) == Some(base)
  {
  }

  lemma UnitByMember(name: string, base: string, member: string)
    requires !MatchesUnitName(name, base) && MatchesMemberName(name, member)
    ensures UnitPrefix(name, base, Some(member)) == Some(member)
  {
  }

  lemma LabelledMember(member: string)
    ensures MatchesMemberName(member + " a (b).w", member)
  {
    hide MatchesMemberName;
    assert member + " a" + " (b).w" == member + " a (b).w";
    LabelledIsMember(member + " a", member);
  }

  lemma LongBaseMeets(base: string, member: string, i: nat) returns (p: Path, q: Path)
    requires ContinuesAt(base, member, i, " ")
    ensures MeetAt(p, q, i, base, Some(member))
  {
    hide Digits, SplitExt, RFind, MatchesMemberName;
    var n := |member| + 1 + |Digits(i)|;
    var t, x := base[n..], " (b).w";
    assert base == member + "_" + Digits(i) + t;
    var stem := member + t + "_" + Digits(i);
    p, q := Path("", base + x), Path("", stem + x);
    assert t[0] == ' ' && stem[|member|] == ' ' && base[|member|] == '_';
    assert member + " " <= stem;
    LabelledIsMember(stem, member);
    assert base + " (" <= p.name by { assert p.name[..|base| + 2] == base + " ("; }
    assert q.name[|member|] == ' ';
    assert p.name[|base|..] == x;
    assert q.name[|member|..] == t + "_" + Digits(i) + x;
    assert member + "_" + Digits(i) + q.name[|member|..] == base + "_" + Digits(i) + x;
  }

  /** The exact condition on the two prefixes under which two unit files can take one path. */
  lemma FilesMeetIffEntangled(base: string, member: Option<string>)
    ensures (exists p, q, i: nat :: MeetAt(p, q, i, base, member)) <==> Entangled(base, member)
  {
    hide MeetAt, ContinuesAt;
    if Entangled(base, member) {
      var i: nat :| EntangledAt(base, member.value, i);
      var p, q;
      if ContinuesAt(base, member.value, i, " ") {
        p, q := LongBaseMeets(base, member.value, i);
      } else {
        p, q := LongMemberMeets(base, member.value, i, if ContinuesAt(member.value, base, i, ".") then "." else " (");
      }
      assert MeetAt(p, q, i, base, member);
    } else {
      forall p, q, i: nat ensures !MeetAt(p, q, i, base, member) {
        NoMeeting(p, q, i, base, member);
      }
    }
  }

  lemma NoMeeting(p: Path, q: Path, i: nat, base: string, member: Option<string>)
    requires !Entangled(base, member)
    ensures !MeetAt(p, q, i, base, member)
  {
    hide Entangled, IsUnit, WithUnitSuffix;
    if MeetAt(p, q, i, base, member) {
      SuffixDecodes(p, i, q, i, base, member);
    }
  }

  /** The prefixes the separation command passes are not entangled. */
  lemma RelatedIsNotEntangled(base: string, member: Option<string>)
    requires Related(base, member)
    ensures !Entangled(base, member)
  {
    hide Digits;
    if member.Some? {
      forall i: nat ensures !EntangledAt(base, member.value, i) {
        assert (member.value + " ")[|member.value|] == ' ';
        assert (member.value + "_" + Digits(i) + " ")[|member.value|] == '_';
      }
    }
  }

  lemma ExampleMemberName(name: string, stem: string, prefix: string)
    requires name == "a_2 (x) m (y).wav" && stem == "a_2 (x) m (y)" && prefix == "a_2 (x)"
    ensures MatchesMemberName(name, prefix)
  {
    assert "." == ['.'];
    assert |name| == 17 && name[0] == 'a' && name[13] == '.' && name[14] == 'w' && name[15] == 'a' && name[16] == 'v';
    forall k: nat {
      OccursOne(name, '.', k);
    }
    assert RFind(name, ".") == 13;
    assert name[..13] == stem && name[13..] == ".wav";
    assert OccursAt(stem, " (", 9);
  }

  lemma ExampleUnits(base: string, prefix: string, p: string, q: string)
    requires base == "a" && prefix == "a_2 (x)"
    requires p == "a (x)_2 m (y).wav" && q == "a_2 (x) m (y).wav"
    ensures UnitPrefix(p, base, Some(prefix)) == Some(base)
    ensures UnitPrefix(q, base, Some(prefix)) == Some(prefix)
  {
    ExampleMemberName(q, "a_2 (x) m (y)", prefix);
    assert base + " (" == p[..3];
    assert q[1] == '_' && (base + " (")[1] == ' ' && (base + ".")[1] == '.';
  }

  lemma ExampleSuffixes(base: string, prefix: string, p: string, q: string)
    requires base == "a" && prefix == "a_2 (x)"
    requires p == "a (x)_2 m (y).wav" && q == "a_2 (x) m (y).wav"
    ensures base + "_" + Digits(2) + p[|base|..] == prefix + "_" + Digits(2) + q[|prefix|..]
  {
    hide Digits;
    ExampleNumeral();
    var mark := "_2";
    assert "_" + Digits(2) == mark;
    var tail := q[|prefix|..];
    assert p == base + " (x)" + mark + tail;
    assert base + mark + " (x)" == prefix;
    assert p[|base|..] == " (x)" + mark + tail;
  }

  lemma ExampleNumeral()
    ensures Digits(2) == "2"
  {
    assert Digits(2) == ['2'];
  }

  /** The relation matters: without it two different staged names can take one path. */
  lemma UnrelatedPrefixesCanCollide(base: string, prefix: string, p: Path, q: Path)
    requires base == "a" && prefix == "a_2 (x)"
    requires p == Path("out", "a (x)_2 m (y).wav") && q == Path("out", "a_2 (x) m (y).wav")
    ensures IsUnit(p, base, Some(prefix)) && IsUnit(q, base, Some(prefix)) && p != q
    ensures WithUnitSuffix(p, base, 2, Some(prefix)) == WithUnitSuffix(q, base, 2, Some(prefix))
  {
    ExampleUnits(base, prefix, p.name, q.name);
    ExampleSuffixes(base, prefix, p.name, q.name);
    assert p.name[0..2] == "a " && q.name[0..2] == "a_";
  }

  /** Without the relation, two unit files can still meet at small indexes only. */
  lemma ClashBoundsIndex(p: Path, q: Path, index: nat, base: string, member: Option<string>, limit: nat)
    requires IsUnit(p, base, member) && IsUnit(q, base, member) && p != q
    requires WithUnitSuffix(p, base, index, member) == WithUnitSuffix(q, base, index, member)
    requires |base| <= limit && (member.Some? ==> |member.value| <= limit)
    ensures index < Pow10(limit)
  {
    hide UnitPrefix, Digits, Pow10;
    var a, b := UnitPrefix(p.name, base, member).value, UnitPrefix(q.name, base, member).value;
    assert p.name == a + p.name[|a|..] && q.name == b + q.name[|b|..];
    ClashingPrefixes(a, p.name[|a|..], b, q.name[|b|..], index, limit);
  }

  lemma ClashingPrefixes(a: string, x: string, b: string, y: string, index: nat, limit: nat)
    requires |a| <= limit && |b| <= limit && a + x != b + y
    requires x != [] && x[0] in " ." && y != [] && y[0] in " ."
    requires a + "_" + Digits(index) + x == b + "_" + Digits(index) + y
    ensures index < Pow10(limit)
  {
    hide Digits, Pow10;
    var w := a + "_" + Digits(index) + x;
    if |a| == |b| {
      assert a == w[..|a|] == b;
      SamePrefixDecodes(a, index, x, index, y);
    } else if |a| < |b| {
      NumeralInsidePrefix(a, x, b, y, index, limit);
    } else {
      NumeralInsidePrefix(b, y, a, x, index, limit);
    }
  }

  lemma NumeralInsidePrefix(a: string, x: string, b: string, y: string, index: nat, limit: nat)
    requires |a| < |b| <= limit && x != [] && x[0] in " ."
    requires a + "_" + Digits(index) + x == b + "_" + Digits(index) + y
    ensures index < Pow10(limit)
  {
    var w, n := a + "_" + Digits(index) + x, |Digits(index)|;
    assert w == b + "_" + Digits(index) + y;
    assert w[|b|] == '_';
    assert forall k :: |a| < k <= |a| + n ==> w[k] == Digits(index)[k - |a| - 1] && IsDigit(w[k]);
    assert w[|a| + n + 1] == x[0];
    assert n <= limit;
    DigitsBelowPower(index);
    PowerMonotone(n, limit);
  }

  /** The destination a remap starts from: the last one with the file's basename. */
  function OriginalOf(plan: Plan, k: nat): Path
    requires k < |plan.entries|
  {
    var named := DestinationNamed(plan.Destinations(), plan.entries[k].source.name);
    if named.Some? then named.value else plan.entries[k].target
  }

  lemma OriginalIsNamed(plan: Plan, k: nat)
    requires SameNames(plan.entries) && k < |plan.entries|
    ensures OriginalOf(plan, k).name == plan.entries[k].target.name
    ensures exists j :: 0 <= j < |plan.entries| && OriginalOf(plan, k) == plan.entries[j].target
  {
    hide DestinationNamed;
    assert plan.entries[k] in plan.entries && plan.Destinations()[k] == plan.entries[k].target;
    if p :| p in plan.Destinations() && p == OriginalOf(plan, k) {
      var j :| 0 <= j < |plan.Destinations()| && plan.Destinations()[j] == p;
    }
  }

  /** When no two unit files share a basename, a unit file is remapped from its own destination. */
  lemma UnitOriginalIsOwn(plan: Plan, k: nat)
    requires SameNames(plan.entries) && DistinctUnitNames(plan) && k < |plan.entries|
    requires IsUnit(plan.entries[k].target, plan.Base(), plan.member)
    ensures OriginalOf(plan, k) == plan.entries[k].target
  {
    hide UnitPrefix, DestinationNamed;
    OriginalIsNamed(plan, k);
    var j :| 0 <= j < |plan.entries| && OriginalOf(plan, k) == plan.entries[j].target;
    assert IsUnit(plan.entries[j].target, plan.Base(), plan.member);
  }

  /** With distinct basenames a remap is each file's own destination with the suffix. */
  lemma RemapIsPerFile(plan: Plan, index: nat)
    requires SameNames(plan.entries) && DistinctNames(plan.entries)
    ensures forall k :: 0 <= k < |plan.entries| ==>
      plan.Remap(index)[k] == Entry(plan.entries[k].source,
                                    WithUnitSuffix(plan.entries[k].target, plan.Base(), index, plan.member))
  {
    forall k | 0 <= k < |plan.entries|
      ensures DestinationNamed(plan.Destinations(), plan.entries[k].source.name) == Some(plan.entries[k].target)
    {
      assert plan.entries[k] in plan.entries;
      LastNameWins(plan.Destinations(), k);
    }
  }

  predicate RemapsDistinct(plan: Plan, index: nat) {
    forall i, j :: 0 <= i < j < |plan.entries| && IsUnit(plan.entries[i].target, plan.Base(), plan.member)
                   && IsUnit(plan.entries[j].target, plan.Base(), plan.member)
                   ==> plan.Remap(index)[i].target != plan.Remap(index)[j].target
  }

  predicate DistinctUnitNames(plan: Plan) {
    forall i, j :: 0 <= i < j < |plan.entries| && IsUnit(plan.entries[i].target, plan.Base(), plan.member)
                   && IsUnit(plan.entries[j].target, plan.Base(), plan.member)
                   ==> plan.entries[i].target.name != plan.entries[j].target.name
  }

  /** Exactly when a suffix attempt gives every unit file its own path, whatever the
      index: when no two staged unit files share a basename. Two that do are sent to one
      path at every index. */
  lemma RemapInjectiveIffNamesDistinct(plan: Plan, index: nat)
    requires SameNames(plan.entries) && !Entangled(plan.Base(), plan.member)
    ensures RemapsDistinct(plan, index) <==> DistinctUnitNames(plan)
  {
    forall i, j | 0 <= i < j < |plan.entries| && IsUnit(plan.entries[i].target, plan.Base(), plan.member)
                  && IsUnit(plan.entries[j].target, plan.Base(), plan.member)
      ensures plan.entries[i].target.name == plan.entries[j].target.name
              <==> plan.Remap(index)[i].target == plan.Remap(index)[j].target
    {
      var a, b := plan.entries[i], plan.entries[j];
      assert a in plan.entries && b in plan.entries;
      assert a.target == plan.Destinations()[i] && b.target == plan.Destinations()[j];
      var p := DestinationNamed(plan.Destinations(), a.source.name).value;
      var q := DestinationNamed(plan.Destinations(), b.source.name).value;
      if a.target.name != b.target.name && plan.Remap(index)[i].target == plan.Remap(index)[j].target {
        SuffixDecodes(p, index, q, index, plan.Base(), plan.member);
      }
    }
  }

  /** A file can advance by changing the index exactly when it is part of the unit, and
      the rewritten destinations are exactly the unit's. */
  lemma CandidateIsTheUnit(plan: Plan, index: nat, k: nat)
    requires SameNames(plan.entries) && k < |plan.entries|
    requires forall i, j :: 0 <= i < j < |plan.entries| ==> plan.entries[i].source != plan.entries[j].source
    ensures plan.entries[k].source in SuffixCandidate(plan, index).progressable
            <==> IsUnit(plan.entries[k].target, plan.Base(), plan.member)
    ensures IsUnit(plan.entries[k].target, plan.Base(), plan.member) ==>
              WithUnitSuffix(plan.entries[k].target, plan.Base(), index, plan.member)
                in SuffixCandidate(plan, index).rewritten
  {
    var base, member := plan.Base(), plan.member;
    var e := plan.entries[k];
    assert e in plan.entries;
    assert plan.Destinations()[k] == e.target;
    var p := DestinationNamed(plan.Destinations(), e.source.name).value;
    SuffixChangesUnits(e.target, base, index, member);
    if WithUnitSuffix(p, base, index, member) == WithUnitSuffix(p, base, index + 1, member) && IsUnit(p, base, member) {
      var a := UnitPrefix(p.name, base, member).value;
      SamePrefixDecodes(a, index, p.name[|a|..], index + 1, p.name[|a|..]);
    }
    var c := SuffixCandidate(plan, index);
    if e.source in c.progressable {
      var m :| 0 <= m < |c.entries| && plan.Remap(index + 1)[m].target != c.entries[m].target
               && c.entries[m].source == e.source;
      assert m == k;
    } else {
      assert c.entries[k].source == e.source;
    }
  }
}
